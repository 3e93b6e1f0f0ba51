/**
 The batch loop that empties the queue of asynchronous records.  Each batch starts up to
 50 goroutines, every one of which dequeues one record through the lock-free queue, fetches
 its response and sends it to the log channel.  Fetching a response changes fields of the
 record but not which record it is, so it is not a step here.
 */
module AsyncDrain {
  import opened Arithmetic
  import opened SeqSums
  import Q = LockFreeQueue
  import QR = QueueResults

  const BATCH_SIZE: nat := 50

  datatype Phase =
    | LoopTest
    | Batch(left: nat)   // goroutines of the current batch still to be started
    | Finished

  datatype Drain<T> = Drain(q: Q.Queue<T>, phase: Phase, wg: int, batches: nat, sent: seq<T>)

  datatype Action =
    | Begin
    | Go
    | Step(t: nat)
    | Send(t: nat)
    | EndBatch
    | Finish

  predicate Enabled<T>(d: Drain<T>, a: Action)
  {
    match a
    case Begin => d.phase.LoopTest? && d.q.length > 0
    case Go => d.phase.Batch? && d.phase.left > 0
    case Step(t) => t < |d.q.threads| && Q.InCall(d.q.threads[t])
    case Send(t) => t < |d.q.threads| && d.q.threads[t].DeqReturned?
    case EndBatch => d.phase == Batch(0) && d.wg == 0
    case Finish => d.phase.LoopTest? && d.q.length <= 0
  }

  function Apply<T>(d: Drain<T>, a: Action): Drain<T>
    requires Enabled(d, a)
  {
    match a
    case Begin =>
      var toProcess := Min(d.q.length, BATCH_SIZE);
      d.(phase := Batch(toProcess), wg := d.wg + toProcess, batches := d.batches + 1)
    case Go =>
      d.(q := Q.Apply(Q.Apply(d.q, Q.Spawn), Q.StartDequeue(|d.q.threads|)), phase := Batch(d.phase.left - 1))
    case Step(t) => d.(q := Q.Apply(d.q, Q.Advance(t)))
    case Send(t) =>
      d.(q := Q.Apply(d.q, Q.Collect(t)), wg := d.wg - 1, sent := d.sent + [d.q.threads[t].value])
    case EndBatch => d.(phase := LoopTest)
    case Finish => d.(phase := Finished)
  }

  predicate Legal<T>(d: Drain<T>, run: seq<Action>)
    decreases |run|
  {
    run == [] || (Enabled(d, run[0]) && Legal(Apply(d, run[0]), run[1..]))
  }

  function Exec<T>(d: Drain<T>, run: seq<Action>): Drain<T>
    requires Legal(d, run)
    decreases |run|
  {
    if run == [] then d else Exec(Apply(d, run[0]), run[1..])
  }

  /** A state that meets the queue's invariant and in which no call is in flight. */
  ghost predicate Quiescent<T>(q: Q.Queue<T>)
  {
    Q.Inv(q) && forall pc :: pc in q.threads ==> pc.Idle?
  }

  function Start<T>(q: Q.Queue<T>): Drain<T>
  {
    Drain(q, LoopTest, 0, 0, [])
  }

  function CeilDiv(n: nat, k: nat): nat
    requires k > 0
  {
    (n + k - 1) / k
  }

  // ---- the invariant ----

  /** A goroutine that has not taken its record yet. */
  function Pending<T>(pc: Q.Pc<T>): nat
  {
    if Q.InCall(pc) && !Q.InEnqueue(pc) && !pc.DeqCount? then 1 else 0
  }

  /** A goroutine that has not called wg.Done yet. */
  function Busy<T>(pc: Q.Pc<T>): nat { if pc.Idle? then 0 else 1 }

  ghost predicate Dequeuing<T>(pc: Q.Pc<T>)
  {
    !Q.InEnqueue(pc) && !QR.SawNil(pc)
  }

  ghost predicate AllDequeuing<T>(threads: seq<Q.Pc<T>>)
  {
    forall pc :: pc in threads ==> Dequeuing(pc)
  }

  /** Records that no batch so far was meant to take, out of `n`. */
  function Rest(n: nat, batches: nat): nat
  {
    if n > BATCH_SIZE * batches then n - BATCH_SIZE * batches else 0
  }

  function Left(p: Phase): nat { if p.Batch? then p.left else 0 }

  /** The bookkeeping of a drain of `n` records that began with `n0` goroutines around. */
  ghost predicate CountsOk<T>(n: nat, n0: nat, d: Drain<T>)
  {
    && |d.q.mem.Contents()| == Left(d.phase) + Sum(d.q.threads, Pending) + Rest(n, d.batches)
    && d.wg == Left(d.phase) + Sum(d.q.threads, Busy)
    && |d.q.threads| + Left(d.phase) + Rest(n, d.batches) == n0 + n
    && (d.batches > 0 ==> n > BATCH_SIZE * (d.batches - 1))
    && (!d.phase.Batch? ==> d.wg == 0)
    && (d.phase.Finished? ==> d.q.mem.Contents() == [])
  }

  /** Every record is sent, still queued, or in the hands of a goroutine. */
  ghost predicate RecordsOk<T(!new)>(q0: Q.Queue<T>, d: Drain<T>)
  {
    forall v :: QR.Held(d.q, v) + multiset(d.sent)[v] == QR.Held(q0, v)
  }

  ghost predicate Inv<T(!new)>(q0: Q.Queue<T>, d: Drain<T>)
  {
    && Q.Inv(d.q)
    && AllDequeuing(d.q.threads)
    && CountsOk(|q0.mem.Contents()|, |q0.threads|, d)
    && RecordsOk(q0, d)
  }

  lemma StartInv<T(!new)>(q0: Q.Queue<T>)
    requires Quiescent(q0)
    ensures Inv(q0, Start(q0))
  {
    SumZero(q0.threads, Pending);
    SumZero(q0.threads, Busy);
  }

  /** With no goroutine busy, the queue's length counter is the number of records in it. */
  lemma AllIdle<T(!new)>(q: Q.Queue<T>)
    requires Q.Inv(q) && Sum(q.threads, Busy) == 0
    ensures Quiescent(q) && Sum(q.threads, Pending) == 0 && q.length == |q.mem.Contents()|
    ensures forall v :: QR.Held(q, v) == multiset(q.mem.Contents())[v]
  {
    SumZero(q.threads, Busy);
    forall pc | pc in q.threads
      ensures pc.Idle?
    {
      assert Busy(pc) == 0;
    }
    SumZero(q.threads, Pending);
    SumZero(q.threads, Q.Linked);
    SumZero(q.threads, Q.Taken);
    forall v
      ensures QR.Held(q, v) == multiset(q.mem.Contents())[v]
    {
      SumZero(q.threads, QR.Incoming(q.mem, v));
      SumZero(q.threads, QR.Outgoing(v));
    }
  }

  lemma PendingDrops<T>(m: Q.Memory<T>, pc: Q.Pc<T>)
    requires Q.InCall(pc) && Dequeuing(pc) && Dequeuing(Q.PcAfter(m, pc)) && !Q.PcAfter(m, pc).NilDereference?
    ensures Pending(Q.PcAfter(m, pc)) + |Q.StepEffect(m, pc).Out()| == Pending(pc)
    ensures Busy(Q.PcAfter(m, pc)) == Busy(pc) == 1 && Q.StepEffect(m, pc).In() == []
  {
  }

  /** A dequeuer of the batch never sees the end of the queue: there is a record for each of them. */
  lemma NeverSeesNil<T(!new)>(q: Q.Queue<T>, t: nat)
    requires Q.Inv(q) && t < |q.threads| && Q.InCall(q.threads[t]) && Dequeuing(q.threads[t])
    requires Sum(q.threads, Pending) <= |q.mem.Contents()|
    ensures Dequeuing(Q.PcAfter(q.mem, q.threads[t]))
  {
    if QR.SawNil(Q.Apply(q, Q.Advance(t)).threads[t]) {
      QR.NewNil(q, Q.Advance(t), t);
      SumAtLeast(q.threads, t, Pending);
    }
  }

  lemma StepCounts<T>(n: nat, n0: nat, d: Drain<T>, t: nat)
    requires CountsOk(n, n0, d) && Enabled(d, Step(t))
    requires var pc := d.q.threads[t];
      Dequeuing(pc) && Dequeuing(Q.PcAfter(d.q.mem, pc)) && !Q.PcAfter(d.q.mem, pc).NilDereference?
    requires d.q.mem.Contents() + Q.EffectOf(d.q, Q.Advance(t)).In()
          == Q.EffectOf(d.q, Q.Advance(t)).Out() + Apply(d, Step(t)).q.mem.Contents()
    ensures CountsOk(n, n0, Apply(d, Step(t)))
  {
    var m, pc := d.q.mem, d.q.threads[t];
    var pc', e := Q.PcAfter(m, pc), Q.StepEffect(m, pc);
    PendingDrops(m, pc);
    SumUpdate(d.q.threads, t, pc', Pending);
    SumUpdate(d.q.threads, t, pc', Busy);
    var w := Apply(d, Step(t)).q.mem;
    assert |m.Contents() + e.In()| == |e.Out() + w.Contents()|;
  }

  lemma StepRecords<T(!new)>(q0: Q.Queue<T>, d: Drain<T>, t: nat)
    requires RecordsOk(q0, d) && Q.Inv(d.q) && Enabled(d, Step(t))
    ensures RecordsOk(q0, Apply(d, Step(t)))
  {
    forall v
      ensures QR.Held(Apply(d, Step(t)).q, v) == QR.Held(d.q, v)
    {
      QR.HeldAfterAdvance(d.q, t, v);
    }
  }

  lemma NoCrash<T>(q: Q.Queue<T>, t: nat)
    requires Q.Inv(q) && t < |q.threads|
    ensures !q.threads[t].NilDereference?
  {
    assert q.threads[t] in q.threads && Q.ThreadOk(q.mem, q.threads[t]);
  }

  lemma StepInv<T(!new)>(q0: Q.Queue<T>, d: Drain<T>, t: nat)
    requires Inv(q0, d) && Enabled(d, Step(t))
    ensures Inv(q0, Apply(d, Step(t)))
  {
    var pc := d.q.threads[t];
    assert pc in d.q.threads;
    NeverSeesNil(d.q, t);
    QR.StepRefinesFifo(d.q, Q.Advance(t));
    NoCrash(Apply(d, Step(t)).q, t);
    StepCounts(|q0.mem.Contents()|, |q0.threads|, d, t);
    StepRecords(q0, d, t);
  }

  lemma SendCounts<T>(n: nat, n0: nat, d: Drain<T>, t: nat)
    requires CountsOk(n, n0, d) && Enabled(d, Send(t))
    ensures CountsOk(n, n0, Apply(d, Send(t)))
  {
    SumUpdate(d.q.threads, t, Q.Idle, Pending);
    SumUpdate(d.q.threads, t, Q.Idle, Busy);
    SumAtLeast(d.q.threads, t, Busy);
  }

  lemma SendRecords<T(!new)>(q0: Q.Queue<T>, d: Drain<T>, t: nat)
    requires RecordsOk(q0, d) && Enabled(d, Send(t))
    ensures RecordsOk(q0, Apply(d, Send(t)))
  {
    var r := Apply(d, Send(t));
    forall v
      ensures QR.Held(r.q, v) + multiset(r.sent)[v] == QR.Held(q0, v)
    {
      QR.HeldAfterOther(d.q, Q.Collect(t), v);
      assert QR.Held(d.q, v) + multiset(d.sent)[v] == QR.Held(q0, v);
    }
  }

  lemma SendInv<T(!new)>(q0: Q.Queue<T>, d: Drain<T>, t: nat)
    requires Inv(q0, d) && Enabled(d, Send(t))
    ensures Inv(q0, Apply(d, Send(t)))
  {
    Q.StepKeepsInv(d.q, Q.Collect(t));
    SendCounts(|q0.mem.Contents()|, |q0.threads|, d, t);
    SendRecords(q0, d, t);
  }

  lemma GoCounts<T>(n: nat, n0: nat, d: Drain<T>)
    requires CountsOk(n, n0, d) && Enabled(d, Go)
    ensures CountsOk(n, n0, Apply(d, Go))
    ensures Apply(d, Go).q.threads == d.q.threads + [Q.DeqReadHead]
  {
    assert Apply(d, Go).q.threads == d.q.threads + [Q.DeqReadHead];
    SumAppend(d.q.threads, Q.DeqReadHead, Pending);
    SumAppend(d.q.threads, Q.DeqReadHead, Busy);
  }

  lemma GoRecords<T(!new)>(q0: Q.Queue<T>, d: Drain<T>)
    requires RecordsOk(q0, d) && Enabled(d, Go)
    ensures RecordsOk(q0, Apply(d, Go))
  {
    var q1 := Q.Apply(d.q, Q.Spawn);
    var start: Q.Action<T> := Q.StartDequeue(|d.q.threads|);
    forall v
      ensures QR.Held(Q.Apply(q1, start), v) == QR.Held(d.q, v)
    {
      QR.HeldAfterOther(d.q, Q.Spawn, v);
      QR.HeldAfterOther(q1, start, v);
    }
  }

  lemma GoQueue<T>(q: Q.Queue<T>)
    requires Q.Inv(q)
    ensures Q.Inv(Q.Apply(Q.Apply(q, Q.Spawn), Q.StartDequeue(|q.threads|)))
  {
    Q.StepKeepsInv(q, Q.Spawn);
    Q.StepKeepsInv(Q.Apply(q, Q.Spawn), Q.StartDequeue(|q.threads|));
  }

  lemma GoInv<T(!new)>(q0: Q.Queue<T>, d: Drain<T>)
    requires Inv(q0, d) && Enabled(d, Go)
    ensures Inv(q0, Apply(d, Go))
  {
    GoQueue(d.q);
    GoCounts(|q0.mem.Contents()|, |q0.threads|, d);
    GoRecords(q0, d);
  }

  lemma BeginInv<T(!new)>(q0: Q.Queue<T>, d: Drain<T>)
    requires Inv(q0, d) && Enabled(d, Begin)
    ensures Inv(q0, Apply(d, Begin))
    ensures var n := |q0.mem.Contents()|; Apply(d, Begin).phase.left + Rest(n, d.batches + 1) == Rest(n, d.batches)
  {
    AllIdle(d.q);
  }

  lemma StepKeepsInv<T(!new)>(q0: Q.Queue<T>, d: Drain<T>, a: Action)
    requires Inv(q0, d) && Enabled(d, a)
    ensures Inv(q0, Apply(d, a))
  {
    match a
    case Begin => BeginInv(q0, d);
    case Go => GoInv(q0, d);
    case Step(t) => StepInv(q0, d, t);
    case Send(t) => SendInv(q0, d, t);
    case EndBatch =>
    case Finish => AllIdle(d.q);
  }

  // ---- progress and termination ----

  /** Until the drain has finished, something can always move. */
  lemma Progress<T(!new)>(q0: Q.Queue<T>, d: Drain<T>)
    requires Inv(q0, d) && !d.phase.Finished?
    ensures exists a :: Enabled(d, a)
  {
    if d.phase.LoopTest? {
      assert Enabled(d, Begin) || Enabled(d, Finish);
    } else if d.phase.left > 0 {
      assert Enabled(d, Go);
    } else if d.wg == 0 {
      assert Enabled(d, EndBatch);
    } else {
      var t := SomeBusy(d.q);
      assert Enabled(d, Step(t)) || Enabled(d, Send(t));
    }
  }

  /** A goroutine that has not finished is inside its call, or has its record and can send it. */
  lemma SomeBusy<T>(q: Q.Queue<T>) returns (t: nat)
    requires Q.Inv(q) && AllDequeuing(q.threads) && Sum(q.threads, Busy) != 0
    ensures t < |q.threads| && (Q.InCall(q.threads[t]) || q.threads[t].DeqReturned?)
  {
    SumZero(q.threads, Busy);
    var pc :| pc in q.threads && Busy(pc) != 0;
    t :| 0 <= t < |q.threads| && q.threads[t] == pc;
    NoCrash(q, t);
    assert Dequeuing(pc);
  }

  ghost function Cost<T>(q0: Q.Queue<T>, d: Drain<T>): int
  {
    var n := |q0.mem.Contents()|;
    QR.Work(d.q, |q0.threads| + n) + 8 * Left(d.phase) + 12 * Rest(n, d.batches) + d.wg
    + match d.phase case Finished => 0 case LoopTest => 1 case Batch(_) => 2
  }

  lemma GoCost<T>(n: nat, n0: nat, d: Drain<T>)
    requires CountsOk(n, n0, d) && Enabled(d, Go)
    ensures QR.Work(Apply(d, Go).q, n0 + n) == QR.Work(d.q, n0 + n) + 7
  {
    GoCounts(n, n0, d);
    SumAppend(d.q.threads, Q.DeqReadHead, QR.RankIn(d.q.mem));
  }

  lemma SendCost<T>(n: nat, d: Drain<T>, t: nat)
    requires Enabled(d, Send(t))
    ensures QR.Work(Apply(d, Send(t)).q, n) == QR.Work(d.q, n)
  {
    SumUpdate(d.q.threads, t, Q.Idle, QR.RankIn(d.q.mem));
  }

  lemma OwnStepDrops<T>(q0: Q.Queue<T>, d: Drain<T>, a: Action)
    requires CountsOk(|q0.mem.Contents()|, |q0.threads|, d) && Enabled(d, a) && !a.Step?
    requires var n := |q0.mem.Contents()|;
      a.Begin? ==> Apply(d, a).phase.left + Rest(n, d.batches + 1) == Rest(n, d.batches)
    ensures Cost(q0, Apply(d, a)) < Cost(q0, d)
  {
    var n, n0 := |q0.mem.Contents()|, |q0.threads|;
    match a
    case Go => GoCost(n, n0, d);
    case Send(t) => SendCost(n0 + n, d, t);
    case _ =>
  }

  lemma CostByWork<T>(q0: Q.Queue<T>, d: Drain<T>, q: Q.Queue<T>)
    requires var n := |q0.threads| + |q0.mem.Contents()|; QR.Work(q, n) < QR.Work(d.q, n)
    ensures Cost(q0, d.(q := q)) < Cost(q0, d)
  {
  }

  lemma NoEnqueuer<T>(q: Q.Queue<T>)
    requires AllDequeuing(q.threads)
    ensures QR.NoEnqueue(q)
  {
  }

  lemma ThreadsBound<T>(n: nat, n0: nat, d: Drain<T>)
    requires CountsOk(n, n0, d)
    ensures |d.q.threads| <= n0 + n
  {
  }

  /** The queue after a step of thread `t` has less work left. */
  lemma StepWork<T>(q: Q.Queue<T>, n: nat, t: nat, q': Q.Queue<T>)
    requires Q.Inv(q) && AllDequeuing(q.threads) && |q.threads| <= n
    requires Q.Enabled(q, Q.Advance(t)) && q' == Q.Apply(q, Q.Advance(t))
    ensures QR.Work(q', n) < QR.Work(q, n)
  {
    NoEnqueuer(q);
    QR.DequeueWorks(q, n, t);
  }

  lemma StepCost<T>(q0: Q.Queue<T>, d: Drain<T>, t: nat, q': Q.Queue<T>)
    requires Q.Inv(d.q) && AllDequeuing(d.q.threads) && |d.q.threads| <= |q0.threads| + |q0.mem.Contents()|
    requires Q.Enabled(d.q, Q.Advance(t)) && q' == Q.Apply(d.q, Q.Advance(t))
    ensures Cost(q0, d.(q := q')) < Cost(q0, d)
  {
    StepWork(d.q, |q0.threads| + |q0.mem.Contents()|, t, q');
    CostByWork(q0, d, q');
  }
}
