/**
 Which calls on the queue are sure to finish.  `Dequeue` leaves out the step that would help a
 lagging tail, so a dequeuer depends on an enqueuer in one case; `Enqueue` depends on nobody.
 */
module QueueProgress {
  import opened SeqSums
  import opened LockFreeQueue
  import opened QueueResults

  // ---- a thread that runs alone ----

  /** The state after thread `t` has taken up to `n` steps of its call with nobody else moving. */
  function Solo<T>(q: Queue<T>, t: nat, n: nat): Queue<T>
    decreases n
  {
    if n == 0 || !Enabled(q, Advance(t)) then q else Solo(Apply(q, Advance(t)), t, n - 1)
  }

  predicate InDequeue<T>(pc: Pc<T>)
  {
    InCall(pc) && !InEnqueue(pc)
  }

  /** The call has returned, or ended the process with "No element to dequeue". */
  predicate Done<T>(q: Queue<T>, t: nat)
  {
    t < |q.threads| && (q.threads[t].Idle? || q.threads[t].DeqReturned? || q.threads[t].DeqFatal?)
  }

  ghost predicate FinishesAlone<T>(q: Queue<T>, t: nat)
  {
    exists n: nat :: Done(Solo(q, t, n), t)
  }

  /** Nothing can send the attempt back to the top any more, even if the tail lags at the head. */
  predicate Committed<T>(m: Memory<T>, pc: Pc<T>)
  {
    pc.DeqCount? || (pc.DeqRecheck? && pc.first == m.head && pc.next.None?)
  }

  lemma Dequeues<T>(q: Queue<T>, t: nat)
    requires Inv(q) && t < |q.threads| && InDequeue(q.threads[t])
    ensures var r := Apply(q, Advance(t)); Inv(r) && (Done(r, t) || InDequeue(r.threads[t]))
  {
    var r := Apply(q, Advance(t));
    StepKeepsInv(q, Advance(t));
    assert r.threads[t] in r.threads && ThreadOk(r.mem, r.threads[t]);
  }

  /** A committed attempt is over within one or two steps. */
  lemma CommittedFinishes<T>(q: Queue<T>, t: nat)
    requires Inv(q) && t < |q.threads| && InDequeue(q.threads[t]) && Committed(q.mem, q.threads[t])
    ensures Done(Solo(q, t, 1), t)
  {
    assert q.threads[t] in q.threads && ThreadOk(q.mem, q.threads[t]);
    var r := Apply(q, Advance(t));
    assert Solo(q, t, 1) == Solo(r, t, 0) == r;
  }

  lemma {:induction false} UnlaggedFinishes<T>(q: Queue<T>, t: nat)
    requires Inv(q) && t < |q.threads| && InDequeue(q.threads[t]) && !LagsAtHead(q.mem)
    ensures Done(Solo(q, t, Rank(q.mem, q.threads[t])), t)
    decreases Rank(q.mem, q.threads[t])
  {
    var m, pc, r := q.mem, q.threads[t], Apply(q, Advance(t));
    Dequeues(q, t);
    if pc.DeqSwing? && pc.first == m.head {
      assert Rank(m, pc) == 2;
      CommittedFinishes(r, t);
      assert Solo(q, t, 2) == Solo(r, t, 1);
    } else {
      RankDrops(m, pc);
      if !Done(r, t) {
        UnlaggedFinishes(r, t);
        SoloLonger(r, t, Rank(m, r.threads[t]), Rank(m, pc) - 1);
      } else {
        SoloLonger(r, t, 0, Rank(m, pc) - 1);
      }
      assert Solo(q, t, Rank(m, pc)) == Solo(r, t, Rank(m, pc) - 1);
    }
  }

  /** A call that is over stays over. */
  lemma {:induction false} SoloLonger<T>(q: Queue<T>, t: nat, n: nat, k: nat)
    requires n <= k && Done(Solo(q, t, n), t)
    ensures Done(Solo(q, t, k), t)
    decreases n
  {
    if n > 0 && Enabled(q, Advance(t)) {
      SoloLonger(Apply(q, Advance(t)), t, n - 1, k - 1);
    }
  }

  /** With the tail lagging at the head, an attempt that is not committed goes round without changing anything. */
  lemma SpinStep<T>(m: Memory<T>, pc: Pc<T>)
    requires MemOk(m) && ThreadOk(m, pc) && LagsAtHead(m) && InDequeue(pc) && !Committed(m, pc)
    ensures MemoryAfter(m, pc) == m && InDequeue(PcAfter(m, pc)) && !Committed(m, PcAfter(m, pc))
  {
    if pc.DeqReadValue? {
      LinkedIsAllocated(m, pc.next.value);
    }
  }

  lemma {:induction false} Spins<T>(q: Queue<T>, t: nat, n: nat)
    requires Inv(q) && t < |q.threads| && InDequeue(q.threads[t])
    requires LagsAtHead(q.mem) && !Committed(q.mem, q.threads[t])
    ensures !Done(Solo(q, t, n), t) && Solo(q, t, n).mem == q.mem
    decreases n
  {
    if n > 0 {
      assert q.threads[t] in q.threads;
      SpinStep(q.mem, q.threads[t]);
      Dequeues(q, t);
      Spins(Apply(q, Advance(t)), t, n - 1);
    }
  }

  /**
   A dequeuer that runs alone finishes if and only if the tail does not lag at the head, or its attempt is committed.
   If it finishes, it does so within ten steps.
   */
  lemma DequeueAloneFinishesIff<T>(q: Queue<T>, t: nat)
    requires Inv(q) && t < |q.threads| && InDequeue(q.threads[t])
    ensures FinishesAlone(q, t) <==> !LagsAtHead(q.mem) || Committed(q.mem, q.threads[t])
    ensures FinishesAlone(q, t) ==> Done(Solo(q, t, 10), t)
  {
    var pc := q.threads[t];
    if Committed(q.mem, pc) {
      CommittedFinishes(q, t);
      SoloLonger(q, t, 1, 10);
    } else if !LagsAtHead(q.mem) {
      UnlaggedFinishes(q, t);
      SoloLonger(q, t, Rank(q.mem, pc), 10);
    } else {
      forall n: nat
        ensures !Done(Solo(q, t, n), t)
      {
        Spins(q, t, n);
      }
    }
  }

  // ---- enqueuers ----

  predicate TailBehind<T>(m: Memory<T>)
  {
    m.NextOf(m.tail).Some?
  }

  /** From the top of the loop: six steps, and four more to help a lagging tail first. */
  function FromTop<T>(m: Memory<T>): nat
  {
    if TailBehind(m) then 10 else 6
  }

  /** How many steps an enqueuer needs at most, if nobody else interferes. */
  function EnqRank<T>(m: Memory<T>, pc: Pc<T>): nat
  {
    match pc
    case EnqReadTail(_) => FromTop(m)
    case EnqReadNext(_, last) => if last == m.tail then FromTop(m) - 1 else FromTop(m) + 2
    case EnqRecheck(_, last, next) =>
      if last != m.tail then FromTop(m) + 1
      else if next.Some? then 8
      else if TailBehind(m) then 12
      else 4
    case EnqLink(_, last) => if m.NextOf(last).None? then 3 else FromTop(m) + 1
    case EnqHelp(_, last, _) => if last == m.tail then 7 else FromTop(m) + 1
    case EnqSwing(_, _) => 2
    case EnqCount => 1
    case _ => 0
  }

  /** The tail moves at the step of this enqueuer. */
  predicate MovesTail<T>(m: Memory<T>, pc: Pc<T>)
  {
    (pc.EnqHelp? || pc.EnqSwing?) && m.tail == pc.last
  }

  predicate Links<T>(m: Memory<T>, pc: Pc<T>)
  {
    pc.EnqLink? && CanLink(m, pc.node, pc.last)
  }

  lemma TailMoves<T>(m: Memory<T>, pc: Pc<T>)
    requires MemOk(m) && ThreadOk(m, pc) && MovesTail(m, pc)
    ensures TailBehind(m) && !TailBehind(MemoryAfter(m, pc))
  {
    var w := MemoryAfter(m, pc);
    TailMemory(m, pc);
    TailLast(m);
    TailLast(w);
  }

  lemma LinkLags<T>(m: Memory<T>, pc: Pc<T>)
    requires MemOk(m) && ThreadOk(m, pc) && Links(m, pc)
    ensures !TailBehind(m) && TailBehind(MemoryAfter(m, pc))
  {
    LinkOnlyAtEnd(m, pc.last);
  }

  /** A step of an enqueuer that leaves memory alone brings it closer to the end of its call. */
  lemma EnqRankDrops<T>(m: Memory<T>, pc: Pc<T>)
    requires MemOk(m) && ThreadOk(m, pc) && InEnqueue(pc) && !Links(m, pc) && !MovesTail(m, pc)
    ensures MemoryAfter(m, pc) == m && EnqRank(m, PcAfter(m, pc)) < EnqRank(m, pc)
  {
    if pc.EnqLink? {
      LinkedIsAllocated(m, pc.last);
    } else if pc.EnqRecheck? && pc.next.Some? {
      ReadNext(m, pc.last);
    }
  }

  lemma EnqStep<T>(m: Memory<T>, pc: Pc<T>)
    requires MemOk(m) && ThreadOk(m, pc) && InEnqueue(pc)
    ensures EnqRank(MemoryAfter(m, pc), PcAfter(m, pc)) < EnqRank(m, pc) <= 12
    ensures InEnqueue(PcAfter(m, pc)) || PcAfter(m, pc).Idle?
  {
    if MovesTail(m, pc) {
      TailMoves(m, pc);
    } else if !Links(m, pc) {
      EnqRankDrops(m, pc);
    }
  }

  /** An enqueuer that runs alone always finishes, within twelve steps. */
  lemma {:induction false} EnqueueAloneFinishes<T>(q: Queue<T>, t: nat, n: nat)
    requires Inv(q) && t < |q.threads| && InEnqueue(q.threads[t]) && n >= EnqRank(q.mem, q.threads[t])
    ensures Done(Solo(q, t, n), t) && EnqRank(q.mem, q.threads[t]) <= 12
    decreases n
  {
    var r := Apply(q, Advance(t));
    assert q.threads[t] in q.threads && ThreadOk(q.mem, q.threads[t]);
    EnqStep(q.mem, q.threads[t]);
    StepKeepsInv(q, Advance(t));
    if r.threads[t].Idle? {
      SoloLonger(r, t, 0, n - 1);
    } else {
      EnqueueAloneFinishes(r, t, n - 1);
    }
  }

  // ---- all enqueuers together, whatever the dequeuers do ----

  function Unlinked<T>(pc: Pc<T>): nat { if Preparing(pc) then 1 else 0 }

  function EnqRankIn<T>(m: Memory<T>): Pc<T> -> nat
  {
    (pc: Pc<T>) => EnqRank(m, pc)
  }

  /** With at most `n` threads, enqueuers take fewer steps than this altogether. */
  ghost function EnqWork<T>(q: Queue<T>, n: nat): nat
  {
    Repeated(Sum(q.threads, Unlinked), 24 * n + 4) + (if TailBehind(q.mem) then 12 * n + 2 else 0)
    + Sum(q.threads, EnqRankIn(q.mem))
  }

  lemma EnqRankBound<T>(m: Memory<T>, pc: Pc<T>)
    ensures EnqRank(m, pc) <= 12
  {
  }

  /** When memory changes, all ranks together rise by at most 12 per thread. */
  lemma RanksRise<T>(q: Queue<T>, n: nat, t: nat, w: Memory<T>, pc: Pc<T>)
    requires t < |q.threads| <= n
    ensures Sum(q.threads[t := pc], EnqRankIn(w)) <= Sum(q.threads, EnqRankIn(q.mem)) + 12 * n
  {
    var s := q.threads[t := pc];
    forall x | x in s
      ensures EnqRankIn(w)(x) <= Zero(x) + 12
    {
      EnqRankBound(w, x);
    }
    SumCompare(s, Zero, EnqRankIn(w), 12);
    SumZero(s, Zero);
  }

  lemma LinkWorks<T>(q: Queue<T>, n: nat, t: nat)
    requires Inv(q) && t < |q.threads| <= n && Links(q.mem, q.threads[t])
    ensures EnqWork(Apply(q, Advance(t)), n) < EnqWork(q, n)
  {
    var m, pc := q.mem, q.threads[t];
    var w, pc' := MemoryAfter(m, pc), PcAfter(m, pc);
    assert pc in q.threads && ThreadOk(m, pc);
    LinkLags(m, pc);
    SumUpdate(q.threads, t, pc', Unlinked);
    SumAtLeast(q.threads, t, Unlinked);
    RanksRise(q, n, t, w, pc');
  }

  lemma TailWorks<T>(q: Queue<T>, n: nat, t: nat)
    requires Inv(q) && t < |q.threads| <= n && MovesTail(q.mem, q.threads[t])
    ensures EnqWork(Apply(q, Advance(t)), n) < EnqWork(q, n)
  {
    var m, pc := q.mem, q.threads[t];
    var w, pc' := MemoryAfter(m, pc), PcAfter(m, pc);
    assert pc in q.threads && ThreadOk(m, pc);
    TailMoves(m, pc);
    SumUpdate(q.threads, t, pc', Unlinked);
    RanksRise(q, n, t, w, pc');
    assert Apply(q, Advance(t)) == Queue(w, LengthAfter(q.length, pc), q.threads[t := pc']);
    assert Unlinked(pc') == Unlinked(pc);
  }

  lemma QuietWorks<T>(q: Queue<T>, n: nat, t: nat)
    requires Inv(q) && t < |q.threads| && InEnqueue(q.threads[t])
    requires !Links(q.mem, q.threads[t]) && !MovesTail(q.mem, q.threads[t])
    ensures EnqWork(Apply(q, Advance(t)), n) < EnqWork(q, n)
  {
    var m, pc := q.mem, q.threads[t];
    var pc' := PcAfter(m, pc);
    assert pc in q.threads && ThreadOk(m, pc);
    EnqRankDrops(m, pc);
    SumUpdate(q.threads, t, pc', Unlinked);
    SumUpdate(q.threads, t, pc', EnqRankIn(m));
  }

  lemma AsideStep<T>(m: Memory<T>, pc: Pc<T>)
    requires InDequeue(pc)
    ensures MemoryAfter(m, pc).tail == m.tail && MemoryAfter(m, pc).nodes == m.nodes
    ensures EnqRank(m, pc) == EnqRank(m, PcAfter(m, pc)) == 0 && Unlinked(pc) == Unlinked(PcAfter(m, pc)) == 0
  {
  }

  lemma SameRank<T>(m: Memory<T>, w: Memory<T>, pc: Pc<T>)
    requires w.tail == m.tail && w.nodes == m.nodes
    ensures EnqRank(w, pc) == EnqRank(m, pc)
  {
    assert forall p :: w.NextOf(p) == m.NextOf(p);
  }

  /** One step of an enqueuer uses up work. */
  lemma EnqueueWorks<T>(q: Queue<T>, n: nat, t: nat)
    requires Inv(q) && t < |q.threads| <= n && InEnqueue(q.threads[t])
    ensures EnqWork(Apply(q, Advance(t)), n) < EnqWork(q, n)
  {
    if Links(q.mem, q.threads[t]) {
      LinkWorks(q, n, t);
    } else if MovesTail(q.mem, q.threads[t]) {
      TailWorks(q, n, t);
    } else {
      QuietWorks(q, n, t);
    }
  }

  /** A dequeuer's step moves only the head, which no enqueuer looks at. */
  lemma DequeuerAside<T>(q: Queue<T>, n: nat, t: nat)
    requires t < |q.threads| && InDequeue(q.threads[t])
    ensures EnqWork(Apply(q, Advance(t)), n) == EnqWork(q, n)
  {
    var m, pc := q.mem, q.threads[t];
    var w, pc' := MemoryAfter(m, pc), PcAfter(m, pc);
    AsideStep(m, pc);
    SumUpdate(q.threads, t, pc', Unlinked);
    SumUpdate(q.threads, t, pc', EnqRankIn(m));
    var s := q.threads[t := pc'];
    forall x | x in s
      ensures EnqRankIn(w)(x) == EnqRankIn(m)(x)
    {
      SameRank(m, w, x);
    }
    SumEqual(s, EnqRankIn(m), EnqRankIn(w));
    assert TailBehind(w) == TailBehind(m);
  }

  /** How many steps of a run are taken inside `Enqueue`. */
  ghost function EnqSteps<T>(q: Queue<T>, run: seq<Action<T>>): nat
    requires Legal(q, run)
    decreases |run|
  {
    if run == [] then 0
    else (if run[0].Advance? && InEnqueue(q.threads[run[0].t]) then 1 else 0) + EnqSteps(Apply(q, run[0]), run[1..])
  }

  /** Calls under way, in any interleaving: the enqueuers finish after boundedly many steps, even if dequeuers spin. */
  lemma {:induction false} EnqueuersFinish<T>(q: Queue<T>, run: seq<Action<T>>)
    requires Inv(q) && Legal(q, run) && OnlyAdvances(run)
    ensures EnqSteps(q, run) <= EnqWork(q, |q.threads|)
    decreases |run|
  {
    if run != [] {
      var t, n := run[0].t, |q.threads|;
      assert run[0] in run;
      StepKeepsInv(q, run[0]);
      EnqueuersFinish(Apply(q, run[0]), run[1..]);
      if InDequeue(q.threads[t]) {
        DequeuerAside(q, n, t);
      } else {
        EnqueueWorks(q, n, t);
      }
    }
  }

  // ---- a run after which a dequeuer spins ----

  lemma RunCons<T>(q: Queue<T>, a: Action<T>, r: Queue<T>, rest: seq<Action<T>>)
    requires Enabled(q, a) && Apply(q, a) == r && Legal(r, rest)
    ensures Legal(q, [a] + rest) && Exec(q, [a] + rest) == Exec(r, rest)
  {
    assert ([a] + rest)[1..] == rest;
  }

  /** The rest of a run in which thread 0 links its node, but does not move the tail, and thread 1 starts to dequeue. */
  function LinkAndStop<T>(): seq<Action<T>>
  {
    [Advance(0)] + ([Advance(0)] + ([Advance(0)] + ([Advance(0)] + ([StartDequeue(1)] + []))))
  }

  function SpinRun<T>(item: T): seq<Action<T>>
  {
    [Spawn] + ([Spawn] + ([StartEnqueue(0, item)] + LinkAndStop()))
  }

  /** An enqueuer stopped between its two compare-and-swaps on an empty queue, and a dequeuer that has just started. */
  function SpinState<T>(zero: T, item: T): Queue<T>
  {
    Queue(Memory([Node(zero, Some(1)), Node(item, None)], 0, 0, [0, 1], [item], []), 0, [EnqSwing(1, 0), DeqReadHead])
  }

  lemma LinkAndStopRun<T>(zero: T, item: T, m: Memory<T>)
    requires m == Memory([Node(zero, None), Node(item, None)], 0, 0, [0], [], [])
    ensures var q := Queue(m, 0, [EnqReadTail(1), Idle]);
      Legal(q, LinkAndStop()) && Exec(q, LinkAndStop()) == SpinState(zero, item)
  {
    var q0 := Queue(m, 0, [EnqReadTail(1), Idle]);
    var q1 := Queue(m, 0, [EnqReadNext(1, 0), Idle]);
    var q2 := Queue(m, 0, [EnqRecheck(1, 0, None), Idle]);
    var q3 := Queue(m, 0, [EnqLink(1, 0), Idle]);
    var q5 := SpinState(zero, item);
    var q4 := q5.(threads := [EnqSwing(1, 0), Idle]);
    RunCons(q4, StartDequeue(1), q5, []);
    RunCons(q3, Advance(0), q4, [StartDequeue(1)] + []);
    RunCons(q2, Advance(0), q3, [Advance(0)] + ([StartDequeue(1)] + []));
    RunCons(q1, Advance(0), q2, [Advance(0)] + ([Advance(0)] + ([StartDequeue(1)] + [])));
    RunCons(q0, Advance(0), q1, [Advance(0)] + ([Advance(0)] + ([Advance(0)] + ([StartDequeue(1)] + []))));
  }

  lemma SpinRunLegal<T>(zero: T, item: T)
    ensures Legal(Init(zero), SpinRun(item)) && Exec(Init(zero), SpinRun(item)) == SpinState(zero, item)
  {
    var q0 := Init(zero);
    var m := Memory([Node(zero, None), Node(item, None)], 0, 0, [0], [], []);
    LinkAndStopRun(zero, item, m);
    var q1, q2 := q0.(threads := [Idle]), q0.(threads := [Idle, Idle]);
    RunCons(q2, StartEnqueue(0, item), Queue(m, 0, [EnqReadTail(1), Idle]), LinkAndStop());
    RunCons(q1, Spawn, q2, [StartEnqueue(0, item)] + LinkAndStop());
    RunCons(q0, Spawn, q1, [Spawn] + ([StartEnqueue(0, item)] + LinkAndStop()));
  }

  /**
   After this run the dequeuer never finishes alone, although the queue holds an element: `Dequeue` is not lock-free.
   */
  lemma DequeueCanSpin<T>(zero: T, item: T, n: nat)
    ensures Legal(Init(zero), SpinRun(item))
    ensures var q := Exec(Init(zero), SpinRun(item));
      |q.threads| == 2 && q.mem.Contents() == [item] && !Done(Solo(q, 1, n), 1)
  {
    SpinRunLegal(zero, item);
    InitInv(zero);
    RunKeepsInv(Init(zero), SpinRun(item));
    Spins(SpinState(zero, item), 1, n);
  }
}
