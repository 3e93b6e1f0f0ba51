/**
 What holds of every run of the lock-free queue: first in, first out; nothing lost, doubled or made
 up; an exact length; no report of emptiness without reason; and dequeuers that come to an end.
 */
module QueueResults {
  import opened SeqSums
  import opened LockFreeQueue

  /** Every step keeps the invariant and acts on the contents as a sequential FIFO queue would. */
  lemma StepRefinesFifo<T>(q: Queue<T>, a: Action<T>)
    requires Inv(q) && Enabled(q, a)
    ensures Inv(Apply(q, a))
    ensures q.mem.Contents() + EffectOf(q, a).In() == EffectOf(q, a).Out() + Apply(q, a).mem.Contents()
  {
    StepKeepsInv(q, a);
    if a.Advance? {
      assert ThreadOk(q.mem, q.threads[a.t]);
      ContentsAfter(q.mem, q.threads[a.t]);
    }
  }

  lemma InitInv<T>(zero: T)
    ensures Inv(Init(zero))
  {
    var m := Init(zero).mem;
    assert LinkOk(m.nodes, m.chain, m.linked, 0);
  }

  lemma {:induction false} RunKeepsInv<T>(q: Queue<T>, run: seq<Action<T>>)
    requires Inv(q) && Legal(q, run)
    ensures Inv(Exec(q, run))
    decreases |run|
  {
    if run != [] {
      StepKeepsInv(q, run[0]);
      RunKeepsInv(Apply(q, run[0]), run[1..]);
    }
  }

  lemma {:induction false} RunSnoc<T>(q: Queue<T>, run: seq<Action<T>>, n: nat)
    requires Legal(q, run) && n < |run|
    ensures Legal(q, run[..n]) && Enabled(Exec(q, run[..n]), run[n])
    ensures Legal(q, run[..n + 1]) && Exec(q, run[..n + 1]) == Apply(Exec(q, run[..n]), run[n])
    decreases n
  {
    if n > 0 {
      RunSnoc(Apply(q, run[0]), run[1..], n - 1);
      assert run[..n][1..] == run[1..][..n - 1];
      assert run[..n + 1][1..] == run[1..][..n];
    } else {
      assert run[..1][1..] == [];
    }
  }

  // ---- main results ----

  /** The items put and taken along a run, in the order of their linearization points. */
  ghost function Puts<T>(q: Queue<T>, run: seq<Action<T>>): seq<T>
    requires Legal(q, run)
    decreases |run|
  {
    if run == [] then [] else EffectOf(q, run[0]).In() + Puts(Apply(q, run[0]), run[1..])
  }

  ghost function Takes<T>(q: Queue<T>, run: seq<Action<T>>): seq<T>
    requires Legal(q, run)
    decreases |run|
  {
    if run == [] then [] else EffectOf(q, run[0]).Out() + Takes(Apply(q, run[0]), run[1..])
  }

  lemma Chained<A>(c: seq<A>, put: seq<A>, take: seq<A>, c': seq<A>, puts: seq<A>, takes: seq<A>, end: seq<A>)
    requires c + put == take + c' && c' + puts == takes + end
    ensures c + (put + puts) == (take + takes) + end
  {
    assert c + (put + puts) == (c + put) + puts;
    assert (take + c') + puts == take + (c' + puts);
    assert take + (takes + end) == (take + takes) + end;
  }

  lemma {:induction false} FifoFrom<T>(q: Queue<T>, run: seq<Action<T>>)
    requires Inv(q) && Legal(q, run)
    ensures q.mem.Contents() + Puts(q, run) == Takes(q, run) + Exec(q, run).mem.Contents()
    decreases |run|
  {
    if run == [] {
      assert q.mem.Contents() + [] == [] + q.mem.Contents();
    } else {
      var r, e := Apply(q, run[0]), EffectOf(q, run[0]);
      StepRefinesFifo(q, run[0]);
      FifoFrom(r, run[1..]);
      Chained(q.mem.Contents(), e.In(), e.Out(), r.mem.Contents(),
              Puts(r, run[1..]), Takes(r, run[1..]), Exec(q, run).mem.Contents());
    }
  }

  /** In every interleaving, what is taken is a prefix of what was put, in the same order. */
  lemma FifoOrder<T>(zero: T, run: seq<Action<T>>)
    requires Legal(Init(zero), run)
    ensures var q := Init(zero);
      && Takes(q, run) <= Puts(q, run)
      && Exec(q, run).mem.Contents() == Puts(q, run)[|Takes(q, run)|..]
  {
    InitInv(zero);
    FifoFrom(Init(zero), run);
    var q := Init(zero);
    assert Puts(q, run) == Takes(q, run) + Exec(q, run).mem.Contents();
  }

  // Occurrences of a value `v` on its way in and on its way out.
  ghost function Incoming<T>(m: Memory<T>, v: T): Pc<T> -> nat
  {
    (pc: Pc<T>) => if Preparing(pc) && pc.node < |m.nodes| && m.nodes[pc.node].value == v then 1 else 0
  }

  ghost function Outgoing<T>(v: T): Pc<T> -> nat
  {
    (pc: Pc<T>) => if (pc.DeqCount? || pc.DeqReturned?) && pc.value == v then 1 else 0
  }

  /** How often `v` was passed to an `Enqueue` call, and how often a `Dequeue` call handed it back. */
  ghost function Given<T>(run: seq<Action<T>>, v: T): nat
  {
    if run == [] then 0 else (if run[0].StartEnqueue? && run[0].item == v then 1 else 0) + Given(run[1..], v)
  }

  ghost function Returned<T>(q: Queue<T>, run: seq<Action<T>>, v: T): nat
    requires Legal(q, run)
    decreases |run|
  {
    if run == [] then 0 else
      (if run[0].Collect? && q.threads[run[0].t].value == v then 1 else 0) + Returned(Apply(q, run[0]), run[1..], v)
  }

  /** How often `v` is in the queue or held by a call. */
  ghost function Held<T>(q: Queue<T>, v: T): nat
  {
    Sum(q.threads, Incoming(q.mem, v)) + multiset(q.mem.Contents())[v] + Sum(q.threads, Outgoing(v))
  }

  ghost predicate HeldSame<T>(m: Memory<T>, w: Memory<T>, pc: Pc<T>, pc': Pc<T>, v: T)
  {
    Incoming(m, v)(pc') + multiset(w.Contents())[v] + Outgoing(v)(pc')
    == Incoming(m, v)(pc) + multiset(m.Contents())[v] + Outgoing(v)(pc)
  }

  /** A step without an effect on the queue hands no item over. */
  lemma QuietHolds<T>(m: Memory<T>, pc: Pc<T>, v: T)
    requires ThreadOk(m, pc) && StepEffect(m, pc).Nothing?
    ensures Incoming(m, v)(PcAfter(m, pc)) == Incoming(m, v)(pc) && Outgoing(v)(PcAfter(m, pc)) == Outgoing(v)(pc)
  {
    var pc' := PcAfter(m, pc);
    assert Preparing(pc') == Preparing(pc) && (Preparing(pc) ==> pc'.node == pc.node);
  }

  lemma PutHolds<T>(m: Memory<T>, pc: Pc<T>, v: T)
    requires StepEffect(m, pc).Put?
    ensures Incoming(m, v)(PcAfter(m, pc)) == Outgoing(v)(PcAfter(m, pc)) == Outgoing(v)(pc) == 0
    ensures Incoming(m, v)(pc) == multiset([StepEffect(m, pc).item])[v]
  {
    assert pc.EnqLink? && PcAfter(m, pc).EnqSwing?;
  }

  lemma TakeHolds<T>(m: Memory<T>, pc: Pc<T>, v: T)
    requires StepEffect(m, pc).Take?
    ensures Incoming(m, v)(PcAfter(m, pc)) == Incoming(m, v)(pc) == Outgoing(v)(pc) == 0
    ensures Outgoing(v)(PcAfter(m, pc)) == multiset([StepEffect(m, pc).item])[v]
  {
    assert pc.DeqSwing? && PcAfter(m, pc).DeqCount?;
  }

  lemma PcHolds<T>(m: Memory<T>, pc: Pc<T>, v: T)
    requires ThreadOk(m, pc)
    ensures var pc', e := PcAfter(m, pc), StepEffect(m, pc);
      Incoming(m, v)(pc') + Outgoing(v)(pc') + multiset(e.In())[v]
      == Incoming(m, v)(pc) + Outgoing(v)(pc) + multiset(e.Out())[v]
  {
    match StepEffect(m, pc)
    case Put(_) => PutHolds(m, pc, v);
    case Take(_) => TakeHolds(m, pc, v);
    case Nothing => QuietHolds(m, pc, v);
  }

  lemma HeldByStep<T>(m: Memory<T>, pc: Pc<T>, v: T)
    requires MemOk(m) && ThreadOk(m, pc)
    ensures HeldSame(m, MemoryAfter(m, pc), pc, PcAfter(m, pc), v)
  {
    var w, e := MemoryAfter(m, pc), StepEffect(m, pc);
    assert multiset(m.Contents())[v] + multiset(e.In())[v] == multiset(e.Out())[v] + multiset(w.Contents())[v] by {
      ContentsAfter(m, pc);
      assert multiset(m.Contents() + e.In())[v] == multiset(e.Out() + w.Contents())[v];
    }
    PcHolds(m, pc, v);
  }

  lemma HeldMoves<T>(q: Queue<T>, t: nat, w: Memory<T>, pc': Pc<T>, v: T)
    requires t < |q.threads| && HeldSame(q.mem, w, q.threads[t], pc', v)
    requires |w.nodes| == |q.mem.nodes| && forall i :: 0 <= i < |w.nodes| ==> w.nodes[i].value == q.mem.nodes[i].value
    ensures Held(Queue(w, q.length, q.threads[t := pc']), v) == Held(q, v)
  {
    SumEqual(q.threads[t := pc'], Incoming(q.mem, v), Incoming(w, v));
    SumUpdate(q.threads, t, pc', Incoming(q.mem, v));
    SumUpdate(q.threads, t, pc', Outgoing(v));
  }

  lemma HeldAfterAdvance<T>(q: Queue<T>, t: nat, v: T)
    requires Inv(q) && Enabled(q, Advance(t))
    ensures Held(Apply(q, Advance(t)), v) == Held(q, v)
  {
    var m, pc := q.mem, q.threads[t];
    assert ThreadOk(m, pc);
    HeldByStep(m, pc, v);
    HeldMoves(q, t, MemoryAfter(m, pc), PcAfter(m, pc), v);
  }

  lemma HeldAfterStart<T>(q: Queue<T>, t: nat, item: T, v: T)
    requires Inv(q) && Enabled(q, StartEnqueue(t, item))
    ensures Held(Apply(q, StartEnqueue(t, item)), v) == Held(q, v) + if item == v then 1 else 0
  {
    var m := q.mem;
    var w := m.(nodes := m.nodes + [Node(item, None)]);
    var pc': Pc<T> := EnqReadTail(|m.nodes|);
    forall pc | pc in q.threads
      ensures Incoming(w, v)(pc) == Incoming(m, v)(pc)
    {
      assert ThreadOk(m, pc);
    }
    SumEqual(q.threads, Incoming(m, v), Incoming(w, v));
    SumUpdate(q.threads, t, pc', Incoming(w, v));
    SumUpdate(q.threads, t, pc', Outgoing(v));
  }

  /** Only the program counter of an idle or returned thread changes. */
  lemma HeldAfterSwap<T>(q: Queue<T>, t: nat, pc: Pc<T>, v: T)
    requires t < |q.threads| && (q.threads[t].Idle? || q.threads[t].DeqReturned?) && (pc.Idle? || pc.DeqReadHead?)
    ensures Held(q, v) == Held(q.(threads := q.threads[t := pc]), v)
                          + if q.threads[t].DeqReturned? && q.threads[t].value == v then 1 else 0
  {
    SumUpdate(q.threads, t, pc, Incoming(q.mem, v));
    SumUpdate(q.threads, t, pc, Outgoing(v));
  }

  lemma HeldAfterOther<T>(q: Queue<T>, a: Action<T>, v: T)
    requires Enabled(q, a) && !a.Advance? && !a.StartEnqueue?
    ensures Held(q, v) == Held(Apply(q, a), v) + if a.Collect? && q.threads[a.t].value == v then 1 else 0
  {
    if a.Spawn? {
      SumAppend(q.threads, Idle, Incoming(q.mem, v));
      SumAppend(q.threads, Idle, Outgoing(v));
    } else {
      HeldAfterSwap(q, a.t, if a.Collect? then Idle else DeqReadHead, v);
    }
  }

  lemma {:induction false} ConservedFrom<T>(q: Queue<T>, run: seq<Action<T>>, v: T)
    requires Inv(q) && Legal(q, run)
    ensures Held(q, v) + Given(run, v) == Returned(q, run, v) + Held(Exec(q, run), v)
    decreases |run|
  {
    if run != [] {
      var a := run[0];
      StepKeepsInv(q, a);
      ConservedFrom(Apply(q, a), run[1..], v);
      match a
      case Advance(t) => HeldAfterAdvance(q, t, v);
      case StartEnqueue(t, item) => HeldAfterStart(q, t, item, v);
      case _ => HeldAfterOther(q, a, v);
    }
  }

  /**
   Every item given to `Enqueue` has been returned, is queued, or is held by a call: none lost, doubled or made up.
   */
  lemma Conserved<T>(zero: T, run: seq<Action<T>>, v: T)
    requires Legal(Init(zero), run)
    ensures Given(run, v) == Returned(Init(zero), run, v) + Held(Exec(Init(zero), run), v)
  {
    InitInv(zero);
    ConservedFrom(Init(zero), run, v);
  }

  /**
   Following the `next` fields gives the chain, which leads from head to tail; the tail is last or last but one, and if
   it is not last, the enqueuer that linked the last node is at its tail-swing step.
   */
  lemma TailLag<T>(zero: T, run: seq<Action<T>>)
    requires Legal(Init(zero), run)
    ensures var q := Exec(Init(zero), run);
      && ChainOk(q.mem.nodes, q.mem.chain, q.mem.linked)
      && q.mem.head in q.mem.chain && q.mem.tail in q.mem.chain
      && Pos(q.mem.chain, q.mem.head) <= Pos(q.mem.chain, q.mem.tail)
      && |q.mem.chain| - 2 <= Pos(q.mem.chain, q.mem.tail)
      && (q.mem.NextOf(q.mem.tail).Some? ==> EnqSwing(q.mem.NextOf(q.mem.tail).value, q.mem.tail) in q.threads)
  {
    InitInv(zero);
    RunKeepsInv(Init(zero), run);
    var m := Exec(Init(zero), run).mem;
    var i := Pos(m.chain, m.tail);
    assert LinkOk(m.nodes, m.chain, m.linked, i);
  }

  /** `Length()`, corrected by the calls past their effect and before their counter update, is the size. */
  lemma LengthIsExact<T>(zero: T, run: seq<Action<T>>)
    requires Legal(Init(zero), run)
    ensures var q := Exec(Init(zero), run);
      && q.length + Sum(q.threads, Linked) == |q.mem.Contents()| + Sum(q.threads, Taken)
      && ((forall pc :: pc in q.threads ==> !InCall(pc)) ==> q.length == |q.mem.Contents()|)
  {
    InitInv(zero);
    RunKeepsInv(Init(zero), run);
    var q := Exec(Init(zero), run);
    if forall pc :: pc in q.threads ==> !InCall(pc) {
      SumZero(q.threads, Linked);
      SumZero(q.threads, Taken);
    }
  }

  /** Thread `t` read `next` at step `k` of the run, and the queue was empty then. */
  ghost predicate ReadEmptyAt<T>(q: Queue<T>, run: seq<Action<T>>, t: nat, k: nat)
    requires Legal(q, run)
  {
    && k < |run| && run[k] == Advance(t) && Legal(q, run[..k])
    && var p := Exec(q, run[..k]);
    t < |p.threads| && p.threads[t].DeqReadNext? && p.mem.Contents() == []
  }

  /** The thread has read nil and is about to test it, or has reported it. */
  ghost predicate SawNil<T>(pc: Pc<T>)
  {
    pc.DeqFatal? || (pc.DeqRecheck? && pc.next.None?)
  }

  ghost predicate SawNilAt<T>(q: Queue<T>, run: seq<Action<T>>, t: nat, j: nat)
    requires Legal(q, run)
  {
    && j <= |run| && Legal(q, run[..j])
    && var p := Exec(q, run[..j]);
    t < |p.threads| && SawNil(p.threads[t])
  }

  /**
   Thread `t` read `next` at step `k`, on an empty queue, and from then on until step `n` has been at the test of that
   very value or past it: step `k` belongs to the attempt the thread is in after `n` steps.
   */
  ghost predicate LastReadEmptyAt<T>(q: Queue<T>, run: seq<Action<T>>, t: nat, k: nat, n: nat)
    requires Legal(q, run)
  {
    ReadEmptyAt(q, run, t, k) && k < n && forall j {:trigger SawNilAt(q, run, t, j)} :: k < j <= n ==>
      SawNilAt(q, run, t, j)
  }

  lemma NilRead<T>(m: Memory<T>, pc: Pc<T>)
    requires MemOk(m) && ThreadOk(m, pc) && !SawNil(pc) && SawNil(PcAfter(m, pc))
    ensures pc.DeqReadNext? && m.Contents() == []
  {
    assert pc.DeqReadNext?;
    ReadNext(m, pc.first);
  }

  /** The only step that can make a thread see nil is its own read of `next`, on an empty queue. */
  lemma NewNil<T>(q: Queue<T>, a: Action<T>, t: nat)
    requires Inv(q) && Enabled(q, a)
    requires t < |Apply(q, a).threads| && SawNil(Apply(q, a).threads[t])
    requires t < |q.threads| ==> !SawNil(q.threads[t])
    ensures a == Advance(t) && q.threads[t].DeqReadNext? && q.mem.Contents() == []
  {
    assert a == Advance(t);
    assert ThreadOk(q.mem, q.threads[t]);
    NilRead(q.mem, q.threads[t]);
  }

  lemma {:induction false} SawNilFrom<T>(q: Queue<T>, run: seq<Action<T>>, t: nat, n: nat) returns (k: nat)
    requires Inv(q) && Legal(q, run) && SawNilAt(q, run, t, n)
    requires forall pc :: pc in q.threads ==> !SawNil(pc)
    ensures LastReadEmptyAt(q, run, t, k, n)
    decreases n
  {
    if n == 0 {
      assert false;
    } else {
      RunSnoc(q, run, n - 1);
      var p := Exec(q, run[..n - 1]);
      RunKeepsInv(q, run[..n - 1]);
      if t < |p.threads| && SawNil(p.threads[t]) {
        k := SawNilFrom(q, run, t, n - 1);
      } else {
        k := n - 1;
        NewNil(p, run[n - 1], t);
      }
    }
  }

  /** "No element to dequeue" is reported only if the queue was empty when the reporting attempt read `next`. */
  lemma FatalOnlyIfEmpty<T>(zero: T, run: seq<Action<T>>, t: nat)
    requires Legal(Init(zero), run)
    requires t < |Exec(Init(zero), run).threads|
    ensures !Exec(Init(zero), run).threads[t].NilDereference?
    ensures Exec(Init(zero), run).threads[t].DeqFatal? ==>
      exists k: nat :: LastReadEmptyAt(Init(zero), run, t, k, |run|)
  {
    InitInv(zero);
    var q := Init(zero);
    RunKeepsInv(q, run);
    assert ThreadOk(Exec(q, run).mem, Exec(q, run).threads[t]);
    if Exec(q, run).threads[t].DeqFatal? {
      assert run[..|run|] == run;
      var k := SawNilFrom(q, run, t, |run|);
    }
  }

  // ---- no spinning: without enqueuers every dequeuer's loop ends ----

  ghost predicate NoEnqueue<T>(q: Queue<T>)
  {
    forall pc :: pc in q.threads ==> !InEnqueue(pc)
  }

  /** The attempt a thread is in will go back to the top of the loop. */
  predicate Doomed<T>(m: Memory<T>, pc: Pc<T>)
  {
    match pc
    case DeqReadTail(first) => first != m.head
    case DeqReadNext(first, last) => first != m.head || (first == last && first != m.tail)
    case DeqRecheck(first, last, next) => first != m.head || (first == last && next.Some?)
    case DeqReadValue(first, _) => first != m.head
    case DeqSwing(first, _, _) => first != m.head
    case _ => false
  }

  /** How many steps the thread needs at most, if nobody else interferes. */
  function Rank<T>(m: Memory<T>, pc: Pc<T>): nat
  {
    match pc
    case DeqReadHead => 7
    case DeqReadTail(_) => if Doomed(m, pc) then 10 else 6
    case DeqReadNext(_, _) => if Doomed(m, pc) then 9 else 5
    case DeqRecheck(_, _, _) => if Doomed(m, pc) then 8 else 4
    case DeqReadValue(_, _) => if Doomed(m, pc) then 9 else 3
    case DeqSwing(_, _, _) => if Doomed(m, pc) then 8 else 2
    case DeqCount(_) => 1
    case _ => 0
  }

  function RankIn<T>(m: Memory<T>): Pc<T> -> nat
  {
    (pc: Pc<T>) => Rank(m, pc)
  }

  /** With at most `n` threads, the number of steps left in any enqueue-free continuation is below this. */
  ghost function Work<T>(q: Queue<T>, n: nat): nat
  {
    Repeated(|q.mem.Contents()|, 6 * n + 1) + Sum(q.threads, RankIn(q.mem))
  }

  /** Head and tail are one node that has a successor: the case in which `Dequeue` neither helps nor takes. */
  predicate LagsAtHead<T>(m: Memory<T>)
  {
    m.head == m.tail && m.NextOf(m.tail).Some?
  }

  lemma RankDrops<T>(m: Memory<T>, pc: Pc<T>)
    requires !LagsAtHead(m)
    requires InCall(pc) && !InEnqueue(pc)
    requires pc.DeqSwing? ==> pc.first != m.head
    ensures MemoryAfter(m, pc) == m
    ensures Rank(m, PcAfter(m, pc)) < Rank(m, pc)
  {
  }

  lemma TailLast<T>(m: Memory<T>)
    requires MemOk(m)
    ensures m.NextOf(m.tail).None? <==> m.tail == m.chain[|m.chain| - 1]
  {
    assert LinkOk(m.nodes, m.chain, m.linked, Pos(m.chain, m.tail));
    assert Pos(m.chain, m.chain[|m.chain| - 1]) == |m.chain| - 1;
  }

  lemma RankRises<T>(m: Memory<T>, w: Memory<T>, pc: Pc<T>)
    ensures Rank(w, pc) <= Rank(m, pc) + 6
  {
  }

  lemma TakeWorks<T>(q: Queue<T>, n: nat, t: nat, w: Memory<T>, value: T)
    requires t < |q.threads| <= n && q.threads[t].DeqSwing?
    requires |w.Contents()| + 1 == |q.mem.Contents()|
    ensures Work(Queue(w, q.length, q.threads[t := DeqCount(value)]), n) < Work(q, n)
  {
    var m, pc' := q.mem, DeqCount(value);
    forall x | x in q.threads
      ensures RankIn(w)(x) <= RankIn(m)(x) + 6
    {
      RankRises(m, w, x);
    }
    SumCompare(q.threads, RankIn(m), RankIn(w), 6);
    SumUpdate(q.threads, t, pc', RankIn(w));
    assert RankIn(w)(pc') <= RankIn(w)(q.threads[t]);
  }

  /** One step of a dequeuer, with no enqueuer in flight, uses up work. */
  lemma DequeueWorks<T>(q: Queue<T>, n: nat, t: nat)
    requires Inv(q) && NoEnqueue(q) && Enabled(q, Advance(t)) && |q.threads| <= n
    ensures NoEnqueue(Apply(q, Advance(t))) && Work(Apply(q, Advance(t)), n) < Work(q, n)
  {
    var m, pc := q.mem, q.threads[t];
    assert pc in q.threads;
    assert !InEnqueue(PcAfter(m, pc));
    if pc.DeqSwing? && pc.first == m.head {
      assert ThreadOk(m, pc);
      ContentsAfter(m, pc);
      TakeWorks(q, n, t, MemoryAfter(m, pc), pc.value);
    } else {
      TailLast(m);
      RankDrops(m, pc);
      SumUpdate(q.threads, t, PcAfter(m, pc), RankIn(m));
    }
  }

  ghost predicate OnlyAdvances<T>(run: seq<Action<T>>)
  {
    forall a :: a in run ==> a.Advance?
  }

  /** With no `Enqueue` in flight the tail is last, and no schedule lets dequeuers spin forever. */
  lemma {:induction false} DequeuersFinish<T>(q: Queue<T>, run: seq<Action<T>>)
    requires Inv(q) && NoEnqueue(q) && Legal(q, run) && OnlyAdvances(run)
    ensures q.mem.tail == q.mem.chain[|q.mem.chain| - 1]
    ensures |run| <= Work(q, |q.threads|)
    decreases |run|
  {
    if run != [] {
      assert run[0] in run;
      StepKeepsInv(q, run[0]);
      DequeueWorks(q, |q.threads|, run[0].t);
      DequeuersFinish(Apply(q, run[0]), run[1..]);
    }
  }
}
