/**
 The Michael-Scott queue as a step machine.  Every read of a shared pointer and every
 compare-and-swap is one step of one thread; any number of threads may be inside
 `Enqueue` or `Dequeue`, and a run is an arbitrary sequence of actions.
 Nodes live in a heap that only grows (garbage collection never reuses a node that a
 thread still holds), and memory is sequentially consistent.
 */
module LockFreeQueue {
  import opened SeqSums

  type Ptr = nat

  datatype Node<T> = Node(value: T, next: Option<Ptr>)

  /**
   The heap and the two end pointers, with three history logs: the nodes linked so far
   (`chain`), the values linked by successful next-CASes (`linked`) and the values taken
   by successful head-CASes (`removed`).  No step reads a log.
   */
  datatype Memory<T> = Memory(
    nodes: seq<Node<T>>, head: Ptr, tail: Ptr, chain: seq<Ptr>, linked: seq<T>, removed: seq<T>)
  {
    function NextOf(p: Ptr): Option<Ptr>
    {
      if p < |nodes| then nodes[p].next else None
    }

    /** What is in the queue: everything linked and not yet removed, oldest first. */
    function Contents(): seq<T>
    {
      if |removed| <= |linked| then linked[|removed|..] else []
    }
  }

  /** Where a thread stands; each constructor carries the locals that are live there. */
  datatype Pc<T> =
    | Idle
    | EnqReadTail(node: Ptr)
    | EnqReadNext(node: Ptr, last: Ptr)
    | EnqRecheck(node: Ptr, last: Ptr, next: Option<Ptr>)
    | EnqLink(node: Ptr, last: Ptr)
    | EnqHelp(node: Ptr, last: Ptr, succ: Ptr)
    | EnqSwing(node: Ptr, last: Ptr)
    | EnqCount
    | DeqReadHead
    | DeqReadTail(first: Ptr)
    | DeqReadNext(first: Ptr, last: Ptr)
    | DeqRecheck(first: Ptr, last: Ptr, next: Option<Ptr>)
    | DeqReadValue(first: Ptr, next: Option<Ptr>)
    | DeqSwing(first: Ptr, succ: Ptr, value: T)
    | DeqCount(value: T)
    | DeqReturned(value: T)
    | DeqFatal          // log.Fatal("No element to dequeue.")
    | NilDereference    // the process has crashed

  datatype Queue<T> = Queue(mem: Memory<T>, length: int, threads: seq<Pc<T>>)

  datatype Action<T> =
    | Spawn
    | StartEnqueue(t: nat, item: T)
    | StartDequeue(t: nat)
    | Advance(t: nat)
    | Collect(t: nat)

  /** NewLockFreeQueue: one dummy node that is both head and tail. */
  function Init<T>(zero: T): Queue<T>
  {
    Queue(Memory([Node(zero, None)], 0, 0, [0], [], []), 0, [])
  }

  /** The thread is inside a call and can take a step of it. */
  predicate InCall<T>(pc: Pc<T>)
  {
    !pc.Idle? && !pc.DeqReturned? && !pc.DeqFatal? && !pc.NilDereference?
  }

  /** The thread is inside `Enqueue` and its node is not linked yet. */
  predicate Preparing<T>(pc: Pc<T>)
  {
    pc.EnqReadTail? || pc.EnqReadNext? || pc.EnqRecheck? || pc.EnqLink? || pc.EnqHelp?
  }

  predicate InEnqueue<T>(pc: Pc<T>)
  {
    Preparing(pc) || pc.EnqSwing? || pc.EnqCount?
  }

  predicate Enabled<T>(q: Queue<T>, a: Action<T>)
  {
    match a
    case Spawn => true
    case StartEnqueue(t, _) => t < |q.threads| && q.threads[t].Idle?
    case StartDequeue(t) => t < |q.threads| && q.threads[t].Idle?
    case Advance(t) => t < |q.threads| && InCall(q.threads[t])
    case Collect(t) => t < |q.threads| && q.threads[t].DeqReturned?
  }

  function Apply<T>(q: Queue<T>, a: Action<T>): Queue<T>
    requires Enabled(q, a)
  {
    match a
    case Spawn => q.(threads := q.threads + [Idle])
    case StartEnqueue(t, item) =>
      Queue(q.mem.(nodes := q.mem.nodes + [Node(item, None)]), q.length,
            q.threads[t := EnqReadTail(|q.mem.nodes|)])
    case StartDequeue(t) => q.(threads := q.threads[t := DeqReadHead])
    case Advance(t) =>
      var pc := q.threads[t];
      Queue(MemoryAfter(q.mem, pc), LengthAfter(q.length, pc), q.threads[t := PcAfter(q.mem, pc)])
    case Collect(t) => q.(threads := q.threads[t := Idle])
  }

  /** One step of the `Enqueue` or the `Dequeue` loop: where the thread goes next. */
  function PcAfter<T>(m: Memory<T>, pc: Pc<T>): Pc<T>
  {
    match pc
    case EnqReadTail(node) => EnqReadNext(node, m.tail)
    case EnqReadNext(node, last) => EnqRecheck(node, last, m.NextOf(last))
    case EnqRecheck(node, last, next) =>
      if last != m.tail then EnqReadTail(node)
      else if next.None? then EnqLink(node, last)
      else EnqHelp(node, last, next.value)
    case EnqLink(node, last) => if CanLink(m, node, last) then EnqSwing(node, last) else EnqReadTail(node)
    case EnqHelp(node, _, _) => EnqReadTail(node)
    case EnqSwing(_, _) => EnqCount
    case EnqCount => Idle
    case DeqReadHead => DeqReadTail(m.head)
    case DeqReadTail(first) => DeqReadNext(first, m.tail)
    case DeqReadNext(first, last) => DeqRecheck(first, last, m.NextOf(first))
    case DeqRecheck(first, last, next) =>
      if first != m.head then DeqReadHead
      else if first != last then DeqReadValue(first, next)
      else if next.None? then DeqFatal
      else DeqReadHead
    case DeqReadValue(first, next) =>
      if next.Some? && next.value < |m.nodes|
      then DeqSwing(first, next.value, m.nodes[next.value].value)
      else NilDereference
    case DeqSwing(first, _, value) => if first == m.head then DeqCount(value) else DeqReadHead
    case DeqCount(value) => DeqReturned(value)
    case _ => pc
  }

  /** The same step's effect on shared memory: the compare-and-swaps. */
  function MemoryAfter<T>(m: Memory<T>, pc: Pc<T>): Memory<T>
  {
    match pc
    case EnqLink(node, last) =>
      if CanLink(m, node, last) then
        m.(nodes := m.nodes[last := m.nodes[last].(next := Some(node))],
           chain := m.chain + [node],
           linked := m.linked + [m.nodes[node].value])
      else m
    case EnqHelp(_, last, succ) => if m.tail == last then m.(tail := succ) else m
    case EnqSwing(node, last) => if m.tail == last then m.(tail := node) else m
    case DeqSwing(first, succ, value) =>
      if first == m.head then m.(head := succ, removed := m.removed + [value]) else m
    case _ => m
  }

  predicate CanLink<T>(m: Memory<T>, node: Ptr, last: Ptr)
  {
    last < |m.nodes| && node < |m.nodes| && m.nodes[last].next.None?
  }

  function LengthAfter<T>(length: int, pc: Pc<T>): int
  {
    if pc.EnqCount? then length + 1 else if pc.DeqCount? then length - 1 else length
  }

  // ---- runs ----

  predicate Legal<T>(q: Queue<T>, run: seq<Action<T>>)
    decreases |run|
  {
    run == [] || (Enabled(q, run[0]) && Legal(Apply(q, run[0]), run[1..]))
  }

  function Exec<T>(q: Queue<T>, run: seq<Action<T>>): Queue<T>
    requires Legal(q, run)
    decreases |run|
  {
    if run == [] then q else Exec(Apply(q, run[0]), run[1..])
  }

  // ---- the invariant ----

  /** A position of `p` in the chain, the only one if the chain has no repetitions. */
  ghost function Pos(chain: seq<Ptr>, p: Ptr): (i: nat)
    requires p in chain
    ensures i < |chain| && chain[i] == p
  {
    var i: nat :| i < |chain| && chain[i] == p;
    i
  }

  ghost predicate Distinct(chain: seq<Ptr>)
  {
    forall i {:trigger chain[i]} :: 0 <= i < |chain| ==> Pos(chain, chain[i]) == i
  }

  lemma AppendDistinct(chain: seq<Ptr>, x: Ptr)
    requires Distinct(chain) && x !in chain
    ensures Distinct(chain + [x])
    ensures forall p :: p in chain ==> p in chain + [x] && Pos(chain + [x], p) == Pos(chain, p)
    ensures Pos(chain + [x], x) == |chain|
  {
    var c := chain + [x];
    forall i | 0 <= i < |c|
      ensures Pos(c, c[i]) == i
    {
      var j := Pos(c, c[i]);
      if i < |chain| && j < |chain| {
        assert chain[i] == chain[j];
      }
    }
    forall p | p in chain
      ensures p in c && Pos(c, p) == Pos(chain, p)
    {
      assert c[Pos(chain, p)] == p;
    }
    assert c[|chain|] == x;
  }

  /** The i-th linked node points to the next one, and holds the i-th linked value. */
  ghost predicate LinkOk<T>(nodes: seq<Node<T>>, chain: seq<Ptr>, linked: seq<T>, i: nat)
    requires i < |chain| == |linked| + 1
  {
    && chain[i] < |nodes|
    && nodes[chain[i]].next == (if i + 1 < |chain| then Some(chain[i + 1]) else None)
    && (i > 0 ==> nodes[chain[i]].value == linked[i - 1])
  }

  /** The heap from the dummy node on is exactly the chain. */
  ghost predicate ChainOk<T>(nodes: seq<Node<T>>, chain: seq<Ptr>, linked: seq<T>)
  {
    && |chain| == |linked| + 1 && Distinct(chain)
    && forall i {:trigger LinkOk(nodes, chain, linked, i)} :: 0 <= i < |chain| ==> LinkOk(nodes, chain, linked, i)
  }

  /** Head reaches tail, the tail is last or last but one, and what is removed is what head passed. */
  ghost predicate EndsOk<T>(m: Memory<T>)
  {
    && m.head in m.chain && m.tail in m.chain
    && Pos(m.chain, m.head) <= Pos(m.chain, m.tail)
    && |m.chain| - 2 <= Pos(m.chain, m.tail)
    && Pos(m.chain, m.head) <= |m.linked|
    && m.removed == m.linked[..Pos(m.chain, m.head)]
  }

  ghost predicate MemOk<T>(m: Memory<T>)
  {
    ChainOk(m.nodes, m.chain, m.linked) && EndsOk(m)
  }

  /** A node that a thread has allocated and nobody can reach yet. */
  ghost predicate Private<T>(m: Memory<T>, n: Ptr)
  {
    n < |m.nodes| && n !in m.chain && m.nodes[n].next.None?
  }

  ghost predicate Follows<T>(m: Memory<T>, p: Ptr, succ: Ptr)
  {
    p in m.chain && succ in m.chain && Pos(m.chain, succ) == Pos(m.chain, p) + 1
  }

  ghost predicate PassedByHead<T>(m: Memory<T>, p: Ptr)
  {
    m.head in m.chain && p in m.chain && Pos(m.chain, p) <= Pos(m.chain, m.head)
  }

  ghost predicate PassedByTail<T>(m: Memory<T>, p: Ptr)
  {
    m.tail in m.chain && p in m.chain && Pos(m.chain, p) <= Pos(m.chain, m.tail)
  }

  /** What a thread may rely on at each of its program points. */
  ghost predicate ThreadOk<T>(m: Memory<T>, pc: Pc<T>)
  {
    && (Preparing(pc) ==> Private(m, pc.node))
    && match pc
       case EnqReadNext(_, last) => PassedByTail(m, last)
       case EnqRecheck(_, last, next) => PassedByTail(m, last) && (next.Some? ==> Follows(m, last, next.value))
       case EnqLink(_, last) => PassedByTail(m, last)
       case EnqHelp(_, last, succ) => Follows(m, last, succ)
       case EnqSwing(node, last) => Follows(m, last, node)
       case DeqReadTail(first) => PassedByHead(m, first)
       case DeqReadNext(first, last) =>
         PassedByHead(m, first) && PassedByTail(m, last) && Pos(m.chain, first) <= Pos(m.chain, last)
       case DeqRecheck(first, last, next) =>
         && PassedByHead(m, first) && PassedByTail(m, last) && Pos(m.chain, first) <= Pos(m.chain, last)
         && (if next.Some? then Follows(m, first, next.value) else first == last)
       case DeqReadValue(first, next) =>
         PassedByHead(m, first) && next.Some? && Follows(m, first, next.value) && PassedByTail(m, next.value)
       case DeqSwing(first, succ, value) =>
         && PassedByHead(m, first) && Follows(m, first, succ) && PassedByTail(m, succ)
         && succ < |m.nodes| && value == m.nodes[succ].value
       case NilDereference => false
       case _ => true
  }

  /** The tail lags only while the enqueuer that linked the last node is about to swing it. */
  ghost predicate LagOk<T>(chain: seq<Ptr>, tail: Ptr, threads: seq<Pc<T>>)
  {
    |chain| > 0 && tail != chain[|chain| - 1] ==> EnqSwing(chain[|chain| - 1], tail) in threads
  }

  function Linked<T>(pc: Pc<T>): nat { if pc.EnqSwing? || pc.EnqCount? then 1 else 0 }

  function Taken<T>(pc: Pc<T>): nat { if pc.DeqCount? then 1 else 0 }

  /** `length`, corrected by the calls that have taken effect but not counted yet, is the size. */
  ghost predicate LengthOk<T>(q: Queue<T>)
  {
    q.length + Sum(q.threads, Linked) - Sum(q.threads, Taken) == |q.mem.Contents()|
  }

  /** No two enqueuers prepare the same node. */
  ghost predicate NodesOwned<T>(threads: seq<Pc<T>>)
  {
    forall t, u :: 0 <= t < u < |threads| && Preparing(threads[t]) && Preparing(threads[u]) ==>
      threads[t].node != threads[u].node
  }

  /** All of the above; written as one equation so that the verifier carries it as a unit. */
  ghost predicate Inv<T>(q: Queue<T>)
  {
    true == (
      && MemOk(q.mem)
      && (forall pc :: pc in q.threads ==> ThreadOk(q.mem, pc))
      && NodesOwned(q.threads) && LagOk(q.mem.chain, q.mem.tail, q.threads) && LengthOk(q))
  }

  // ---- preservation ----

  /** Shared memory moves forward: nothing linked is unlinked, neither end moves back. */
  ghost predicate Forward<T>(m: Memory<T>, w: Memory<T>)
    requires MemOk(m)
  {
    && MemOk(w) && |m.nodes| <= |w.nodes|
    && (forall i :: 0 <= i < |m.nodes| ==> w.nodes[i].value == m.nodes[i].value)
    && (forall p :: p in m.chain ==> p in w.chain && Pos(w.chain, p) == Pos(m.chain, p))
    && Pos(m.chain, m.head) <= Pos(w.chain, w.head)
    && Pos(m.chain, m.tail) <= Pos(w.chain, w.tail)
  }

  /** What a thread knows is not spoiled by other threads' steps, unless its own node is touched. */
  lemma Stable<T>(m: Memory<T>, w: Memory<T>, pc: Pc<T>)
    requires MemOk(m) && Forward(m, w) && ThreadOk(m, pc)
    requires Preparing(pc) ==> Private(w, pc.node)
    ensures ThreadOk(w, pc)
  {
  }

  /** The invariant after thread `t` moves to `pc` while memory goes from `q.mem` to `w`. */
  lemma Moved<T>(q: Queue<T>, t: nat, w: Memory<T>, pc: Pc<T>, length: int)
    requires Inv(q) && t < |q.threads| && Forward(q.mem, w) && ThreadOk(w, pc)
    requires forall u :: 0 <= u < |q.threads| && u != t && Preparing(q.threads[u]) ==> Private(w, q.threads[u].node)
    requires Preparing(pc) ==> (Preparing(q.threads[t]) && pc.node == q.threads[t].node) || pc.node >= |q.mem.nodes|
    requires LagOk(w.chain, w.tail, q.threads[t := pc])
    requires length + Linked(pc) - Taken(pc) - |w.Contents()|
          == q.length + Linked(q.threads[t]) - Taken(q.threads[t]) - |q.mem.Contents()|
    ensures Inv(Queue(w, length, q.threads[t := pc]))
  {
    var r := Queue(w, length, q.threads[t := pc]);
    forall x | x in r.threads
      ensures ThreadOk(w, x)
    {
      var u :| 0 <= u < |r.threads| && r.threads[u] == x;
      if u != t {
        Stable(q.mem, w, q.threads[u]);
      }
    }
    assert NodesOwned(r.threads) by {
      forall u | 0 <= u < |q.threads| && Preparing(q.threads[u])
        ensures q.threads[u].node < |q.mem.nodes|
      {
        assert ThreadOk(q.mem, q.threads[u]);
      }
    }
    SumUpdate(q.threads, t, pc, Linked);
    SumUpdate(q.threads, t, pc, Taken);
  }

  /** Whoever is about to swing the lagging tail still is, if it is not the one that moved. */
  lemma KeepLag<T>(q: Queue<T>, t: nat, pc: Pc<T>)
    requires Inv(q) && t < |q.threads| && !q.threads[t].EnqSwing?
    ensures LagOk(q.mem.chain, q.mem.tail, q.threads[t := pc])
  {
    KeepMember(q.threads, t, pc, EnqSwing(q.mem.chain[|q.mem.chain| - 1], q.mem.tail));
  }

  lemma KeepMember<A>(s: seq<A>, t: nat, y: A, x: A)
    requires t < |s| && x != s[t]
    ensures x in s ==> x in s[t := y]
  {
    if x in s {
      var i :| 0 <= i < |s| && s[i] == x;
      assert s[t := y][i] == x;
    }
  }

  /** A step that only moves the thread's program counter. */
  lemma LocalStep<T>(q: Queue<T>, t: nat, pc: Pc<T>, length: int)
    requires Inv(q) && t < |q.threads| && ThreadOk(q.mem, pc) && !q.threads[t].EnqSwing?
    requires length + Linked(pc) - Taken(pc) == q.length + Linked(q.threads[t]) - Taken(q.threads[t])
    requires Preparing(pc) ==> Preparing(q.threads[t]) && pc.node == q.threads[t].node
    ensures Inv(Queue(q.mem, length, q.threads[t := pc]))
  {
    KeepLag(q, t, pc);
    StillPrivate(q, q.mem);
    Moved(q, t, q.mem, pc, length);
  }

  /** Nodes being prepared stay private while neither heap nor chain changes. */
  lemma StillPrivate<T>(q: Queue<T>, w: Memory<T>)
    requires Inv(q) && w.nodes == q.mem.nodes && w.chain == q.mem.chain
    ensures forall u :: 0 <= u < |q.threads| && Preparing(q.threads[u]) ==> Private(w, q.threads[u].node)
  {
    forall u | 0 <= u < |q.threads| && Preparing(q.threads[u])
      ensures Private(w, q.threads[u].node)
    {
      assert ThreadOk(q.mem, q.threads[u]);
    }
  }

  lemma StartEnqueueStep<T>(q: Queue<T>, t: nat, item: T)
    requires Inv(q) && Enabled(q, StartEnqueue(t, item))
    ensures Inv(Apply(q, StartEnqueue(t, item)))
  {
    var m := q.mem;
    var w := m.(nodes := m.nodes + [Node(item, None)]);
    forall i | 0 <= i < |m.chain|
      ensures LinkOk(w.nodes, m.chain, m.linked, i) && m.chain[i] < |m.nodes|
    {
      assert LinkOk(m.nodes, m.chain, m.linked, i);
    }
    forall u | 0 <= u < |q.threads| && Preparing(q.threads[u])
      ensures Private(w, q.threads[u].node)
    {
      assert ThreadOk(m, q.threads[u]);
    }
    KeepLag(q, t, EnqReadTail(|m.nodes|));
    Moved(q, t, w, EnqReadTail(|m.nodes|), q.length);
  }

  lemma SpawnStep<T>(q: Queue<T>)
    requires Inv(q)
    ensures Inv(Apply(q, Spawn))
  {
    SumAppend(q.threads, Idle, Linked);
    SumAppend(q.threads, Idle, Taken);
  }

  /** A successful next-CAS can only happen at the end of the chain, with the tail there too. */
  lemma LinkOnlyAtEnd<T>(m: Memory<T>, last: Ptr)
    requires MemOk(m) && PassedByTail(m, last) && m.NextOf(last).None?
    ensures last == m.chain[|m.chain| - 1] == m.tail && Pos(m.chain, last) == |m.chain| - 1
  {
    assert LinkOk(m.nodes, m.chain, m.linked, Pos(m.chain, last));
  }

  lemma LinkMemory<T>(m: Memory<T>, node: Ptr, last: Ptr)
    requires MemOk(m) && PassedByTail(m, last) && Private(m, node) && CanLink(m, node, last)
    ensures var w := MemoryAfter(m, EnqLink(node, last));
      Forward(m, w) && Follows(w, last, node) && w.tail == last
      && w.Contents() == m.Contents() + [m.nodes[node].value]
  {
    var w := MemoryAfter(m, EnqLink(node, last));
    var n := |m.chain|;
    LinkOnlyAtEnd(m, last);
    AppendDistinct(m.chain, node);
    forall i | 0 <= i <= n
      ensures LinkOk(w.nodes, w.chain, w.linked, i)
    {
      if i < n {
        assert LinkOk(m.nodes, m.chain, m.linked, i);
      }
    }
    assert w.removed == w.linked[..Pos(w.chain, w.head)];
  }

  /** A successful next-CAS appends the thread's own node to the chain. */
  lemma LinkStep<T>(q: Queue<T>, t: nat)
    requires Inv(q) && t < |q.threads| && q.threads[t].EnqLink?
    requires CanLink(q.mem, q.threads[t].node, q.threads[t].last)
    ensures Inv(Apply(q, Advance(t)))
  {
    var m, pc := q.mem, q.threads[t];
    var node, last := pc.node, pc.last;
    assert ThreadOk(m, pc);
    LinkMemory(m, node, last);
    var w := MemoryAfter(m, pc);
    forall u | 0 <= u < |q.threads| && u != t && Preparing(q.threads[u])
      ensures Private(w, q.threads[u].node)
    {
      assert ThreadOk(m, q.threads[u]);
    }
    assert q.threads[t := EnqSwing(node, last)][t] == EnqSwing(w.chain[|m.chain|], w.tail);
    Moved(q, t, w, EnqSwing(node, last), q.length);
  }

  lemma TailMemory<T>(m: Memory<T>, pc: Pc<T>)
    requires MemOk(m) && (pc.EnqHelp? || pc.EnqSwing?) && ThreadOk(m, pc)
    ensures var w := MemoryAfter(m, pc);
      && Forward(m, w) && ThreadOk(w, PcAfter(m, pc))
      && (m.tail == pc.last ==> w.tail == m.chain[|m.chain| - 1])
  {
  }

  /** A tail-CAS, by the linking enqueuer or by a helper, moves the tail to its successor. */
  lemma TailStep<T>(q: Queue<T>, t: nat)
    requires Inv(q) && t < |q.threads| && (q.threads[t].EnqHelp? || q.threads[t].EnqSwing?)
    ensures Inv(Apply(q, Advance(t)))
  {
    var m, pc := q.mem, q.threads[t];
    assert ThreadOk(m, pc);
    TailMemory(m, pc);
    var w, pc' := MemoryAfter(m, pc), PcAfter(m, pc);
    StillPrivate(q, w);
    if m.tail != pc.last {
      KeepMember(q.threads, t, pc', EnqSwing(m.chain[|m.chain| - 1], m.tail));
    }
    Moved(q, t, w, pc', q.length);
  }

  lemma HeadMemory<T>(m: Memory<T>, pc: Pc<T>)
    requires MemOk(m) && pc.DeqSwing? && ThreadOk(m, pc) && pc.first == m.head
    ensures var w := MemoryAfter(m, pc);
      Forward(m, w) && m.Contents() == [pc.value] + w.Contents()
  {
    var w := MemoryAfter(m, pc);
    var h := Pos(m.chain, m.head);
    assert LinkOk(m.nodes, m.chain, m.linked, h + 1);
    assert w.removed == w.linked[..h + 1];
  }

  /** A successful head-CAS removes the oldest element and yields exactly its value. */
  lemma HeadStep<T>(q: Queue<T>, t: nat)
    requires Inv(q) && t < |q.threads| && q.threads[t].DeqSwing? && q.threads[t].first == q.mem.head
    ensures Inv(Apply(q, Advance(t)))
  {
    var pc := q.threads[t];
    assert ThreadOk(q.mem, pc);
    HeadMemory(q.mem, pc);
    var w := MemoryAfter(q.mem, pc);
    StillPrivate(q, w);
    KeepLag(q, t, DeqCount(pc.value));
    Moved(q, t, w, DeqCount(pc.value), q.length);
  }

  /** Reading `next` of a linked node finds its successor, or nil at the end of the chain. */
  lemma ReadNext<T>(m: Memory<T>, p: Ptr)
    requires MemOk(m) && p in m.chain
    ensures m.NextOf(p).Some? ==> Follows(m, p, m.NextOf(p).value) && m.NextOf(p).value < |m.nodes|
    ensures m.NextOf(p).None? ==> Pos(m.chain, p) == |m.chain| - 1
  {
    var i := Pos(m.chain, p);
    assert LinkOk(m.nodes, m.chain, m.linked, i);
    if i + 1 < |m.chain| {
      assert LinkOk(m.nodes, m.chain, m.linked, i + 1);
    }
  }

  /** A pure read, a failed CAS or a counter update leaves the thread where it may stand. */
  lemma PcAfterOk<T>(m: Memory<T>, pc: Pc<T>)
    requires MemOk(m) && ThreadOk(m, pc) && MemoryAfter(m, pc) == m
    requires !pc.EnqHelp? && !pc.EnqSwing?
    requires pc.EnqLink? ==> !CanLink(m, pc.node, pc.last)
    ensures ThreadOk(m, PcAfter(m, pc))
  {
    match pc
    case EnqReadNext(_, last) => ReadNext(m, last);
    case DeqReadNext(first, last) => ReadNext(m, first);
    case DeqReadValue(first, next) => ReadNext(m, first); LinkedIsAllocated(m, next.value);
    case _ =>
  }

  lemma LinkedIsAllocated<T>(m: Memory<T>, p: Ptr)
    requires MemOk(m) && p in m.chain
    ensures p < |m.nodes|
  {
    assert LinkOk(m.nodes, m.chain, m.linked, Pos(m.chain, p));
  }

  /** Such a step neither links nor takes anything, and keeps the thread's own node. */
  lemma PcAfterQuiet<T>(m: Memory<T>, pc: Pc<T>, length: int)
    requires !pc.EnqSwing? && InCall(pc)
    requires pc.DeqSwing? ==> pc.first != m.head
    requires pc.EnqLink? ==> !CanLink(m, pc.node, pc.last)
    ensures var pc' := PcAfter(m, pc);
      && LengthAfter(length, pc) + Linked(pc') - Taken(pc') == length + Linked(pc) - Taken(pc)
      && (Preparing(pc') ==> Preparing(pc) && pc'.node == pc.node)
  {
  }

  lemma ReadStep<T>(q: Queue<T>, t: nat)
    requires Inv(q) && Enabled(q, Advance(t)) && MemoryAfter(q.mem, q.threads[t]) == q.mem
    requires !q.threads[t].EnqHelp? && !q.threads[t].EnqSwing?
    requires q.threads[t].DeqSwing? ==> q.threads[t].first != q.mem.head
    requires q.threads[t].EnqLink? ==> !CanLink(q.mem, q.threads[t].node, q.threads[t].last)
    ensures Inv(Apply(q, Advance(t)))
  {
    var pc := q.threads[t];
    assert ThreadOk(q.mem, pc);
    PcAfterOk(q.mem, pc);
    PcAfterQuiet(q.mem, pc, q.length);
    LocalStep(q, t, PcAfter(q.mem, pc), LengthAfter(q.length, pc));
  }

  // ---- what every step does to the abstract queue ----

  datatype Effect<T> = Nothing | Put(item: T) | Take(item: T)
  {
    function In(): seq<T> { if Put? then [item] else [] }
    function Out(): seq<T> { if Take? then [item] else [] }
  }

  /** The linearization points: only these two compare-and-swaps touch the abstract queue. */
  function StepEffect<T>(m: Memory<T>, pc: Pc<T>): Effect<T>
  {
    match pc
    case EnqLink(node, last) => if CanLink(m, node, last) then Put(m.nodes[node].value) else Nothing
    case DeqSwing(first, _, value) => if first == m.head then Take(value) else Nothing
    case _ => Nothing
  }

  function EffectOf<T>(q: Queue<T>, a: Action<T>): Effect<T>
    requires Enabled(q, a)
  {
    if a.Advance? then StepEffect(q.mem, q.threads[a.t]) else Nothing
  }

  lemma ContentsAfter<T>(m: Memory<T>, pc: Pc<T>)
    requires MemOk(m) && ThreadOk(m, pc)
    ensures m.Contents() + StepEffect(m, pc).In() == StepEffect(m, pc).Out() + MemoryAfter(m, pc).Contents()
  {
    if pc.EnqLink? && CanLink(m, pc.node, pc.last) {
      LinkMemory(m, pc.node, pc.last);
    } else if pc.DeqSwing? && pc.first == m.head {
      HeadMemory(m, pc);
    }
  }

  lemma StepKeepsInv<T>(q: Queue<T>, a: Action<T>)
    requires Inv(q) && Enabled(q, a)
    ensures Inv(Apply(q, a))
  {
    match a
    case Spawn => SpawnStep(q);
    case StartEnqueue(t, item) => StartEnqueueStep(q, t, item);
    case StartDequeue(t) => LocalStep(q, t, DeqReadHead, q.length);
    case Collect(t) => LocalStep(q, t, Idle, q.length);
    case Advance(t) =>
      var pc := q.threads[t];
      if pc.EnqLink? && CanLink(q.mem, pc.node, pc.last) {
        LinkStep(q, t);
      } else if pc.EnqHelp? || pc.EnqSwing? {
        TailStep(q, t);
      } else if pc.DeqSwing? && pc.first == q.mem.head {
        HeadStep(q, t);
      } else {
        ReadStep(q, t);
      }
  }
}
