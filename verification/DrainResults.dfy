/** What holds of every drain: it ends, without a failure, and sends every record exactly once. */
module DrainResults {
  import opened SeqSums
  import opened AsyncDrain
  import Q = LockFreeQueue
  import QR = QueueResults

  lemma BeginCost<T(!new)>(q0: Q.Queue<T>, d: Drain<T>)
    requires Inv(q0, d) && Enabled(d, Begin)
    ensures Cost(q0, Apply(d, Begin)) < Cost(q0, d)
  {
    BeginInv(q0, d);
    OwnStepDrops(q0, d, Begin);
  }

  lemma CostDrops<T(!new)>(q0: Q.Queue<T>, d: Drain<T>, a: Action)
    requires Inv(q0, d) && Enabled(d, a)
    ensures Cost(q0, Apply(d, a)) < Cost(q0, d)
  {
    match a
    case Step(t) =>
      ThreadsBound(|q0.mem.Contents()|, |q0.threads|, d);
      StepCost(q0, d, t, Q.Apply(d.q, Q.Advance(t)));
    case Begin => BeginCost(q0, d);
    case _ => OwnStepDrops(q0, d, a);
  }

  lemma {:induction false} RunInv<T(!new)>(q0: Q.Queue<T>, d: Drain<T>, run: seq<Action>)
    requires Inv(q0, d) && Legal(d, run)
    ensures Inv(q0, Exec(d, run))
    ensures |run| <= Cost(q0, d) - Cost(q0, Exec(d, run))
    decreases |run|
  {
    if run != [] {
      StepKeepsInv(q0, d, run[0]);
      CostDrops(q0, d, run[0]);
      RunInv(q0, Apply(d, run[0]), run[1..]);
    }
  }

  /** When the drain has finished, every record was sent exactly once, in exactly ceil(n/50) batches. */
  lemma FinishedDrain<T(!new)>(q0: Q.Queue<T>, d: Drain<T>)
    requires Quiescent(q0) && Inv(q0, d) && d.phase.Finished?
    ensures multiset(d.sent) == multiset(q0.mem.Contents()) && d.q.mem.Contents() == []
    ensures d.batches == CeilDiv(|q0.mem.Contents()|, BATCH_SIZE)
  {
    AllIdle(d.q);
    SumZero(q0.threads, Busy);
    AllIdle(q0);
    forall v
      ensures multiset(d.sent)[v] == multiset(q0.mem.Contents())[v]
    {
      assert QR.Held(d.q, v) + multiset(d.sent)[v] == QR.Held(q0, v);
    }
  }

  /**
   Draining the queue after any history of calls, all of them finished: no schedule reaches
   "No element to dequeue" or a nil pointer, every schedule is finite, none gets stuck before
   the end, and at the end each record has been sent exactly once in ceil(n/50) batches.
   */
  lemma DrainCorrect<T(!new)>(zero: T, history: seq<Q.Action<T>>, run: seq<Action>)
    requires Q.Legal(Q.Init(zero), history)
    requires forall pc :: pc in Q.Exec(Q.Init(zero), history).threads ==> pc.Idle?
    requires Legal(Start(Q.Exec(Q.Init(zero), history)), run)
    ensures var q0 := Q.Exec(Q.Init(zero), history);
      var d := Exec(Start(q0), run);
      && (forall pc :: pc in d.q.threads ==> !pc.DeqFatal? && !pc.NilDereference?)
      && |run| <= Cost(q0, Start(q0))
      && (d.phase.Finished? || exists a :: Enabled(d, a))
      && (d.phase.Finished? ==>
            && multiset(d.sent) == multiset(q0.mem.Contents())
            && d.batches == CeilDiv(|q0.mem.Contents()|, 50))
  {
    QR.InitInv(zero);
    QR.RunKeepsInv(Q.Init(zero), history);
    var q0 := Q.Exec(Q.Init(zero), history);
    StartInv(q0);
    RunInv(q0, Start(q0), run);
    DrainedSoFar(q0, Exec(Start(q0), run));
  }

  lemma DrainedSoFar<T(!new)>(q0: Q.Queue<T>, d: Drain<T>)
    requires Quiescent(q0) && Inv(q0, d)
    ensures forall pc :: pc in d.q.threads ==> !pc.DeqFatal? && !pc.NilDereference?
    ensures Cost(q0, d) >= 0
    ensures d.phase.Finished? || exists a :: Enabled(d, a)
    ensures d.phase.Finished? ==>
              && multiset(d.sent) == multiset(q0.mem.Contents())
              && d.batches == CeilDiv(|q0.mem.Contents()|, BATCH_SIZE)
  {
    forall pc | pc in d.q.threads
      ensures !pc.DeqFatal? && !pc.NilDereference?
    {
      assert Q.ThreadOk(d.q.mem, pc) && Dequeuing(pc);
    }
    if d.phase.Finished? {
      FinishedDrain(q0, d);
    } else {
      Progress(q0, d);
    }
  }
}
