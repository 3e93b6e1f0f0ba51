/**
 The run as a whole treats the queue of asynchronous records as a list, out of which `DrainOne`
 takes one record at a time.  Here the drain over the lock-free queue is shown to do just that:
 each of its sends is a `DrainOne`, its end is main's step out of `Draining`, and no other step of it shows.
 */
module DrainRefinement {
  import opened SeqSums
  import Q = LockFreeQueue
  import QR = QueueResults
  import D = AsyncDrain
  import R = RunAccounting

  /** The records not sent yet are those left in the list, and the collector still listens. */
  ghost predicate Sim(q0: Q.Queue<R.Record>, d: D.Drain<R.Record>, s: R.State)
  {
    && D.Inv(q0, d) && !d.phase.Finished?
    && s.main.Draining? && s.closes == 0 && s.expected == R.MAX_INT64
    && |s.written| + |s.asyncQueue| < R.MAX_INT64
    && SameRecords(d, s.asyncQueue)
  }

  ghost predicate SameRecords(d: D.Drain<R.Record>, list: seq<R.Record>)
  {
    forall v: R.Record :: QR.Held(d.q, v) == multiset(list)[v]
  }

  /** What is neither sent before nor after a step is held by the queue before and after it. */
  lemma HeldBySent(q0: Q.Queue<R.Record>, d: D.Drain<R.Record>, d': D.Drain<R.Record>, v: R.Record)
    requires D.RecordsOk(q0, d) && D.RecordsOk(q0, d')
    ensures QR.Held(d.q, v) + multiset(d.sent)[v] == QR.Held(d'.q, v) + multiset(d'.sent)[v]
  {
    assert QR.Held(d.q, v) + multiset(d.sent)[v] == QR.Held(q0, v);
    assert QR.Held(d'.q, v) + multiset(d'.sent)[v] == QR.Held(q0, v);
  }

  /** Starting goroutines, their steps inside `Dequeue` and the batch bookkeeping do not show. */
  lemma HiddenStep(q0: Q.Queue<R.Record>, d: D.Drain<R.Record>, s: R.State, a: D.Action)
    requires Sim(q0, d, s) && D.Enabled(d, a) && !a.Send? && !a.Finish?
    ensures Sim(q0, D.Apply(d, a), s) && D.Apply(d, a).sent == d.sent
  {
    var d' := D.Apply(d, a);
    D.StepKeepsInv(q0, d, a);
    forall v: R.Record
      ensures QR.Held(d'.q, v) == multiset(s.asyncQueue)[v]
    {
      HeldBySent(q0, d, d', v);
    }
  }

  /** What `DrainOne` does while the collector is far from its placeholder. */
  lemma DrainOneIs(c: R.Config, s: R.State, j: nat)
    requires s.main.Draining? && s.closes == 0 && s.expected == R.MAX_INT64
    requires |s.written| + |s.asyncQueue| < R.MAX_INT64 && j < |s.asyncQueue|
    ensures R.Enabled(c, s, R.DrainOne(j))
    ensures R.Apply(c, s, R.DrainOne(j))
         == s.(asyncQueue := s.asyncQueue[..j] + s.asyncQueue[j + 1..], written := s.written + [s.asyncQueue[j]])
  {
  }

  lemma SendHeld(q0: Q.Queue<R.Record>, d: D.Drain<R.Record>, t: nat, x: R.Record)
    requires D.Inv(q0, d) && D.Enabled(d, D.Send(t))
    ensures QR.Held(d.q, x) == QR.Held(D.Apply(d, D.Send(t)).q, x) + if x == d.q.threads[t].value then 1 else 0
  {
    D.StepKeepsInv(q0, d, D.Send(t));
    HeldBySent(q0, d, D.Apply(d, D.Send(t)), x);
  }

  lemma SendRecords(q0: Q.Queue<R.Record>, d: D.Drain<R.Record>, list: seq<R.Record>, t: nat) returns (j: nat)
    requires D.Inv(q0, d) && D.Enabled(d, D.Send(t)) && SameRecords(d, list)
    ensures j < |list| && list[j] == d.q.threads[t].value
    ensures SameRecords(D.Apply(d, D.Send(t)), list[..j] + list[j + 1..])
  {
    var v, d' := d.q.threads[t].value, D.Apply(d, D.Send(t));
    SendHeld(q0, d, t, v);
    assert multiset(list)[v] > 0;
    j :| 0 <= j < |list| && list[j] == v;
    var left := list[..j] + list[j + 1..];
    forall x: R.Record
      ensures QR.Held(d'.q, x) == multiset(left)[x]
    {
      SendHeld(q0, d, t, x);
      OneTaken(list, j, x);
    }
  }

  lemma OneTaken(list: seq<R.Record>, j: nat, x: R.Record)
    requires j < |list|
    ensures multiset(list)[x] == multiset(list[..j] + list[j + 1..])[x] + if x == list[j] then 1 else 0
  {
    TakeOut(list, j);
  }

  /** Sending the record that goroutine `t` has taken is draining that record. */
  lemma SendStep(c: R.Config, q0: Q.Queue<R.Record>, d: D.Drain<R.Record>, s: R.State, t: nat) returns (j: nat)
    requires Sim(q0, d, s) && D.Enabled(d, D.Send(t))
    ensures R.Enabled(c, s, R.DrainOne(j)) && j < |s.asyncQueue| && s.asyncQueue[j] == d.q.threads[t].value
    ensures var s' := R.Apply(c, s, R.DrainOne(j));
      Sim(q0, D.Apply(d, D.Send(t)), s') && s'.written == s.written + [d.q.threads[t].value] && s'.log == s.log
  {
    D.StepKeepsInv(q0, d, D.Send(t));
    j := SendRecords(q0, d, s.asyncQueue, t);
    DrainOneIs(c, s, j);
  }

  lemma Occurs(list: seq<R.Record>)
    requires list != []
    ensures multiset(list)[list[0]] > 0
  {
    assert list[0] in list;
  }

  lemma NoRecords(d: D.Drain<R.Record>, list: seq<R.Record>)
    requires SameRecords(d, list) && forall v: R.Record :: QR.Held(d.q, v) == 0
    ensures list == []
  {
    if list != [] {
      Occurs(list);
    }
  }

  lemma AllSent(q0: Q.Queue<R.Record>, d: D.Drain<R.Record>)
    requires D.Inv(q0, d) && d.phase.Finished?
    ensures forall v: R.Record :: QR.Held(d.q, v) == 0
    ensures forall t :: 0 <= t < |d.q.threads| ==> d.q.threads[t].Idle?
  {
    D.AllIdle(d.q);
  }

  /** When the drain ends, the list is empty and main can go on. */
  lemma FinishStep(c: R.Config, q0: Q.Queue<R.Record>, d: D.Drain<R.Record>, s: R.State)
    requires Sim(q0, d, s) && D.Enabled(d, D.Finish)
    ensures s.asyncQueue == [] && Refined(c, s, [R.MainStep], [], true)
  {
    D.StepKeepsInv(q0, d, D.Finish);
    AllSent(q0, D.Apply(d, D.Finish));
    NoRecords(d, s.asyncQueue);
    assert [R.MainStep][1..] == [] && s.written + [] == s.written;
  }

  lemma NothingAfterFinish(q0: Q.Queue<R.Record>, d: D.Drain<R.Record>, run: seq<D.Action>)
    requires D.Inv(q0, d) && d.phase.Finished? && D.Legal(d, run)
    ensures run == []
  {
    AllSent(q0, d);
  }

  /** After a drain of the concrete queue: the same records written in the same order. */
  ghost predicate Refined(c: R.Config, s: R.State, run: seq<R.Action>, sent: seq<R.Record>, finished: bool)
  {
    && R.Legal(c, s, run)
    && var s' := R.Exec(c, s, run);
    && s'.written == s.written + sent && s'.log == s.log
    && (finished ==> s'.main.SendTotal? && s'.asyncQueue == [])
    && (!finished ==> s'.main.Draining?)
  }

  lemma RefinedCons(c: R.Config, s: R.State, a: R.Action, run: seq<R.Action>, one: seq<R.Record>, sent: seq<R.Record>,
      finished: bool)
    requires R.Enabled(c, s, a) && Refined(c, R.Apply(c, s, a), run, sent, finished)
    requires R.Apply(c, s, a).written == s.written + one && R.Apply(c, s, a).log == s.log
    ensures Refined(c, s, [a] + run, one + sent, finished)
  {
    assert ([a] + run)[1..] == run;
    assert s.written + one + sent == s.written + (one + sent);
  }

  /** The run `steps` of the loader's model writes what a drain that ends in `end` sends after `before`. */
  ghost predicate Matches(c: R.Config, before: seq<R.Record>, end: D.Drain<R.Record>, s: R.State,
      steps: seq<R.Action>, sent: seq<R.Record>)
  {
    end.sent == before + sent && Refined(c, s, steps, sent, end.phase.Finished?)
  }

  lemma MatchSend(c: R.Config, before: seq<R.Record>, end: D.Drain<R.Record>, s: R.State, a: R.Action,
      steps: seq<R.Action>, v: R.Record, sent: seq<R.Record>)
    requires R.Enabled(c, s, a) && Matches(c, before + [v], end, R.Apply(c, s, a), steps, sent)
    requires R.Apply(c, s, a).written == s.written + [v] && R.Apply(c, s, a).log == s.log
    ensures Matches(c, before, end, s, [a] + steps, [v] + sent)
  {
    RefinedCons(c, s, a, steps, [v], sent, end.phase.Finished?);
    assert before + [v] + sent == before + ([v] + sent);
  }

  lemma MatchFinish(c: R.Config, q0: Q.Queue<R.Record>, d: D.Drain<R.Record>, s: R.State, run: seq<D.Action>)
    requires Sim(q0, d, s) && D.Legal(d, run) && run != [] && run[0].Finish?
    ensures Matches(c, d.sent, D.Exec(d, run), s, [R.MainStep], [])
  {
    var d' := D.Apply(d, run[0]);
    FinishStep(c, q0, d, s);
    D.StepKeepsInv(q0, d, run[0]);
    NothingAfterFinish(q0, d', run[1..]);
    assert D.Exec(d, run) == D.Exec(d', []) == d';
    assert d.sent + [] == d.sent;
  }

  /** Every run of the drain is matched by a run of the loader's model that writes the records it sends. */
  lemma {:induction false} RunRefines(c: R.Config, q0: Q.Queue<R.Record>, d: D.Drain<R.Record>, s: R.State,
      run: seq<D.Action>)
      returns (steps: seq<R.Action>, sent: seq<R.Record>)
    requires Sim(q0, d, s) && D.Legal(d, run)
    ensures Matches(c, d.sent, D.Exec(d, run), s, steps, sent)
    decreases |run|
  {
    if run == [] {
      steps, sent := [], [];
      assert d.sent + [] == d.sent && s.written + [] == s.written;
    } else if run[0].Finish? {
      steps, sent := [R.MainStep], [];
      MatchFinish(c, q0, d, s, run);
    } else if run[0].Send? {
      var j := SendStep(c, q0, d, s, run[0].t);
      var v := d.q.threads[run[0].t].value;
      var d', s' := D.Apply(d, run[0]), R.Apply(c, s, R.DrainOne(j));
      steps, sent := RunRefines(c, q0, d', s', run[1..]);
      MatchSend(c, d.sent, D.Exec(d', run[1..]), s, R.DrainOne(j), steps, v, sent);
      steps, sent := [R.DrainOne(j)] + steps, [v] + sent;
    } else {
      HiddenStep(q0, d, s, run[0]);
      steps, sent := RunRefines(c, q0, D.Apply(d, run[0]), s, run[1..]);
    }
  }

  /**
   A loader that has reached its drain, with these records in the lock-free queue after any finished calls on it:
   whatever the drain does, the model's steps can do, writing exactly the records the drain sends, in that order.
   */
  lemma DrainRefines(c: R.Config, s: R.State, zero: R.Record, history: seq<Q.Action<R.Record>>, run: seq<D.Action>)
      returns (steps: seq<R.Action>)
    requires R.Inv(c, s) && s.main.Draining? && |s.log| < R.MAX_INT64
    requires Q.Legal(Q.Init(zero), history)
    requires forall pc :: pc in Q.Exec(Q.Init(zero), history).threads ==> pc.Idle?
    requires multiset(Q.Exec(Q.Init(zero), history).mem.Contents()) == multiset(s.asyncQueue)
    requires D.Legal(D.Start(Q.Exec(Q.Init(zero), history)), run)
    ensures var d := D.Exec(D.Start(Q.Exec(Q.Init(zero), history)), run);
      Refined(c, s, steps, d.sent, d.phase.Finished?)
  {
    var q0 := Q.Exec(Q.Init(zero), history);
    QR.InitInv(zero);
    QR.RunKeepsInv(Q.Init(zero), history);
    D.StartInv(q0);
    SumZero(q0.threads, D.Busy);
    D.AllIdle(q0);
    var sent;
    steps, sent := RunRefines(c, q0, D.Start(q0), s, run);
    assert [] + sent == sent;
  }
}
