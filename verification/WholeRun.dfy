/**
 The run and the queue together.  A goroutine with an asynchronous record enqueues it through the lock-free queue, one
 pointer read or compare-and-swap at a time, and main drains that queue in batches; all of it interleaves with
 everything else.  The composed system does nothing that the run with its list of records could not do.
 */
module WholeRun {
  import opened SeqSums
  import Q = LockFreeQueue
  import QR = QueueResults
  import QP = QueueProgress
  import D = AsyncDrain
  import DD = DrainResults
  import DR = DrainRefinement
  import R = RunAccounting
  import RR = RunResults

  /** Goroutine `i` is inside `Enqueue` with its record, as thread `t` of the queue. */
  datatype Call = Call(i: nat, t: nat, rec: R.Record)

  /** `s` is the run without its list of records: those are in `q`, or in the queue of the drain once that has begun. */
  datatype System = System(
    s: R.State, q: Q.Queue<R.Record>, calls: seq<Call>, drain: Option<D.Drain<R.Record>>)

  datatype Action =
    | Plain(a: R.Action)
    | BeginSend(i: nat)
    | SendStep(j: nat)
    | EndSend(j: nat)
    | StartDrain
    | DrainStep(b: D.Action)

  function Init(c: R.Config, zero: R.Record): System
  {
    System(R.Init(c), Q.Init(zero), [], None)
  }

  /** Goroutine `i` has an asynchronous record to hand over. */
  predicate Sends(s: R.State, i: nat)
  {
    i < |s.gs| && s.gs[i].pc.Sending? && s.gs[i].pc.async && s.gs[i].rest != []
  }

  function RecordOf(s: R.State, i: nat): R.Record
    requires Sends(s, i)
  {
    var g := s.gs[i];
    R.Record(g.driver, g.inv, g.rest[0].id, g.pc.ok)
  }

  /** A step of the run in which the list of asynchronous records plays no part. */
  predicate Unrelated(s: R.State, a: R.Action)
  {
    !a.DrainOne? && !(a.MainStep? && s.main.Draining?) && !(a.Walk? && Sends(s, a.i))
  }

  predicate Enabled(c: R.Config, y: System, act: Action)
  {
    match act
    case Plain(a) => R.Enabled(c, y.s, a) && Unrelated(y.s, a)
    case BeginSend(i) => Sends(y.s, i) && y.drain.None? && forall x :: x in y.calls ==> x.i != i
    case SendStep(j) => j < |y.calls| && Q.Enabled(y.q, Q.Advance(y.calls[j].t))
    case EndSend(j) =>
      && j < |y.calls| && y.calls[j].t < |y.q.threads| && y.q.threads[y.calls[j].t].Idle?
      && R.Enabled(c, y.s, R.Walk(y.calls[j].i, false, false))
    case StartDrain => y.s.main.Draining? && y.drain.None?
    case DrainStep(b) =>
      y.drain.Some? && D.Enabled(y.drain.value, b) && (b.Send? ==> R.CollectorListens(y.s))
  }

  function Apply(c: R.Config, y: System, act: Action): System
    requires Enabled(c, y, act)
  {
    match act
    case Plain(a) => y.(s := R.Apply(c, y.s, a))
    case BeginSend(i) =>
      var t, rec := |y.q.threads|, RecordOf(y.s, i);
      y.(q := Q.Apply(Q.Apply(y.q, Q.Spawn), Q.StartEnqueue(t, rec)), calls := y.calls + [Call(i, t, rec)])
    case SendStep(j) => y.(q := Q.Apply(y.q, Q.Advance(y.calls[j].t)))
    case EndSend(j) =>
      y.(s := R.Apply(c, y.s, R.Walk(y.calls[j].i, false, false)).(asyncQueue := []),
         calls := y.calls[..j] + y.calls[j + 1..])
    case StartDrain => y.(drain := Some(D.Start(y.q)))
    case DrainStep(b) =>
      var d := y.drain.value;
      y.(drain := Some(D.Apply(d, b)),
         s := if b.Send? then R.Receive(y.s, d.q.threads[b.t].value)
              else if b.Finish? then y.s.(main := R.SendTotal)
              else y.s)
  }

  predicate Legal(c: R.Config, y: System, run: seq<Action>)
    decreases |run|
  {
    run == [] || (Enabled(c, y, run[0]) && Legal(c, Apply(c, y, run[0]), run[1..]))
  }

  function Exec(c: R.Config, y: System, run: seq<Action>): System
    requires Legal(c, y, run)
    decreases |run|
  {
    if run == [] then y else Exec(c, Apply(c, y, run[0]), run[1..])
  }

  // ---- what relates the system to the run ----

  /** The run whose list of asynchronous records is `list`. */
  function With(s: R.State, list: seq<R.Record>): R.State
  {
    s.(asyncQueue := list)
  }

  function Carries(v: R.Record): Call -> nat
  {
    (x: Call) => if x.rec == v then 1 else 0
  }

  /** Every call belongs to a goroutine that is sending that record, and no goroutine makes two. */
  ghost predicate CallsOk(s: R.State, threads: seq<Q.Pc<R.Record>>, calls: seq<Call>)
  {
    && (forall j :: 0 <= j < |calls| ==>
          Sends(s, calls[j].i) && calls[j].rec == RecordOf(s, calls[j].i) && calls[j].t < |threads|)
    && (forall j, k :: 0 <= j < k < |calls| ==> calls[j].i != calls[k].i)
  }

  /** A thread of the queue is idle, or inside `Enqueue` on behalf of a call. */
  ghost predicate ThreadsOk(threads: seq<Q.Pc<R.Record>>, calls: seq<Call>)
  {
    forall t :: 0 <= t < |threads| ==>
      threads[t].Idle? || (Q.InEnqueue(threads[t]) && exists j :: 0 <= j < |calls| && calls[j].t == t)
  }

  /** What the queue and the calls hold is the list, and the records of calls that have not ended. */
  ghost predicate HeldOk(q: Q.Queue<R.Record>, calls: seq<Call>, list: seq<R.Record>)
  {
    forall v: R.Record :: QR.Held(q, v) == multiset(list)[v] + Sum(calls, Carries(v))
  }

  /** Before the drain; like the next two, one equation that the verifier carries as a unit. */
  ghost predicate Filling(y: System, list: seq<R.Record>)
  {
    true == (
      && y.drain.None? && Q.Inv(y.q)
      && CallsOk(y.s, y.q.threads, y.calls) && ThreadsOk(y.q.threads, y.calls) && HeldOk(y.q, y.calls, list))
  }

  ghost predicate Emptying(y: System, list: seq<R.Record>)
  {
    true == (
      && y.drain.Some? && D.Inv(y.q, y.drain.value) && y.calls == []
      && if y.drain.value.phase.Finished? then list == [] && !y.s.main.Draining? && !y.s.main.AwaitDrivers?
         else y.s.main.Draining? && DR.SameRecords(y.drain.value, list))
  }

  ghost predicate Rel(c: R.Config, y: System, list: seq<R.Record>)
  {
    true == (y.s.asyncQueue == [] && R.Inv(c, With(y.s, list)) && (Filling(y, list) || Emptying(y, list)))
  }

  lemma InitRel(c: R.Config, zero: R.Record)
    ensures Rel(c, Init(c, zero), []) && With(Init(c, zero).s, []) == R.Init(c)
  {
    RR.InitInv(c);
    QR.InitInv(zero);
  }

  // ---- steps in which the list plays no part ----

  lemma PlainSame(c: R.Config, s: R.State, list: seq<R.Record>, a: R.Action)
    requires s.asyncQueue == [] && R.Enabled(c, s, a) && Unrelated(s, a)
    requires a.Walk? && s.gs[a.i].pc.Sending? ==> s.gs[a.i].rest != []
    ensures R.Enabled(c, With(s, list), a) && R.Apply(c, With(s, list), a) == With(R.Apply(c, s, a), list)
    ensures R.Apply(c, s, a).asyncQueue == []
  {
  }

  /** A goroutine that is sending is not moved by such a step. */
  lemma PlainKeeps(c: R.Config, s: R.State, a: R.Action, i: nat)
    requires R.Enabled(c, s, a) && Unrelated(s, a) && Sends(s, i)
    ensures Sends(R.Apply(c, s, a), i) && RecordOf(R.Apply(c, s, a), i) == RecordOf(s, i)
  {
    assert R.Apply(c, s, a).gs[i] == s.gs[i];
  }

  /** A step of the system, matched by `steps` of the run. */
  ghost predicate Matched(c: R.Config, y: System, list: seq<R.Record>, y': System, list': seq<R.Record>,
      steps: seq<R.Action>)
  {
    && R.Legal(c, With(y.s, list), steps) && R.Exec(c, With(y.s, list), steps) == With(y'.s, list')
    && Rel(c, y', list')
  }

  lemma OneStep(c: R.Config, s: R.State, a: R.Action)
    requires R.Enabled(c, s, a)
    ensures R.Legal(c, s, [a]) && R.Exec(c, s, [a]) == R.Apply(c, s, a)
  {
    assert [a][1..] == [];
  }

  lemma PlainCalls(c: R.Config, s: R.State, a: R.Action, threads: seq<Q.Pc<R.Record>>, calls: seq<Call>)
    requires R.Enabled(c, s, a) && Unrelated(s, a) && CallsOk(s, threads, calls)
    ensures CallsOk(R.Apply(c, s, a), threads, calls)
  {
    forall j | 0 <= j < |calls|
      ensures Sends(R.Apply(c, s, a), calls[j].i) && calls[j].rec == RecordOf(R.Apply(c, s, a), calls[j].i)
    {
      PlainKeeps(c, s, a, calls[j].i);
    }
  }

  /** Once the drain has begun, only main can take such a step, and only after the drain. */
  lemma PlainAfterDrain(c: R.Config, s: R.State, list: seq<R.Record>, a: R.Action)
    requires R.Inv(c, With(s, list)) && R.Enabled(c, With(s, list), a) && Unrelated(s, a) && !s.main.AwaitDrivers?
    ensures a.MainStep? && !s.main.Draining?
  {
    if a.Walk? || a.StartInvocation? || a.DriverStep? {
      R.MainWaits(c, With(s, list), a);
    }
  }

  lemma SendingHasNode(c: R.Config, s: R.State, i: nat)
    requires R.ShapeOk(c, s) && i < |s.gs| && s.gs[i].pc.Sending?
    ensures s.gs[i].rest != []
  {
    assert s.gs[i] in s.gs;
  }

  lemma PlainFilling(c: R.Config, y: System, list: seq<R.Record>, a: R.Action, y': System)
    requires Filling(y, list) && R.Enabled(c, y.s, a) && Unrelated(y.s, a) && y' == y.(s := R.Apply(c, y.s, a))
    ensures Filling(y', list)
  {
    PlainCalls(c, y.s, a, y.q.threads, y.calls);
  }

  lemma PlainEmptying(c: R.Config, y: System, list: seq<R.Record>, a: R.Action, y': System)
    requires Emptying(y, list) && R.Inv(c, With(y.s, list)) && R.Enabled(c, With(y.s, list), a)
    requires R.Enabled(c, y.s, a) && Unrelated(y.s, a) && y' == y.(s := R.Apply(c, y.s, a))
    ensures Emptying(y', list)
  {
    PlainAfterDrain(c, y.s, list, a);
  }

  lemma RelHasNode(c: R.Config, y: System, list: seq<R.Record>, i: nat)
    requires Rel(c, y, list) && i < |y.s.gs| && y.s.gs[i].pc.Sending?
    ensures y.s.gs[i].rest != []
  {
    SendingHasNode(c, With(y.s, list), i);
  }

  lemma PlainStep(c: R.Config, y: System, list: seq<R.Record>, a: R.Action)
    requires Rel(c, y, list) && Enabled(c, y, Plain(a))
    ensures Matched(c, y, list, Apply(c, y, Plain(a)), list, [a])
  {
    var y' := Apply(c, y, Plain(a));
    if a.Walk? && y.s.gs[a.i].pc.Sending? {
      RelHasNode(c, y, list, a.i);
    }
    PlainSame(c, y.s, list, a);
    if Filling(y, list) {
      PlainFilling(c, y, list, a, y');
    } else {
      PlainEmptying(c, y, list, a, y');
    }
    Visible(c, y, list, y', list, a);
  }

  // ---- enqueuing ----

  lemma BeginHeld(q: Q.Queue<R.Record>, rec: R.Record, v: R.Record)
    requires Q.Inv(q)
    ensures var q1 := Q.Apply(q, Q.Spawn); var q2 := Q.Apply(q1, Q.StartEnqueue(|q.threads|, rec));
      && Q.Inv(q2) && q2.threads == q.threads + [Q.EnqReadTail(|q.mem.nodes|)]
      && QR.Held(q2, v) == QR.Held(q, v) + if rec == v then 1 else 0
  {
    var q1 := Q.Apply(q, Q.Spawn);
    Q.StepKeepsInv(q, Q.Spawn);
    QR.HeldAfterOther(q, Q.Spawn, v);
    Q.StepKeepsInv(q1, Q.StartEnqueue(|q.threads|, rec));
    QR.HeldAfterStart(q1, |q.threads|, rec, v);
    assert Q.Apply(q1, Q.StartEnqueue(|q.threads|, rec)).threads == q.threads + [Q.EnqReadTail(|q.mem.nodes|)];
  }

  lemma BeginHeldOk(q: Q.Queue<R.Record>, calls: seq<Call>, list: seq<R.Record>, x: Call)
    requires Q.Inv(q) && HeldOk(q, calls, list)
    ensures var q2 := Q.Apply(Q.Apply(q, Q.Spawn), Q.StartEnqueue(|q.threads|, x.rec)); HeldOk(q2, calls + [x], list)
  {
    var q2 := Q.Apply(Q.Apply(q, Q.Spawn), Q.StartEnqueue(|q.threads|, x.rec));
    forall v: R.Record
      ensures QR.Held(q2, v) == multiset(list)[v] + Sum(calls + [x], Carries(v))
    {
      BeginHeld(q, x.rec, v);
      SumAppend(calls, x, Carries(v));
    }
  }

  lemma BeginFilling(y: System, list: seq<R.Record>, x: Call, y': System)
    requires Filling(y, list) && Sends(y.s, x.i) && x == Call(x.i, |y.q.threads|, RecordOf(y.s, x.i))
    requires forall z :: z in y.calls ==> z.i != x.i
    requires y'.q == Q.Apply(Q.Apply(y.q, Q.Spawn), Q.StartEnqueue(|y.q.threads|, x.rec))
    requires y'.s == y.s && y'.calls == y.calls + [x] && y'.drain == y.drain
    ensures Filling(y', list)
  {
    BeginHeld(y.q, x.rec, x.rec);
    BeginHeldOk(y.q, y.calls, list, x);
    BeginThreads(y.s, y.q.threads, y'.q.threads, y.calls, x);
  }

  /** A step that does not show: the run stays where it is. */
  lemma Stutter(c: R.Config, y: System, list: seq<R.Record>, y': System)
    requires Rel(c, y, list) && y'.s == y.s && (Filling(y', list) || Emptying(y', list))
    ensures Matched(c, y, list, y', list, [])
  {
  }

  lemma IsFilling(c: R.Config, y: System, list: seq<R.Record>)
    requires Rel(c, y, list) && (y.drain.None? || y.calls != [])
    ensures Filling(y, list)
  {
  }

  lemma BeginStep(c: R.Config, y: System, list: seq<R.Record>, i: nat)
    requires Rel(c, y, list) && Enabled(c, y, BeginSend(i))
    ensures Matched(c, y, list, Apply(c, y, BeginSend(i)), list, [])
  {
    var y' := Apply(c, y, BeginSend(i));
    IsFilling(c, y, list);
    BeginFilling(y, list, Call(i, |y.q.threads|, RecordOf(y.s, i)), y');
    Stutter(c, y, list, y');
  }

  lemma BeginThreads(s: R.State, threads: seq<Q.Pc<R.Record>>, threads': seq<Q.Pc<R.Record>>, calls: seq<Call>, x: Call)
    requires CallsOk(s, threads, calls) && ThreadsOk(threads, calls)
    requires |threads'| == |threads| + 1 && threads'[..|threads|] == threads && Q.InEnqueue(threads'[|threads|])
    requires x.t == |threads| && Sends(s, x.i) && x.rec == RecordOf(s, x.i) && forall z :: z in calls ==> z.i != x.i
    ensures CallsOk(s, threads', calls + [x]) && ThreadsOk(threads', calls + [x])
  {
    forall t | 0 <= t < |threads'|
      ensures threads'[t].Idle?
           || (Q.InEnqueue(threads'[t]) && exists j :: 0 <= j < |calls + [x]| && (calls + [x])[j].t == t)
    {
      if t < |threads| {
        assert threads'[t] == threads'[..|threads|][t] == threads[t];
        if !threads[t].Idle? {
          var j :| 0 <= j < |calls| && calls[j].t == t;
          assert (calls + [x])[j].t == t;
        }
      } else {
        assert (calls + [x])[|calls|].t == t;
      }
    }
  }

  lemma AdvanceEnqueue(m: Q.Memory<R.Record>, pc: Q.Pc<R.Record>)
    requires Q.InEnqueue(pc)
    ensures Q.InEnqueue(Q.PcAfter(m, pc)) || Q.PcAfter(m, pc).Idle?
  {
  }

  lemma AdvanceThreads(threads: seq<Q.Pc<R.Record>>, calls: seq<Call>, j: nat, pc: Q.Pc<R.Record>)
    requires ThreadsOk(threads, calls) && j < |calls| && calls[j].t < |threads| && (Q.InEnqueue(pc) || pc.Idle?)
    ensures ThreadsOk(threads[calls[j].t := pc], calls)
  {
  }

  lemma AdvanceHeldOk(q: Q.Queue<R.Record>, calls: seq<Call>, list: seq<R.Record>, t: nat)
    requires Q.Inv(q) && HeldOk(q, calls, list) && Q.Enabled(q, Q.Advance(t))
    ensures HeldOk(Q.Apply(q, Q.Advance(t)), calls, list)
  {
    var q' := Q.Apply(q, Q.Advance(t));
    forall v: R.Record
      ensures QR.Held(q', v) == multiset(list)[v] + Sum(calls, Carries(v))
    {
      QR.HeldAfterAdvance(q, t, v);
    }
  }

  lemma AdvanceFilling(y: System, list: seq<R.Record>, j: nat, y': System)
    requires Filling(y, list) && j < |y.calls| && Q.Enabled(y.q, Q.Advance(y.calls[j].t))
    requires y' == y.(q := Q.Apply(y.q, Q.Advance(y.calls[j].t)))
    ensures Filling(y', list)
  {
    var t := y.calls[j].t;
    Q.StepKeepsInv(y.q, Q.Advance(t));
    AdvanceEnqueue(y.q.mem, y.q.threads[t]);
    AdvanceThreads(y.q.threads, y.calls, j, Q.PcAfter(y.q.mem, y.q.threads[t]));
    AdvanceHeldOk(y.q, y.calls, list, t);
  }

  lemma SendStepStep(c: R.Config, y: System, list: seq<R.Record>, j: nat)
    requires Rel(c, y, list) && Enabled(c, y, SendStep(j))
    ensures Matched(c, y, list, Apply(c, y, SendStep(j)), list, [])
  {
    var y' := Apply(c, y, SendStep(j));
    IsFilling(c, y, list);
    AdvanceFilling(y, list, j, y');
    Stutter(c, y, list, y');
  }

  /** The step of the run that stands for a whole asynchronous send. */
  lemma SendIs(c: R.Config, s: R.State, list: seq<R.Record>, i: nat)
    requires Sends(s, i) && R.Enabled(c, s, R.Walk(i, false, false))
    ensures R.Enabled(c, With(s, list), R.Walk(i, false, false))
    ensures var s' := R.Apply(c, s, R.Walk(i, false, false));
      && R.Apply(c, With(s, list), R.Walk(i, false, false)) == With(s', list + [RecordOf(s, i)])
      && |s'.gs| == |s.gs| && forall k :: 0 <= k < |s.gs| && k != i ==> s'.gs[k] == s.gs[k]
  {
  }

  lemma EndHeldOk(q: Q.Queue<R.Record>, calls: seq<Call>, list: seq<R.Record>, j: nat)
    requires HeldOk(q, calls, list) && j < |calls|
    ensures HeldOk(q, calls[..j] + calls[j + 1..], list + [calls[j].rec])
  {
    forall v: R.Record
      ensures QR.Held(q, v) == multiset(list + [calls[j].rec])[v] + Sum(calls[..j] + calls[j + 1..], Carries(v))
    {
      SumTakeOut(calls, j, Carries(v));
    }
  }

  lemma EndFilling(y: System, list: seq<R.Record>, j: nat, y': System)
    requires Filling(y, list) && j < |y.calls| && y.calls[j].t < |y.q.threads| && y.q.threads[y.calls[j].t].Idle?
    requires |y'.s.gs| == |y.s.gs| && forall k :: 0 <= k < |y.s.gs| && k != y.calls[j].i ==> y'.s.gs[k] == y.s.gs[k]
    requires y'.q == y.q && y'.calls == y.calls[..j] + y.calls[j + 1..] && y'.drain == y.drain
    ensures Filling(y', list + [y.calls[j].rec])
  {
    EndCalls(y.s, y'.s, y.q.threads, y.calls, j);
    EndHeldOk(y.q, y.calls, list, j);
  }

  /** A step of the run with which the system stays related to it. */
  lemma Visible(c: R.Config, y: System, list: seq<R.Record>, y': System, list': seq<R.Record>, a: R.Action)
    requires Rel(c, y, list) && R.Enabled(c, With(y.s, list), a) && R.Apply(c, With(y.s, list), a) == With(y'.s, list')
    requires y'.s.asyncQueue == [] && (Filling(y', list') || Emptying(y', list'))
    ensures Matched(c, y, list, y', list', [a])
  {
    OneStep(c, With(y.s, list), a);
    RR.InvKept(c, With(y.s, list), a);
  }

  lemma CallSends(y: System, list: seq<R.Record>, j: nat)
    requires Filling(y, list) && j < |y.calls|
    ensures Sends(y.s, y.calls[j].i) && y.calls[j].rec == RecordOf(y.s, y.calls[j].i)
    ensures y.calls[j].t < |y.q.threads|
  {
  }

  lemma EndStep(c: R.Config, y: System, list: seq<R.Record>, j: nat)
    requires Rel(c, y, list) && Enabled(c, y, EndSend(j))
    ensures Matched(c, y, list, Apply(c, y, EndSend(j)), list + [y.calls[j].rec], [R.Walk(y.calls[j].i, false, false)])
  {
    var y', x := Apply(c, y, EndSend(j)), y.calls[j];
    IsFilling(c, y, list);
    CallSends(y, list, j);
    SendIs(c, y.s, list, x.i);
    EndFilling(y, list, j, y');
    Visible(c, y, list, y', list + [x.rec], R.Walk(x.i, false, false));
  }

  lemma EndCalls(s: R.State, s': R.State, threads: seq<Q.Pc<R.Record>>, calls: seq<Call>, j: nat)
    requires CallsOk(s, threads, calls) && ThreadsOk(threads, calls) && j < |calls| && threads[calls[j].t].Idle?
    requires |s'.gs| == |s.gs| && forall k :: 0 <= k < |s.gs| && k != calls[j].i ==> s'.gs[k] == s.gs[k]
    ensures CallsOk(s', threads, calls[..j] + calls[j + 1..]) && ThreadsOk(threads, calls[..j] + calls[j + 1..])
  {
    var left := calls[..j] + calls[j + 1..];
    forall k | 0 <= k < |left|
      ensures Sends(s', left[k].i) && left[k].rec == RecordOf(s', left[k].i) && left[k].t < |threads|
    {
      assert left[k] == if k < j then calls[k] else calls[k + 1];
      assert left[k].i != calls[j].i;
    }
    forall t | 0 <= t < |threads| && !threads[t].Idle?
      ensures exists k :: 0 <= k < |left| && left[k].t == t
    {
      var k :| 0 <= k < |calls| && calls[k].t == t;
      assert left[if k < j then k else k - 1].t == t;
    }
  }

  // ---- draining ----

  lemma AllExited(c: R.Config, s: R.State)
    requires R.Inv(c, s) && !s.main.AwaitDrivers?
    ensures forall i :: 0 <= i < |s.gs| ==> s.gs[i].pc.Exited?
  {
    RR.AllAccounted(c, s);
  }

  /** When main is about to drain, every call has ended: what was assumed of the queue is a consequence. */
  lemma NoCalls(c: R.Config, y: System, list: seq<R.Record>)
    requires R.Inv(c, With(y.s, list)) && Filling(y, list) && y.s.main.Draining?
    ensures y.calls == [] && D.Quiescent(y.q)
    ensures multiset(y.q.mem.Contents()) == multiset(list)
  {
    AllExited(c, With(y.s, list));
    if y.calls != [] {
      CallSends(y, list, 0);
    }
    IdleThreads(y, list);
    SumZero(y.q.threads, D.Busy);
    D.AllIdle(y.q);
    forall v: R.Record
      ensures multiset(y.q.mem.Contents())[v] == multiset(list)[v]
    {
      HeldNow(y, list, v);
    }
  }

  lemma IdleThreads(y: System, list: seq<R.Record>)
    requires Filling(y, list) && y.calls == []
    ensures Q.Inv(y.q) && forall pc :: pc in y.q.threads ==> pc.Idle?
  {
  }

  lemma HeldNow(y: System, list: seq<R.Record>, v: R.Record)
    requires Filling(y, list) && y.calls == []
    ensures QR.Held(y.q, v) == multiset(list)[v]
  {
    assert Sum(y.calls, Carries(v)) == 0;
  }

  lemma StartStep(c: R.Config, y: System, list: seq<R.Record>)
    requires Rel(c, y, list) && Enabled(c, y, StartDrain)
    ensures Matched(c, y, list, Apply(c, y, StartDrain), list, [])
  {
    var y' := Apply(c, y, StartDrain);
    IsFilling(c, y, list);
    NoCalls(c, y, list);
    D.StartInv(y.q);
    forall v: R.Record
      ensures QR.Held(D.Start(y.q).q, v) == multiset(list)[v]
    {
      HeldNow(y, list, v);
    }
    Stutter(c, y, list, y');
  }

  lemma IsEmptying(c: R.Config, y: System, list: seq<R.Record>)
    requires Rel(c, y, list) && y.drain.Some?
    ensures Emptying(y, list)
  {
  }

  /** A drain that can move has not finished. */
  lemma StillDraining(y: System, list: seq<R.Record>, b: D.Action)
    requires Emptying(y, list) && D.Enabled(y.drain.value, b)
    ensures D.Inv(y.q, y.drain.value) && !y.drain.value.phase.Finished? && y.s.main.Draining? && y.calls == []
    ensures DR.SameRecords(y.drain.value, list)
  {
    if y.drain.value.phase.Finished? {
      DR.AllSent(y.q, y.drain.value);
    }
  }

  lemma HiddenRecords(q0: Q.Queue<R.Record>, d: D.Drain<R.Record>, list: seq<R.Record>, b: D.Action)
    requires D.Inv(q0, d) && DR.SameRecords(d, list) && D.Enabled(d, b) && !b.Send?
    ensures D.Inv(q0, D.Apply(d, b)) && DR.SameRecords(D.Apply(d, b), list)
  {
    var d' := D.Apply(d, b);
    D.StepKeepsInv(q0, d, b);
    forall v: R.Record
      ensures QR.Held(d'.q, v) == multiset(list)[v]
    {
      DR.HeldBySent(q0, d, d', v);
    }
  }

  lemma HiddenDrainStep(c: R.Config, y: System, list: seq<R.Record>, b: D.Action)
    requires Rel(c, y, list) && Enabled(c, y, DrainStep(b)) && !b.Send? && !b.Finish?
    ensures Matched(c, y, list, Apply(c, y, DrainStep(b)), list, [])
  {
    IsEmptying(c, y, list);
    StillDraining(y, list, b);
    HiddenRecords(y.q, y.drain.value, list, b);
    Stutter(c, y, list, Apply(c, y, DrainStep(b)));
  }

  lemma FinishDrainStep(c: R.Config, y: System, list: seq<R.Record>)
    requires Rel(c, y, list) && Enabled(c, y, DrainStep(D.Finish))
    ensures Matched(c, y, list, Apply(c, y, DrainStep(D.Finish)), list, [R.MainStep])
  {
    var y', d := Apply(c, y, DrainStep(D.Finish)), y.drain.value;
    IsEmptying(c, y, list);
    StillDraining(y, list, D.Finish);
    HiddenRecords(y.q, d, list, D.Finish);
    DR.AllSent(y.q, D.Apply(d, D.Finish));
    DR.NoRecords(D.Apply(d, D.Finish), list);
    Visible(c, y, list, y', list, R.MainStep);
  }

  /** Receiving a drained record is the run's own step. */
  lemma DrainOneIs(c: R.Config, s: R.State, list: seq<R.Record>, j: nat)
    requires s.main.Draining? && R.CollectorListens(s) && j < |list|
    ensures R.Enabled(c, With(s, list), R.DrainOne(j))
    ensures R.Apply(c, With(s, list), R.DrainOne(j)) == With(R.Receive(s, list[j]), list[..j] + list[j + 1..])
    ensures R.Receive(s, list[j]).asyncQueue == s.asyncQueue && R.Receive(s, list[j]).main == s.main
  {
  }

  lemma SendDrainStep(c: R.Config, y: System, list: seq<R.Record>, t: nat) returns (j: nat)
    requires Rel(c, y, list) && Enabled(c, y, DrainStep(D.Send(t)))
    ensures j < |list|
    ensures Matched(c, y, list, Apply(c, y, DrainStep(D.Send(t))), list[..j] + list[j + 1..], [R.DrainOne(j)])
  {
    var y', d := Apply(c, y, DrainStep(D.Send(t))), y.drain.value;
    IsEmptying(c, y, list);
    StillDraining(y, list, D.Send(t));
    j := DR.SendRecords(y.q, d, list, t);
    D.StepKeepsInv(y.q, d, D.Send(t));
    DrainOneIs(c, y.s, list, j);
    Visible(c, y, list, y', list[..j] + list[j + 1..], R.DrainOne(j));
  }

  // ---- whole runs ----

  /** Steps of the system that the run does not see. */
  predicate Hidden(act: Action)
  {
    act.BeginSend? || act.SendStep? || act.StartDrain? || (act.DrainStep? && !act.b.Send? && !act.b.Finish?)
  }

  /** Every step of the system is a step of the run, or none. */
  lemma StepRefines(c: R.Config, y: System, list: seq<R.Record>, act: Action)
      returns (list': seq<R.Record>, steps: seq<R.Action>)
    requires Rel(c, y, list) && Enabled(c, y, act)
    ensures Matched(c, y, list, Apply(c, y, act), list', steps)
    ensures |steps| <= 1 && (steps == [] ==> list' == list && Hidden(act))
  {
    list', steps := list, [];
    match act
    case Plain(a) =>
      steps := [a];
      PlainStep(c, y, list, a);
    case BeginSend(i) => BeginStep(c, y, list, i);
    case SendStep(j) => SendStepStep(c, y, list, j);
    case EndSend(j) =>
      list', steps := list + [y.calls[j].rec], [R.Walk(y.calls[j].i, false, false)];
      EndStep(c, y, list, j);
    case StartDrain => StartStep(c, y, list);
    case DrainStep(b) =>
      if b.Send? {
        var j := SendDrainStep(c, y, list, b.t);
        list', steps := list[..j] + list[j + 1..], [R.DrainOne(j)];
      } else if b.Finish? {
        steps := [R.MainStep];
        FinishDrainStep(c, y, list);
      } else {
        HiddenDrainStep(c, y, list, b);
      }
  }

  lemma Joined(c: R.Config, s: R.State, a: R.Action, r: R.State, rest: seq<R.Action>)
    requires R.Legal(c, s, [a]) && R.Exec(c, s, [a]) == r && R.Legal(c, r, rest)
    ensures R.Legal(c, s, [a] + rest) && R.Exec(c, s, [a] + rest) == R.Exec(c, r, rest)
  {
    OneStepBack(c, s, a);
    assert ([a] + rest)[1..] == rest;
  }

  lemma OneStepBack(c: R.Config, s: R.State, a: R.Action)
    requires R.Legal(c, s, [a])
    ensures R.Enabled(c, s, a) && R.Exec(c, s, [a]) == R.Apply(c, s, a)
  {
    assert [a][1..] == [];
  }

  lemma MatchedThen(c: R.Config, y: System, list: seq<R.Record>, y1: System, list1: seq<R.Record>, first: seq<R.Action>,
      y2: System, list2: seq<R.Record>, rest: seq<R.Action>)
    requires Matched(c, y, list, y1, list1, first) && |first| <= 1 && Matched(c, y1, list1, y2, list2, rest)
    ensures Matched(c, y, list, y2, list2, first + rest)
  {
    if first == [] {
      assert first + rest == rest;
    } else {
      assert first == [first[0]];
      Joined(c, With(y.s, list), first[0], With(y1.s, list1), rest);
    }
  }

  lemma {:induction false} RunRefinesFrom(c: R.Config, y: System, list: seq<R.Record>, run: seq<Action>)
      returns (list': seq<R.Record>, steps: seq<R.Action>)
    requires Rel(c, y, list) && Legal(c, y, run)
    ensures Matched(c, y, list, Exec(c, y, run), list', steps)
    decreases |run|
  {
    if run == [] {
      list', steps := list, [];
    } else {
      var y1 := Apply(c, y, run[0]);
      var list1, steps1 := StepRefines(c, y, list, run[0]);
      list', steps := RunRefinesFrom(c, y1, list1, run[1..]);
      MatchedThen(c, y, list, y1, list1, steps1, Exec(c, y1, run[1..]), list', steps);
      steps := steps1 + steps;
    }
  }

  // ---- the queue inside the system ----

  /** No call on the queue, in the run or in the drain, ever reports an empty queue or meets a nil pointer. */
  lemma QueueSafe(c: R.Config, y: System, list: seq<R.Record>)
    requires Rel(c, y, list)
    ensures y.drain.None? ==> forall pc :: pc in y.q.threads ==> !pc.DeqFatal? && !pc.NilDereference?
    ensures y.drain.Some? ==> forall pc :: pc in y.drain.value.q.threads ==> !pc.DeqFatal? && !pc.NilDereference?
  {
    if y.drain.None? {
      IsFilling(c, y, list);
      FillingSafe(y, list);
    } else {
      IsEmptying(c, y, list);
      DrainSafe(y.q, y.drain.value);
    }
  }

  lemma FillingSafe(y: System, list: seq<R.Record>)
    requires Filling(y, list)
    ensures forall pc :: pc in y.q.threads ==> !pc.DeqFatal? && !pc.NilDereference?
  {
  }

  lemma DrainSafe(q0: Q.Queue<R.Record>, d: D.Drain<R.Record>)
    requires D.Inv(q0, d)
    ensures forall pc :: pc in d.q.threads ==> !pc.DeqFatal? && !pc.NilDereference?
  {
    forall pc | pc in d.q.threads
      ensures !pc.DeqFatal? && !pc.NilDereference?
    {
      assert Q.ThreadOk(d.q.mem, pc) && D.Dequeuing(pc);
    }
  }

  // ---- no run gets stuck ----

  /** A goroutine that is sending can begin its call, take a step of it, or end it. */
  lemma SendProgress(c: R.Config, y: System, list: seq<R.Record>, i: nat)
    requires Filling(y, list) && Sends(y.s, i) && R.Enabled(c, y.s, R.Walk(i, false, false))
    ensures exists act :: Enabled(c, y, act)
  {
    if j :| 0 <= j < |y.calls| && y.calls[j].i == i {
      CallSends(y, list, j);
      assert Enabled(c, y, EndSend(j)) || Enabled(c, y, SendStep(j));
    } else {
      assert Enabled(c, y, BeginSend(i));
    }
  }

  lemma DrainProgress(c: R.Config, y: System, list: seq<R.Record>)
    requires Emptying(y, list) && !y.drain.value.phase.Finished? && R.CollectorListens(y.s)
    ensures exists act :: Enabled(c, y, act)
  {
    D.Progress(y.q, y.drain.value);
    var b :| D.Enabled(y.drain.value, b);
    assert Enabled(c, y, DrainStep(b));
  }

  lemma MoveProgress(c: R.Config, y: System, list: seq<R.Record>, a: R.Action)
    requires Rel(c, y, list) && R.Enabled(c, With(y.s, list), a) && !y.s.main.Draining?
    ensures exists act :: Enabled(c, y, act)
  {
    if a.Walk? && Sends(y.s, a.i) {
      R.MainWaits(c, With(y.s, list), a);
      WaitingFills(c, y, list);
      SendProgress(c, y, list, a.i);
    } else {
      assert Enabled(c, y, Plain(a));
    }
  }

  lemma WaitingFills(c: R.Config, y: System, list: seq<R.Record>)
    requires Rel(c, y, list) && y.s.main.AwaitDrivers?
    ensures Filling(y, list)
  {
  }

  lemma Listening(c: R.Config, s: R.State)
    requires R.Inv(c, s) && s.main.Draining? && |s.written| != R.MAX_INT64
    ensures R.CollectorListens(s)
  {
  }

  /** In every reachable state of the system something can move, unless main has ended or the placeholder was met. */
  lemma SystemProgress(c: R.Config, y: System, list: seq<R.Record>)
    requires Rel(c, y, list) && !y.s.main.Ended? && |y.s.written| != R.MAX_INT64
    ensures exists act :: Enabled(c, y, act)
  {
    if !y.s.main.Draining? {
      RR.Progress(c, With(y.s, list));
      var a :| R.Enabled(c, With(y.s, list), a);
      MoveProgress(c, y, list, a);
    } else if y.drain.None? {
      assert Enabled(c, y, StartDrain);
    } else {
      IsEmptying(c, y, list);
      Listening(c, With(y.s, list));
      DrainProgress(c, y, list);
    }
  }

  // ---- every run ends ----

  /** Goroutines without a call, and the drain while it has not begun. */
  function Unbegun(y: System): int
  {
    |y.s.gs| - |y.calls| + if y.drain.None? then 1 else 0
  }

  /** Work left for the calls that are under way. */
  ghost function Busywork(y: System): int
  {
    if y.drain.Some? then D.Cost(y.q, y.drain.value) else QP.EnqWork(y.q, |y.q.threads|)
  }

  /** Comes first, in lexicographic order: the run's own cost, then what has not begun, then the work of the calls. */
  ghost predicate Closer(c: R.Config, y': System, list': seq<R.Record>, y: System, list: seq<R.Record>)
    requires |y'.s.ds| == |y.s.ds| == |c.drivers|
  {
    var n', n := RR.Cost(c, With(y'.s, list')), RR.Cost(c, With(y.s, list));
    n' < n || (n' == n && (Unbegun(y') < Unbegun(y) || (Unbegun(y') == Unbegun(y) && Busywork(y') < Busywork(y))))
  }

  function Callers(calls: seq<Call>): set<nat>
  {
    set j | 0 <= j < |calls| :: calls[j].i
  }

  lemma {:induction false} CallersSize(s: R.State, threads: seq<Q.Pc<R.Record>>, calls: seq<Call>)
    requires CallsOk(s, threads, calls)
    ensures |Callers(calls)| == |calls|
    decreases |calls|
  {
    if calls != [] {
      var n := |calls| - 1;
      CallersSize(s, threads, calls[..n]);
      assert Callers(calls) == Callers(calls[..n]) + {calls[n].i};
      assert calls[n].i !in Callers(calls[..n]);
    }
  }

  function Below(n: nat): (r: set<nat>)
    ensures |r| == n && forall i: nat :: i in r <==> i < n
  {
    if n == 0 then {} else Below(n - 1) + {n - 1}
  }

  lemma SubsetSize<T>(a: set<T>, b: set<T>)
    requires a <= b
    ensures |a| <= |b|
  {
    assert b == a + (b - a);
  }

  /** No more calls than goroutines, so what has not begun is never negative. */
  lemma MeasureBounded(c: R.Config, y: System, list: seq<R.Record>)
    requires Rel(c, y, list)
    ensures Unbegun(y) >= 0 && Busywork(y) >= 0
  {
    if y.drain.None? {
      IsFilling(c, y, list);
      CallersSize(y.s, y.q.threads, y.calls);
      SubsetSize(Callers(y.calls), Below(|y.s.gs|));
    } else {
      IsEmptying(c, y, list);
      DrainBounded(y.q, y.drain.value);
    }
  }

  lemma DrainBounded(q0: Q.Queue<R.Record>, d: D.Drain<R.Record>)
    requires D.Inv(q0, d)
    ensures D.Cost(q0, d) >= 0
  {
  }

  lemma CallEnqueues(y: System, list: seq<R.Record>, j: nat)
    requires Filling(y, list) && j < |y.calls| && Q.Enabled(y.q, Q.Advance(y.calls[j].t))
    ensures Q.Inv(y.q) && Q.InEnqueue(y.q.threads[y.calls[j].t])
  {
  }

  lemma HiddenCloser(c: R.Config, y: System, list: seq<R.Record>, act: Action)
    requires Rel(c, y, list) && Enabled(c, y, act) && Hidden(act)
    ensures var y' := Apply(c, y, act);
      && y'.s == y.s
      && (Unbegun(y') < Unbegun(y) || (Unbegun(y') == Unbegun(y) && Busywork(y') < Busywork(y)))
  {
    if act.SendStep? {
      IsFilling(c, y, list);
      CallEnqueues(y, list, act.j);
      QP.EnqueueWorks(y.q, |y.q.threads|, y.calls[act.j].t);
    } else if act.DrainStep? {
      IsEmptying(c, y, list);
      StillDraining(y, list, act.b);
      DD.CostDrops(y.q, y.drain.value, act.b);
    }
  }

  lemma RelDrivers(c: R.Config, y: System, list: seq<R.Record>)
    requires Rel(c, y, list)
    ensures |y.s.ds| == |c.drivers| && R.Inv(c, With(y.s, list))
  {
  }

  lemma VisibleCloser(c: R.Config, s: R.State, a: R.Action)
    requires R.Inv(c, s) && R.Legal(c, s, [a])
    ensures |s.ds| == |c.drivers| == |R.Exec(c, s, [a]).ds| && RR.Cost(c, R.Exec(c, s, [a])) < RR.Cost(c, s)
  {
    OneStepBack(c, s, a);
    RR.CostDrops(c, s, a);
  }

  lemma MatchedCloser(c: R.Config, y: System, list: seq<R.Record>, y': System, list': seq<R.Record>,
      steps: seq<R.Action>)
    requires Rel(c, y, list) && Matched(c, y, list, y', list', steps) && |steps| <= 1
    requires steps == [] ==>
      && list' == list && y'.s == y.s
      && (Unbegun(y') < Unbegun(y) || (Unbegun(y') == Unbegun(y) && Busywork(y') < Busywork(y)))
    ensures |y'.s.ds| == |y.s.ds| == |c.drivers| && Closer(c, y', list', y, list)
  {
    RelDrivers(c, y, list);
    RelDrivers(c, y', list');
    if steps != [] {
      assert steps == [steps[0]];
      VisibleCloser(c, With(y.s, list), steps[0]);
    }
  }
}
