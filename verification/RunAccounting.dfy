/**
 A whole run of the loader: function drivers start invocations, every invocation walks a
 DAG of functions with one goroutine per list, records reach the collector directly or
 through the queue of asynchronous records, and the collector decides when everything has
 been written.  The outcome of each call of `Invoke` is arbitrary, and so is the schedule.
 `WaitGroup.Add` and the `go` statement that follows it are one step.
 */
module RunAccounting {
  import opened SeqSums

  /** A DAG node: the function it runs and the lists that branch off after it. */
  datatype Node = Node(id: nat, branches: seq<Branch>)

  datatype Branch = Branch(nodes: seq<Node>)

  /** One function driver: the list it invokes and how many times. */
  datatype DriverSpec = DriverSpec(root: seq<Node>, count: nat)

  datatype Config = Config(drivers: seq<DriverSpec>, dagMode: bool, asyncMode: bool)

  /** Invocation `inv` of driver `driver` ran `node`, with success or without. */
  datatype Record = Record(driver: nat, inv: nat, node: nat, ok: bool)

  datatype Pc =
    | AtNode                            // top of the loop
    | Sending(ok: bool, async: bool)    // has a record, not handed over yet
    | Issuing(ok: bool)                 // before FunctionsInvoked is incremented
    | Counting(ok: bool)                // before SuccessCount or FailedCount is incremented
    | Forking(next: nat)                // branches from `next` on not started yet
    | Exited

  /** invokeFunction walking `list`; `rest` starts at the current node, `prev` is the node that led there. */
  datatype Goroutine = Goroutine(
    driver: nat, inv: nat, list: seq<Node>, prev: Option<nat>, rest: seq<Node>, retries: nat, invokes: nat, pc: Pc)

  datatype Stage = Looping | AddSuccess | AddFailed | AddIssued | Finished

  datatype Driver = Driver(stage: Stage, next: nat, wg: int, success: nat, failed: nat, issued: nat)

  datatype Main = AwaitDrivers | Draining | SendTotal | AwaitWritten | Ended

  /** totalNumberOfInvocations before the total arrives: math.MaxInt64. */
  const MAX_INT64: int := 0x7FFF_FFFF_FFFF_FFFF

  /** `log` is a history of all records in the order in which they were handed over. */
  datatype State = State(
    gs: seq<Goroutine>, ds: seq<Driver>, main: Main,
    totalSuccess: nat, totalFailed: nat, totalIssued: nat,
    asyncQueue: seq<Record>, written: seq<Record>, expected: int, closes: nat,
    log: seq<Record>)

  datatype Action =
    | Walk(i: nat, ok: bool, async: bool)
    | StartInvocation(d: nat)
    | DriverStep(d: nat)
    | MainStep
    | DrainOne(j: nat)

  function Init(c: Config): State
  {
    State([], seq(|c.drivers|, _ => Driver(Looping, 0, 0, 0, 0, 0)), AwaitDrivers, 0, 0, 0, [], [], MAX_INT64, 0, [])
  }

  // ---- one step of invokeFunction ----

  /** What a goroutine's step changes: itself, its children, its record and the driver's counters. */
  datatype Effect = Effect(
    g: Goroutine, spawned: seq<Goroutine>, rec: seq<Record>, async: bool,
    wg: int, success: nat, failed: nat, issued: nat)

  function Quiet(g: Goroutine): Effect
  {
    Effect(g, [], [], false, 0, 0, 0, 0)
  }

  function StartOf(driver: nat, inv: nat, prev: Option<nat>, list: seq<Node>): Goroutine
  {
    Goroutine(driver, inv, list, prev, list, 0, 0, AtNode)
  }

  function StepOf(c: Config, g: Goroutine, ok: bool, async: bool): Effect
  {
    if g.rest == [] then
      Quiet(g.(pc := Exited)).(wg := -1)
    else
      var node := g.rest[0];
      match g.pc
      case AtNode =>
        if !ok && c.dagMode && g.retries == 0 then
          Quiet(g.(retries := 1, invokes := g.invokes + 1))
        else
          Quiet(g.(invokes := g.invokes + 1, pc := Sending(ok, async && c.asyncMode)))
      case Sending(ok, async) =>
        Quiet(g.(pc := Issuing(ok))).(rec := [Record(g.driver, g.inv, node.id, ok)], async := async)
      case Issuing(ok) => Quiet(g.(pc := Counting(ok))).(issued := 1)
      case Counting(ok) =>
        if ok then Quiet(g.(pc := Forking(0))).(success := 1)
        else Quiet(g.(rest := [], pc := AtNode)).(failed := 1)
      case Forking(next) =>
        if next < |node.branches| then
          Quiet(g.(pc := Forking(next + 1))).(
            spawned := [StartOf(g.driver, g.inv, Some(node.id), node.branches[next].nodes)], wg := 1)
        else
          Quiet(g.(prev := Some(node.id), rest := g.rest[1..], pc := AtNode))
      case Exited => Quiet(g)
  }

  // ---- one step of the run ----

  /** The collector's select loop takes one record, then tests whether it is done. */
  function Receive(s: State, r: Record): State
  {
    Check(s.(written := s.written + [r]))
  }

  function Check(s: State): State
  {
    if |s.written| == s.expected then s.(closes := s.closes + 1) else s
  }

  predicate CollectorListens(s: State)
  {
    s.closes == 0
  }

  predicate Enabled(c: Config, s: State, a: Action)
  {
    match a
    case Walk(i, _, _) =>
      && i < |s.gs| && !s.gs[i].pc.Exited? && s.gs[i].driver < |s.ds|
      && (s.gs[i].pc.Sending? && !s.gs[i].pc.async ==> CollectorListens(s))
    case StartInvocation(d) =>
      d < |s.ds| && d < |c.drivers| && s.ds[d].stage.Looping? && s.ds[d].next < c.drivers[d].count
    case DriverStep(d) =>
      && d < |s.ds| && d < |c.drivers| && !s.ds[d].stage.Finished?
      && (s.ds[d].stage.Looping? ==> s.ds[d].next == c.drivers[d].count && s.ds[d].wg == 0)
    case MainStep =>
      (match s.main
       case AwaitDrivers => forall d :: 0 <= d < |s.ds| ==> s.ds[d].stage.Finished?
       case Draining => s.asyncQueue == []
       case SendTotal => CollectorListens(s)
       case AwaitWritten => s.closes > 0
       case Ended => false)
    case DrainOne(j) => s.main.Draining? && j < |s.asyncQueue| && CollectorListens(s)
  }

  function Apply(c: Config, s: State, a: Action): State
    requires Enabled(c, s, a)
  {
    match a
    case Walk(i, ok, async) => WalkStep(s, i, StepOf(c, s.gs[i], ok, async))
    case StartInvocation(d) =>
      s.(gs := s.gs + [StartOf(d, s.ds[d].next, None, c.drivers[d].root)],
         ds := s.ds[d := s.ds[d].(next := s.ds[d].next + 1, wg := s.ds[d].wg + 1)])
    case DriverStep(d) =>
      var x := s.ds[d];
      (match x.stage
       case Looping => s.(ds := s.ds[d := x.(stage := if c.drivers[d].count == 0 then Finished else AddSuccess)])
       case AddSuccess => s.(ds := s.ds[d := x.(stage := AddFailed)], totalSuccess := s.totalSuccess + x.success)
       case AddFailed => s.(ds := s.ds[d := x.(stage := AddIssued)], totalFailed := s.totalFailed + x.failed)
       case AddIssued => s.(ds := s.ds[d := x.(stage := Finished)], totalIssued := s.totalIssued + x.issued)
       case Finished => s)
    case MainStep =>
      (match s.main
       case AwaitDrivers =>
         s.(main := if s.totalSuccess + s.totalFailed == 0 then Ended else if c.asyncMode then Draining else SendTotal)
       case Draining => s.(main := SendTotal)
       case SendTotal => Check(s.(main := AwaitWritten, expected := s.totalIssued))
       case AwaitWritten => s.(main := Ended)
       case Ended => s)
    case DrainOne(j) =>
      Receive(s.(asyncQueue := s.asyncQueue[..j] + s.asyncQueue[j + 1..]), s.asyncQueue[j])
  }

  function WalkStep(s: State, i: nat, e: Effect): State
    requires i < |s.gs| && s.gs[i].driver < |s.ds|
  {
    var d := s.gs[i].driver;
    var x := s.ds[d];
    var r := s.(
      gs := s.gs[i := e.g] + e.spawned,
      ds := s.ds[d := Driver(x.stage, x.next, x.wg + e.wg, x.success + e.success, x.failed + e.failed,
        x.issued + e.issued)],
      log := s.log + e.rec);
    if e.rec == [] then r
    else if e.async then r.(asyncQueue := r.asyncQueue + e.rec)
    else Receive(r, e.rec[0])
  }

  predicate Legal(c: Config, s: State, run: seq<Action>)
    decreases |run|
  {
    run == [] || (Enabled(c, s, run[0]) && Legal(c, Apply(c, s, run[0]), run[1..]))
  }

  function Exec(c: Config, s: State, run: seq<Action>): State
    requires Legal(c, s, run)
    decreases |run|
  {
    if run == [] then s else Exec(c, Apply(c, s, run[0]), run[1..])
  }

  // ---- the shape of goroutines and drivers ----

  /** A walk calls `Invoke` once per node it has reached and at most once more. */
  ghost predicate WalkOk(g: Goroutine)
  {
    && g.retries <= 1
    && (g.pc.AtNode? || g.pc.Exited? || g.rest != [])
    && (g.pc.Forking? ==> g.pc.next <= |g.rest[0].branches|)
    && g.invokes + |g.rest| <= |g.list| + g.retries + (if g.pc.AtNode? || g.pc.Exited? then 0 else 1)
  }

  ghost predicate ShapeOk(c: Config, s: State)
  {
    && |s.ds| == |c.drivers|
    && (forall g :: g in s.gs ==> WalkOk(g) && g.driver < |s.ds| && (g.pc.Sending? && g.pc.async ==> c.asyncMode))
    && (forall g :: g in s.gs ==> g.driver < |c.drivers| && g.inv < c.drivers[g.driver].count)
    && (forall d :: 0 <= d < |s.ds| ==> s.ds[d].next <= c.drivers[d].count)
    && (forall d :: 0 <= d < |s.ds| && !s.ds[d].stage.Looping? ==> s.ds[d].next == c.drivers[d].count)
  }

  lemma StepShape(c: Config, g: Goroutine, ok: bool, async: bool)
    requires WalkOk(g) && !g.pc.Exited? && (g.pc.Sending? && g.pc.async ==> c.asyncMode)
    ensures var e := StepOf(c, g, ok, async);
      && WalkOk(e.g) && e.g.driver == g.driver && e.g.inv == g.inv
      && (e.g.pc.Sending? && e.g.pc.async ==> c.asyncMode)
      && |e.rec| <= 1 && (e.async ==> c.asyncMode)
      && (forall h :: h in e.spawned ==> WalkOk(h) && h.driver == g.driver && h.inv == g.inv && h.pc.AtNode?)
  {
  }

  lemma WalkShape(c: Config, s: State, i: nat, e: Effect)
    requires ShapeOk(c, s) && i < |s.gs| && s.gs[i].driver < |s.ds|
    requires forall h :: h == e.g || h in e.spawned ==>
      && WalkOk(h) && h.driver == s.gs[i].driver && h.inv == s.gs[i].inv
      && (h.pc.Sending? && h.pc.async ==> c.asyncMode)
    ensures ShapeOk(c, WalkStep(s, i, e))
  {
    var r := WalkStep(s, i, e);
    forall h | h in r.gs
      ensures h in s.gs || h == e.g || h in e.spawned
    {
    }
    assert s.gs[i] in s.gs;
  }

  lemma OtherShape(c: Config, s: State, a: Action)
    requires ShapeOk(c, s) && Enabled(c, s, a) && !a.Walk?
    ensures ShapeOk(c, Apply(c, s, a))
  {
  }

  lemma ShapeKept(c: Config, s: State, a: Action)
    requires ShapeOk(c, s) && Enabled(c, s, a)
    ensures ShapeOk(c, Apply(c, s, a))
  {
    if a.Walk? {
      assert s.gs[a.i] in s.gs;
      StepShape(c, s.gs[a.i], a.ok, a.async);
      WalkShape(c, s, a.i, StepOf(c, s.gs[a.i], a.ok, a.async));
    } else {
      OtherShape(c, s, a);
    }
  }

  // ---- sums over the goroutines after a step ----

  lemma WalkSum(s: State, i: nat, e: Effect, f: Goroutine -> nat)
    requires i < |s.gs| && s.gs[i].driver < |s.ds|
    ensures Sum(WalkStep(s, i, e).gs, f) + f(s.gs[i]) == Sum(s.gs, f) + f(e.g) + Sum(e.spawned, f)
  {
    SumUpdate(s.gs, i, e.g, f);
    SumConcat(s.gs[i := e.g], e.spawned, f);
  }

  lemma SumOne<T>(x: T, f: T -> nat)
    ensures Sum([x], f) == f(x)
  {
    SumAppend([], x, f);
    assert [] + [x] == [x];
  }

  // ---- the WaitGroup counts live goroutines ----

  function LiveIn(d: nat): Goroutine -> nat
  {
    (g: Goroutine) => if g.driver == d && !g.pc.Exited? then 1 else 0
  }

  ghost predicate WaitGroupOk(s: State, d: nat)
    requires d < |s.ds|
  {
    && s.ds[d].wg == Sum(s.gs, LiveIn(d))
    && (!s.ds[d].stage.Looping? ==> s.ds[d].wg == 0)
  }

  lemma StepWaitGroup(c: Config, g: Goroutine, ok: bool, async: bool, d: nat)
    requires !g.pc.Exited?
    ensures var e := StepOf(c, g, ok, async);
      LiveIn(d)(e.g) + Sum(e.spawned, LiveIn(d)) == LiveIn(d)(g) + (if g.driver == d then e.wg else 0)
  {
    var e := StepOf(c, g, ok, async);
    if e.spawned != [] {
      SumOne(e.spawned[0], LiveIn(d));
    }
  }

  lemma WalkWaitGroup(s: State, i: nat, e: Effect, d: nat)
    requires d < |s.ds| && WaitGroupOk(s, d) && i < |s.gs| && s.gs[i].driver < |s.ds| && !s.gs[i].pc.Exited?
    requires LiveIn(d)(e.g) + Sum(e.spawned, LiveIn(d))
          == LiveIn(d)(s.gs[i]) + (if s.gs[i].driver == d then e.wg else 0)
    ensures WaitGroupOk(WalkStep(s, i, e), d)
  {
    WalkSum(s, i, e, LiveIn(d));
    SumAtLeast(s.gs, i, LiveIn(d));
  }

  lemma StartWaitGroup(c: Config, s: State, d0: nat, d: nat)
    requires d < |s.ds| && WaitGroupOk(s, d) && Enabled(c, s, StartInvocation(d0))
    ensures var r := Apply(c, s, StartInvocation(d0)); d < |r.ds| && WaitGroupOk(r, d)
  {
    SumAppend(s.gs, StartOf(d0, s.ds[d0].next, None, c.drivers[d0].root), LiveIn(d));
  }

  lemma DriverWaitGroup(c: Config, s: State, d0: nat, d: nat)
    requires d < |s.ds| && WaitGroupOk(s, d) && Enabled(c, s, DriverStep(d0))
    ensures var r := Apply(c, s, DriverStep(d0)); d < |r.ds| && WaitGroupOk(r, d)
  {
    var r := Apply(c, s, DriverStep(d0));
    assert r.gs == s.gs && r.ds[d].wg == s.ds[d].wg;
  }

  lemma OtherWaitGroup(c: Config, s: State, a: Action, d: nat)
    requires d < |s.ds| && WaitGroupOk(s, d) && Enabled(c, s, a) && !a.Walk?
    ensures d < |Apply(c, s, a).ds| && WaitGroupOk(Apply(c, s, a), d)
  {
    if a.StartInvocation? {
      StartWaitGroup(c, s, a.d, d);
    } else if a.DriverStep? {
      DriverWaitGroup(c, s, a.d, d);
    } else {
      assert Apply(c, s, a).gs == s.gs && Apply(c, s, a).ds == s.ds;
    }
  }

  // ---- counters against records ----

  function Unissued(g: Goroutine): nat { if g.pc.Issuing? then 1 else 0 }

  /** Handed over a record with this outcome, not yet counted it. */
  function Uncounted(ok: bool): Goroutine -> nat
  {
    (g: Goroutine) => if (g.pc.Issuing? || g.pc.Counting?) && g.pc.ok == ok then 1 else 0
  }

  function Outcome(ok: bool): Record -> nat
  {
    (r: Record) => if r.ok == ok then 1 else 0
  }

  function Issued(x: Driver): nat { x.issued }
  function Success(x: Driver): nat { x.success }
  function Failed(x: Driver): nat { x.failed }

  // What a driver has already added to the totals.
  function AddedSuccess(x: Driver): nat { if x.stage.Looping? || x.stage.AddSuccess? then 0 else x.success }
  function AddedFailed(x: Driver): nat { if x.stage.AddIssued? || x.stage.Finished? then x.failed else 0 }
  function AddedIssued(x: Driver): nat { if x.stage.Finished? then x.issued else 0 }

  /** Issued, successful and failed invocations are the records handed over, up to goroutines in between. */
  ghost predicate TallyOk(s: State)
  {
    && |s.log| == Sum(s.ds, Issued) + Sum(s.gs, Unissued)
    && Sum(s.log, Outcome(true)) == Sum(s.ds, Success) + Sum(s.gs, Uncounted(true))
    && Sum(s.log, Outcome(false)) == Sum(s.ds, Failed) + Sum(s.gs, Uncounted(false))
  }

  ghost predicate TotalsOk(s: State)
  {
    && s.totalSuccess == Sum(s.ds, AddedSuccess)
    && s.totalFailed == Sum(s.ds, AddedFailed)
    && s.totalIssued == Sum(s.ds, AddedIssued)
    && (forall x :: x in s.ds && x.stage.Looping? && x.next == 0 ==>
          x.wg == 0 && x.success == x.failed == x.issued == 0)
  }

  lemma StepTally(c: Config, g: Goroutine, ok: bool, async: bool)
    requires WalkOk(g) && !g.pc.Exited?
    ensures var e := StepOf(c, g, ok, async);
      && Unissued(e.g) + e.issued == Unissued(g) + |e.rec|
      && Uncounted(true)(e.g) + e.success == Uncounted(true)(g) + Sum(e.rec, Outcome(true))
      && Uncounted(false)(e.g) + e.failed == Uncounted(false)(g) + Sum(e.rec, Outcome(false))
      && Sum(e.spawned, Unissued) == Sum(e.spawned, Uncounted(true)) == Sum(e.spawned, Uncounted(false)) == 0
  {
    var e := StepOf(c, g, ok, async);
    if e.rec != [] {
      SumOne(e.rec[0], Outcome(true));
      SumOne(e.rec[0], Outcome(false));
    }
    if e.spawned != [] {
      SumOne(e.spawned[0], Unissued);
      SumOne(e.spawned[0], Uncounted(true));
      SumOne(e.spawned[0], Uncounted(false));
    }
  }

  lemma WalkTally(s: State, i: nat, e: Effect)
    requires TallyOk(s) && i < |s.gs| && s.gs[i].driver < |s.ds|
    requires Unissued(e.g) + e.issued == Unissued(s.gs[i]) + |e.rec|
    requires Uncounted(true)(e.g) + e.success == Uncounted(true)(s.gs[i]) + Sum(e.rec, Outcome(true))
    requires Uncounted(false)(e.g) + e.failed == Uncounted(false)(s.gs[i]) + Sum(e.rec, Outcome(false))
    requires Sum(e.spawned, Unissued) == Sum(e.spawned, Uncounted(true)) == Sum(e.spawned, Uncounted(false)) == 0
    ensures TallyOk(WalkStep(s, i, e))
  {
    var d, r := s.gs[i].driver, WalkStep(s, i, e);
    WalkSum(s, i, e, Unissued);
    WalkSum(s, i, e, Uncounted(true));
    WalkSum(s, i, e, Uncounted(false));
    SumConcat(s.log, e.rec, Outcome(true));
    SumConcat(s.log, e.rec, Outcome(false));
    SumUpdate(s.ds, d, r.ds[d], Issued);
    SumUpdate(s.ds, d, r.ds[d], Success);
    SumUpdate(s.ds, d, r.ds[d], Failed);
  }

  lemma StartTally(gs: seq<Goroutine>, g: Goroutine)
    requires g.pc.AtNode?
    ensures Sum(gs + [g], Unissued) == Sum(gs, Unissued)
    ensures Sum(gs + [g], Uncounted(true)) == Sum(gs, Uncounted(true))
    ensures Sum(gs + [g], Uncounted(false)) == Sum(gs, Uncounted(false))
  {
    SumAppend(gs, g, Unissued);
    SumAppend(gs, g, Uncounted(true));
    SumAppend(gs, g, Uncounted(false));
  }

  lemma DriverTally(c: Config, s: State, a: Action)
    requires TallyOk(s) && Enabled(c, s, a) && (a.StartInvocation? || a.DriverStep?)
    ensures TallyOk(Apply(c, s, a))
  {
    var r := Apply(c, s, a);
    if a.StartInvocation? {
      StartTally(s.gs, StartOf(a.d, s.ds[a.d].next, None, c.drivers[a.d].root));
    }
    assert r.ds == s.ds[a.d := r.ds[a.d]] && r.log == s.log;
    DriverSums(s.ds, a.d, r.ds[a.d]);
  }

  lemma TallyKept(c: Config, s: State, a: Action)
    requires ShapeOk(c, s) && TallyOk(s) && Enabled(c, s, a)
    ensures TallyOk(Apply(c, s, a))
  {
    if a.Walk? {
      StepTally(c, s.gs[a.i], a.ok, a.async);
      WalkTally(s, a.i, StepOf(c, s.gs[a.i], a.ok, a.async));
    } else if a.StartInvocation? || a.DriverStep? {
      DriverTally(c, s, a);
    } else {
      var r := Apply(c, s, a);
      assert r.ds == s.ds && r.gs == s.gs && r.log == s.log;
    }
  }

  lemma DriverSums(ds: seq<Driver>, d: nat, x: Driver)
    requires d < |ds| && x.issued == ds[d].issued && x.success == ds[d].success && x.failed == ds[d].failed
    ensures Sum(ds[d := x], Issued) == Sum(ds, Issued)
    ensures Sum(ds[d := x], Success) == Sum(ds, Success)
    ensures Sum(ds[d := x], Failed) == Sum(ds, Failed)
  {
    SumUpdate(ds, d, x, Issued);
    SumUpdate(ds, d, x, Success);
    SumUpdate(ds, d, x, Failed);
  }

  lemma AddedSums(ds: seq<Driver>, d: nat, x: Driver)
    requires d < |ds|
    ensures Sum(ds[d := x], AddedSuccess) + AddedSuccess(ds[d]) == Sum(ds, AddedSuccess) + AddedSuccess(x)
    ensures Sum(ds[d := x], AddedFailed) + AddedFailed(ds[d]) == Sum(ds, AddedFailed) + AddedFailed(x)
    ensures Sum(ds[d := x], AddedIssued) + AddedIssued(ds[d]) == Sum(ds, AddedIssued) + AddedIssued(x)
  {
    SumUpdate(ds, d, x, AddedSuccess);
    SumUpdate(ds, d, x, AddedFailed);
    SumUpdate(ds, d, x, AddedIssued);
  }

  lemma WalkTotals(s: State, i: nat, e: Effect)
    requires TotalsOk(s) && i < |s.gs| && s.gs[i].driver < |s.ds| && !s.gs[i].pc.Exited?
    requires WaitGroupOk(s, s.gs[i].driver)
    ensures TotalsOk(WalkStep(s, i, e))
  {
    var d, r := s.gs[i].driver, WalkStep(s, i, e);
    SumAtLeast(s.gs, i, LiveIn(d));
    assert s.ds[d] in s.ds;
    AddedSums(s.ds, d, r.ds[d]);
  }

  lemma DriverTotals(c: Config, s: State, d: nat)
    requires ShapeOk(c, s) && TotalsOk(s) && Enabled(c, s, DriverStep(d))
    ensures TotalsOk(Apply(c, s, DriverStep(d)))
  {
    assert s.ds[d] in s.ds;
    AddedSums(s.ds, d, Apply(c, s, DriverStep(d)).ds[d]);
  }

  lemma StartTotals(c: Config, s: State, d: nat)
    requires TotalsOk(s) && Enabled(c, s, StartInvocation(d))
    ensures TotalsOk(Apply(c, s, StartInvocation(d)))
  {
    AddedSums(s.ds, d, Apply(c, s, StartInvocation(d)).ds[d]);
  }

  lemma TotalsKept(c: Config, s: State, a: Action)
    requires ShapeOk(c, s) && TotalsOk(s) && Enabled(c, s, a)
    requires forall d :: 0 <= d < |s.ds| ==> WaitGroupOk(s, d)
    ensures TotalsOk(Apply(c, s, a))
  {
    if a.Walk? {
      assert WaitGroupOk(s, s.gs[a.i].driver);
      WalkTotals(s, a.i, StepOf(c, s.gs[a.i], a.ok, a.async));
    } else if a.DriverStep? {
      DriverTotals(c, s, a.d);
    } else if a.StartInvocation? {
      StartTotals(c, s, a.d);
    }
  }

  // ---- channels and the collector ----

  ghost predicate DriversDone(s: State)
  {
    forall x :: x in s.ds ==> x.stage.Finished?
  }

  /** Every record handed over is written or in the queue of asynchronous records. */
  ghost predicate ChannelOk(c: Config, s: State)
  {
    && multiset(s.written) + multiset(s.asyncQueue) == multiset(s.log)
    && |s.written| + |s.asyncQueue| == |s.log|
    && (!c.asyncMode || s.main.SendTotal? || s.main.AwaitWritten? ==> s.asyncQueue == [])
  }

  /** The collector has closed its output exactly if it has written what it expects. */
  ghost predicate CollectorOk(s: State)
  {
    && s.closes == (if |s.written| == s.expected then 1 else 0)
    && (!s.main.AwaitDrivers? ==> DriversDone(s))
    && (!s.main.AwaitDrivers? && !s.main.Ended? ==> s.totalSuccess + s.totalFailed != 0)
    && match s.main
       case AwaitWritten => s.expected == s.totalIssued && s.closes == 1
       case Ended =>
         if s.totalSuccess + s.totalFailed == 0 then s.expected == MAX_INT64
         else s.expected == s.totalIssued && s.closes == 1 && s.asyncQueue == []
       case _ => s.expected == MAX_INT64
  }

  /** All of the above; written as one equation so that the verifier carries it as a unit. */
  ghost predicate Inv(c: Config, s: State)
  {
    true == (
      && ShapeOk(c, s) && (forall d :: 0 <= d < |s.ds| ==> WaitGroupOk(s, d))
      && TallyOk(s) && TotalsOk(s) && ChannelOk(c, s) && CollectorOk(s))
  }

  lemma WalkChannel(c: Config, s: State, i: nat, e: Effect)
    requires ChannelOk(c, s) && i < |s.gs| && s.gs[i].driver < |s.ds| && s.main.AwaitDrivers?
    requires |e.rec| <= 1 && (e.async ==> c.asyncMode)
    ensures ChannelOk(c, WalkStep(s, i, e))
  {
    var r := WalkStep(s, i, e);
    if e.rec == [] {
      assert r.written == s.written && r.asyncQueue == s.asyncQueue && r.log == s.log;
    } else if e.async {
      assert e.rec == [e.rec[0]];
      assert r.written == s.written && r.asyncQueue == s.asyncQueue + [e.rec[0]] && r.log == s.log + [e.rec[0]];
    } else {
      assert e.rec == [e.rec[0]];
      assert r.written == s.written + [e.rec[0]] && r.asyncQueue == s.asyncQueue && r.log == s.log + [e.rec[0]];
    }
  }

  lemma DrainChannel(c: Config, s: State, j: nat)
    requires ChannelOk(c, s) && Enabled(c, s, DrainOne(j))
    ensures ChannelOk(c, Apply(c, s, DrainOne(j)))
  {
    var r, left := Apply(c, s, DrainOne(j)), s.asyncQueue[..j] + s.asyncQueue[j + 1..];
    assert r.written == s.written + [s.asyncQueue[j]] && r.asyncQueue == left && r.log == s.log && r.main == s.main;
    MoveRecord(s.written, s.asyncQueue, s.log, j);
  }

  lemma MoveRecord(written: seq<Record>, queue: seq<Record>, log: seq<Record>, j: nat)
    requires j < |queue| && multiset(written) + multiset(queue) == multiset(log)
    ensures multiset(written + [queue[j]]) + multiset(queue[..j] + queue[j + 1..]) == multiset(log)
  {
    TakeOut(queue, j);
  }

  lemma OtherChannel(c: Config, s: State, a: Action)
    requires ChannelOk(c, s) && Enabled(c, s, a) && !a.Walk?
    ensures ChannelOk(c, Apply(c, s, a))
  {
    if a.DrainOne? {
      DrainChannel(c, s, a.j);
    } else {
      var r := Apply(c, s, a);
      assert r.written == s.written && r.asyncQueue == s.asyncQueue && r.log == s.log;
    }
  }

  /** A driver that can still do something, or a live goroutine, means main is still waiting for the drivers. */
  lemma MainWaits(c: Config, s: State, a: Action)
    requires Inv(c, s) && Enabled(c, s, a) && (a.Walk? || a.StartInvocation? || a.DriverStep?)
    ensures s.main.AwaitDrivers?
  {
    var d := if a.Walk? then s.gs[a.i].driver else a.d;
    assert s.ds[d] in s.ds && WaitGroupOk(s, d);
    if a.Walk? {
      SumAtLeast(s.gs, a.i, LiveIn(d));
    }
  }

  lemma WalkCollector(s: State, i: nat, e: Effect)
    requires CollectorOk(s) && i < |s.gs| && s.gs[i].driver < |s.ds| && s.main.AwaitDrivers?
    requires e.rec != [] && !e.async ==> s.closes == 0
    ensures CollectorOk(WalkStep(s, i, e))
  {
  }

  lemma WalkSends(c: Config, g: Goroutine, ok: bool, async: bool)
    ensures var e := StepOf(c, g, ok, async);
      e.rec != [] && !e.async ==> g.pc.Sending? && !g.pc.async
  {
  }

  lemma DriverCollector(c: Config, s: State, a: Action)
    requires CollectorOk(s) && Enabled(c, s, a) && (a.StartInvocation? || a.DriverStep?) && s.main.AwaitDrivers?
    ensures CollectorOk(Apply(c, s, a))
  {
  }

  // ---- every node at most once per invocation ----

  /** How often function `id` occurs in a list and the branches hanging off it. */
  ghost function Occ(l: seq<Node>, id: nat): nat
    decreases l, 0
  {
    if l == [] then 0
    else (if l[0].id == id then 1 else 0) + OccBranches(l[0].branches, id) + Occ(l[1..], id)
  }

  ghost function OccBranches(bs: seq<Branch>, id: nat): nat
    decreases bs, 0
  {
    if bs == [] then 0 else Occ(bs[0].nodes, id) + OccBranches(bs[1..], id)
  }

  /** How often `id` may still be recorded by this goroutine or its future children. */
  ghost function Ahead(g: Goroutine, id: nat): nat
  {
    if g.rest == [] then 0 else
      var later := Occ(g.rest[1..], id);
      match g.pc
      case AtNode => Occ(g.rest, id)
      case Sending(_, _) => Occ(g.rest, id)
      case Issuing(ok) => if ok then OccBranches(g.rest[0].branches, id) + later else 0
      case Counting(ok) => if ok then OccBranches(g.rest[0].branches, id) + later else 0
      case Forking(next) =>
        if next <= |g.rest[0].branches| then OccBranches(g.rest[0].branches[next..], id) + later else 0
      case Exited => 0
  }

  datatype Key = Key(driver: nat, inv: nat, node: nat)

  ghost function AheadOf(k: Key): Goroutine -> nat
  {
    (g: Goroutine) => if g.driver == k.driver && g.inv == k.inv then Ahead(g, k.node) else 0
  }

  function RecordOf(k: Key): Record -> nat
  {
    (r: Record) => if r.driver == k.driver && r.inv == k.inv && r.node == k.node then 1 else 0
  }

  function FailureOf(k: Key): Record -> nat
  {
    (r: Record) => if r.driver == k.driver && r.inv == k.inv && !r.ok then 1 else 0
  }

  ghost function Unstarted(c: Config, s: State, k: Key): nat
    requires k.driver < |c.drivers| == |s.ds|
  {
    if s.ds[k.driver].next <= k.inv then Occ(c.drivers[k.driver].root, k.node) else 0
  }

  /** Records made plus records still possible never exceed the node's occurrences, and equal them if nothing failed. */
  ghost predicate KeyOk(c: Config, s: State, k: Key)
    requires k.driver < |c.drivers| == |s.ds|
  {
    var all := Sum(s.log, RecordOf(k)) + Sum(s.gs, AheadOf(k)) + Unstarted(c, s, k);
    && all <= Occ(c.drivers[k.driver].root, k.node)
    && (Sum(s.log, FailureOf(k)) == 0 ==> all == Occ(c.drivers[k.driver].root, k.node))
  }

  lemma FirstBranch(bs: seq<Branch>, n: nat, id: nat)
    requires n < |bs|
    ensures OccBranches(bs[n..], id) == Occ(bs[n].nodes, id) + OccBranches(bs[n + 1..], id)
  {
    assert bs[n..][1..] == bs[n + 1..];
  }

  lemma StepAhead(c: Config, g: Goroutine, ok: bool, async: bool, id: nat)
    requires WalkOk(g) && !g.pc.Exited?
    ensures var e := StepOf(c, g, ok, async);
      && |e.spawned| <= 1 && |e.rec| <= 1
      && var all := Ahead(e.g, id) + (if e.spawned == [] then 0 else Ahead(e.spawned[0], id))
                    + (if e.rec != [] && e.rec[0].node == id then 1 else 0);
         all <= Ahead(g, id) && ((e.rec != [] ==> e.rec[0].ok) ==> all == Ahead(g, id))
  {
    if g.rest != [] && g.pc.Forking? && g.pc.next < |g.rest[0].branches| {
      var bs, n, e := g.rest[0].branches, g.pc.next, StepOf(c, g, ok, async);
      FirstBranch(bs, n, id);
      assert e.spawned == [StartOf(g.driver, g.inv, Some(g.rest[0].id), bs[n].nodes)];
      assert Ahead(e.spawned[0], id) == Occ(bs[n].nodes, id);
    } else if g.rest != [] && g.pc.Forking? {
      assert g.rest[0].branches[g.pc.next..] == [];
    } else if g.rest != [] && g.pc.Counting? {
      assert g.rest[0].branches[0..] == g.rest[0].branches;
    }
  }

  lemma StepRecord(c: Config, g: Goroutine, ok: bool, async: bool)
    ensures var e := StepOf(c, g, ok, async);
      && (forall r :: r in e.rec ==> r.driver == g.driver && r.inv == g.inv)
      && (forall h :: h in e.spawned ==> h.driver == g.driver && h.inv == g.inv)
      && e.g.driver == g.driver && e.g.inv == g.inv
  {
  }

  lemma StepKey(c: Config, g: Goroutine, ok: bool, async: bool, k: Key)
    requires WalkOk(g) && !g.pc.Exited?
    ensures var e := StepOf(c, g, ok, async);
      var all := AheadOf(k)(e.g) + Sum(e.spawned, AheadOf(k)) + Sum(e.rec, RecordOf(k));
      && all <= AheadOf(k)(g)
      && (Sum(e.rec, FailureOf(k)) == 0 ==> all == AheadOf(k)(g))
  {
    var e := StepOf(c, g, ok, async);
    StepAhead(c, g, ok, async, k.node);
    StepRecord(c, g, ok, async);
    if e.spawned != [] {
      SumOne(e.spawned[0], AheadOf(k));
      assert e.spawned == [e.spawned[0]];
    }
    if e.rec != [] {
      SumOne(e.rec[0], RecordOf(k));
      SumOne(e.rec[0], FailureOf(k));
      assert e.rec == [e.rec[0]];
    }
  }

  lemma WalkKey(c: Config, s: State, i: nat, e: Effect, k: Key)
    requires k.driver < |c.drivers| == |s.ds| && KeyOk(c, s, k) && i < |s.gs| && s.gs[i].driver < |s.ds|
    requires var all := AheadOf(k)(e.g) + Sum(e.spawned, AheadOf(k)) + Sum(e.rec, RecordOf(k));
      && all <= AheadOf(k)(s.gs[i])
      && (Sum(e.rec, FailureOf(k)) == 0 ==> all == AheadOf(k)(s.gs[i]))
    ensures KeyOk(c, WalkStep(s, i, e), k)
  {
    var r := WalkStep(s, i, e);
    assert r.log == s.log + e.rec && r.ds[k.driver].next == s.ds[k.driver].next;
    WalkSum(s, i, e, AheadOf(k));
    SumConcat(s.log, e.rec, RecordOf(k));
    SumConcat(s.log, e.rec, FailureOf(k));
  }

  lemma OtherKey(c: Config, s: State, a: Action, k: Key)
    requires k.driver < |c.drivers| == |s.ds| && KeyOk(c, s, k) && Enabled(c, s, a) && !a.Walk?
    ensures |Apply(c, s, a).ds| == |s.ds| && KeyOk(c, Apply(c, s, a), k)
  {
    if a.StartInvocation? {
      StartKey(c, s, a.d, k);
    } else {
      OthersNext(c, s, a, k.driver);
      assert Apply(c, s, a).log == s.log && Apply(c, s, a).gs == s.gs;
    }
  }

  /** The invocation that starts has its whole DAG ahead, which counted as unstarted before. */
  lemma StartKey(c: Config, s: State, d: nat, k: Key)
    requires k.driver < |c.drivers| == |s.ds| && KeyOk(c, s, k) && Enabled(c, s, StartInvocation(d))
    ensures var r := Apply(c, s, StartInvocation(d)); |r.ds| == |s.ds| && KeyOk(c, r, k)
  {
    var r, g := Apply(c, s, StartInvocation(d)), StartOf(d, s.ds[d].next, None, c.drivers[d].root);
    SumAppend(s.gs, g, AheadOf(k));
    assert r.gs == s.gs + [g] && r.log == s.log;
    assert Ahead(g, k.node) == Occ(c.drivers[d].root, k.node);
    assert Unstarted(c, s, k) == Unstarted(c, r, k) + AheadOf(k)(g);
  }

  lemma OthersNext(c: Config, s: State, a: Action, d: nat)
    requires d < |s.ds| && Enabled(c, s, a) && !a.Walk? && !a.StartInvocation?
    ensures |Apply(c, s, a).ds| == |s.ds| && Apply(c, s, a).ds[d].next == s.ds[d].next
  {
  }

  // ---- a node runs only after the node that leads to it ----

  /** The edges of the DAG below `l`: from a node to its list successor and to the front of each of its branches. */
  ghost function Edges(prev: Option<nat>, l: seq<Node>): set<(Option<nat>, nat)>
    decreases l, 0
  {
    if l == [] then {}
    else {(prev, l[0].id)} + BranchEdges(l[0].id, l[0].branches) + Edges(Some(l[0].id), l[1..])
  }

  ghost function BranchEdges(owner: nat, bs: seq<Branch>): set<(Option<nat>, nat)>
    decreases bs, 0
  {
    if bs == [] then {} else Edges(Some(owner), bs[0].nodes) + BranchEdges(owner, bs[1..])
  }

  lemma {:induction false} BranchEdge(owner: nat, bs: seq<Branch>, i: nat)
    requires i < |bs|
    ensures Edges(Some(owner), bs[i].nodes) <= BranchEdges(owner, bs)
  {
    if i > 0 {
      BranchEdge(owner, bs[1..], i - 1);
    }
  }

  /** In invocation `inv` of driver `d`, some node with an edge to `id` has succeeded, or `id` is the root. */
  ghost predicate Led(c: Config, log: seq<Record>, d: nat, inv: nat, id: nat)
    requires d < |c.drivers|
  {
    exists p :: (p, id) in Edges(None, c.drivers[d].root) && (p.Some? ==> Record(d, inv, p.value, true) in log)
  }

  /** The goroutine walks part of its driver's DAG, and the node before its position has succeeded. */
  ghost predicate PathOk(c: Config, log: seq<Record>, g: Goroutine)
  {
    && g.driver < |c.drivers|
    && Edges(g.prev, g.rest) <= Edges(None, c.drivers[g.driver].root)
    && (g.prev.Some? ==> Record(g.driver, g.inv, g.prev.value, true) in log)
    && (g.rest != [] && (g.pc.Forking? || ((g.pc.Issuing? || g.pc.Counting?) && g.pc.ok)) ==>
          Record(g.driver, g.inv, g.rest[0].id, true) in log)
  }

  ghost predicate OrderOk(c: Config, s: State)
  {
    (forall g :: g in s.gs ==> PathOk(c, s.log, g)) && AllLed(c, s.log)
  }

  /** The node of every record was led to by what was recorded before it. */
  ghost predicate AllLed(c: Config, log: seq<Record>)
  {
    forall i {:trigger log[i]} :: 0 <= i < |log| ==>
      log[i].driver < |c.drivers| && Led(c, log[..i], log[i].driver, log[i].inv, log[i].node)
  }

  lemma StepPath(c: Config, log: seq<Record>, g: Goroutine, ok: bool, async: bool)
    requires WalkOk(g) && PathOk(c, log, g)
    ensures var e := StepOf(c, g, ok, async);
      && PathOk(c, log + e.rec, e.g)
      && (forall h :: h in e.spawned ==> PathOk(c, log + e.rec, h))
      && |e.rec| <= 1
      && (e.rec != [] ==> e.rec[0].driver == g.driver && Led(c, log, g.driver, e.rec[0].inv, e.rec[0].node))
  {
    if g.rest != [] {
      assert (g.prev, g.rest[0].id) in Edges(g.prev, g.rest);
      if g.pc.Forking? && g.pc.next < |g.rest[0].branches| {
        BranchEdge(g.rest[0].id, g.rest[0].branches, g.pc.next);
      }
      if g.pc.Sending? {
        var rec := Record(g.driver, g.inv, g.rest[0].id, g.pc.ok);
        assert (log + [rec])[|log|] == rec;
      }
    }
  }

  lemma LogLed(c: Config, log: seq<Record>, rec: seq<Record>)
    requires |rec| <= 1 && AllLed(c, log)
    requires rec != [] ==> rec[0].driver < |c.drivers| && Led(c, log, rec[0].driver, rec[0].inv, rec[0].node)
    ensures AllLed(c, log + rec)
  {
    var l := log + rec;
    forall i | 0 <= i < |l|
      ensures l[i].driver < |c.drivers| && Led(c, l[..i], l[i].driver, l[i].inv, l[i].node)
    {
      if i < |log| {
        assert l[..i] == log[..i];
      } else {
        assert l[..i] == log;
      }
    }
  }

  lemma PathGrows(c: Config, log: seq<Record>, rec: seq<Record>, g: Goroutine)
    requires PathOk(c, log, g)
    ensures PathOk(c, log + rec, g)
  {
  }

  lemma WalkOrder(c: Config, s: State, i: nat, e: Effect)
    requires OrderOk(c, s) && i < |s.gs| && s.gs[i].driver < |s.ds| && |e.rec| <= 1
    requires PathOk(c, s.log + e.rec, e.g) && (forall h :: h in e.spawned ==> PathOk(c, s.log + e.rec, h))
    requires e.rec != [] ==>
      e.rec[0].driver < |c.drivers| && Led(c, s.log, e.rec[0].driver, e.rec[0].inv, e.rec[0].node)
    ensures OrderOk(c, WalkStep(s, i, e))
  {
    LogLed(c, s.log, e.rec);
    var r := WalkStep(s, i, e);
    forall g | g in r.gs
      ensures PathOk(c, r.log, g)
    {
      if g in s.gs {
        PathGrows(c, s.log, e.rec, g);
      }
    }
  }
}
