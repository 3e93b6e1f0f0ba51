/**
 What holds of every run of the loader: it ends, never gets stuck, and accounts for every record.
 */
module RunResults {
  import opened SeqSums
  import opened RunAccounting

  // ---- what every step and every run keeps ----

  /** WaitGroup counters equal live goroutines, and stay zero once a driver has stopped waiting. */
  lemma WaitGroupKept(c: Config, s: State, a: Action, d: nat)
    requires d < |s.ds| && WaitGroupOk(s, d) && Enabled(c, s, a)
    ensures d < |Apply(c, s, a).ds| && WaitGroupOk(Apply(c, s, a), d)
  {
    if a.Walk? {
      StepWaitGroup(c, s.gs[a.i], a.ok, a.async, d);
      WalkWaitGroup(s, a.i, StepOf(c, s.gs[a.i], a.ok, a.async), d);
    } else {
      OtherWaitGroup(c, s, a, d);
    }
  }

  /** Once all drivers are done no goroutine is live, and the totals are what was handed over. */
  lemma AllAccounted(c: Config, s: State)
    requires ShapeOk(c, s) && (forall d :: 0 <= d < |s.ds| ==> WaitGroupOk(s, d)) && TallyOk(s) && TotalsOk(s)
    requires DriversDone(s)
    ensures forall g :: g in s.gs ==> g.pc.Exited?
    ensures s.totalIssued == |s.log|
    ensures s.totalSuccess == Sum(s.log, Outcome(true)) && s.totalFailed == Sum(s.log, Outcome(false))
  {
    forall g | g in s.gs
      ensures g.pc.Exited?
    {
      var d := g.driver;
      assert s.ds[d] in s.ds && WaitGroupOk(s, d);
      SumZero(s.gs, LiveIn(d));
      assert LiveIn(d)(g) == 0;
    }
    SumZero(s.gs, Unissued);
    SumZero(s.gs, Uncounted(true));
    SumZero(s.gs, Uncounted(false));
    SumEqual(s.ds, Issued, AddedIssued);
    SumEqual(s.ds, Success, AddedSuccess);
    SumEqual(s.ds, Failed, AddedFailed);
  }

  lemma MainCollector(c: Config, s: State, a: Action)
    requires Inv(c, s) && Enabled(c, s, a) && (a.MainStep? || a.DrainOne?)
    ensures CollectorOk(Apply(c, s, a))
  {
    if a.MainStep? && s.main.SendTotal? {
      AllAccounted(c, s);
    }
  }

  /** Every step of every goroutine, driver, main and the collector keeps the accounting invariant. */
  lemma InvKept(c: Config, s: State, a: Action)
    requires Inv(c, s) && Enabled(c, s, a)
    ensures Inv(c, Apply(c, s, a))
  {
    ShapeKept(c, s, a);
    forall d | 0 <= d < |Apply(c, s, a).ds|
      ensures WaitGroupOk(Apply(c, s, a), d)
    {
      WaitGroupKept(c, s, a, d);
    }
    TallyKept(c, s, a);
    TotalsKept(c, s, a);
    if a.Walk? {
      MainWaits(c, s, a);
      StepShape(c, s.gs[a.i], a.ok, a.async);
      WalkSends(c, s.gs[a.i], a.ok, a.async);
      WalkChannel(c, s, a.i, StepOf(c, s.gs[a.i], a.ok, a.async));
      WalkCollector(s, a.i, StepOf(c, s.gs[a.i], a.ok, a.async));
    } else {
      OtherChannel(c, s, a);
      if a.StartInvocation? || a.DriverStep? {
        MainWaits(c, s, a);
        DriverCollector(c, s, a);
      } else {
        MainCollector(c, s, a);
      }
    }
  }

  lemma InitInv(c: Config)
    ensures Inv(c, Init(c))
  {
    var ds := Init(c).ds;
    SumZero(ds, Issued);
    SumZero(ds, Success);
    SumZero(ds, Failed);
    SumZero(ds, AddedIssued);
    SumZero(ds, AddedSuccess);
    SumZero(ds, AddedFailed);
  }

  lemma {:induction false} RunInv(c: Config, s: State, run: seq<Action>)
    requires Inv(c, s) && Legal(c, s, run)
    ensures Inv(c, Exec(c, s, run))
    decreases |run|
  {
    if run != [] {
      InvKept(c, s, run[0]);
      RunInv(c, Apply(c, s, run[0]), run[1..]);
    }
  }

  lemma KeyKept(c: Config, s: State, a: Action, k: Key)
    requires ShapeOk(c, s) && k.driver < |c.drivers| && KeyOk(c, s, k) && Enabled(c, s, a)
    ensures |Apply(c, s, a).ds| == |s.ds| && KeyOk(c, Apply(c, s, a), k)
  {
    if a.Walk? {
      WalkKeyKept(c, s, a.i, s.gs[a.i], a.ok, a.async, k);
    } else {
      OtherKey(c, s, a, k);
    }
  }

  lemma WalkKeyKept(c: Config, s: State, i: nat, g: Goroutine, ok: bool, async: bool, k: Key)
    requires k.driver < |c.drivers| == |s.ds| && KeyOk(c, s, k) && i < |s.gs| && s.gs[i] == g
    requires g.driver < |s.ds| && WalkOk(g) && !g.pc.Exited?
    ensures KeyOk(c, WalkStep(s, i, StepOf(c, g, ok, async)), k)
  {
    StepKey(c, g, ok, async, k);
    WalkKey(c, s, i, StepOf(c, g, ok, async), k);
  }

  lemma {:induction false} RunKey(c: Config, s: State, run: seq<Action>, k: Key)
    requires Inv(c, s) && Legal(c, s, run) && k.driver < |c.drivers| && KeyOk(c, s, k)
    ensures Inv(c, Exec(c, s, run)) && KeyOk(c, Exec(c, s, run), k)
    decreases |run|
  {
    if run != [] {
      InvKept(c, s, run[0]);
      KeyKept(c, s, run[0], k);
      RunKey(c, Apply(c, s, run[0]), run[1..], k);
    }
  }

  lemma OrderKept(c: Config, s: State, a: Action)
    requires ShapeOk(c, s) && OrderOk(c, s) && Enabled(c, s, a)
    ensures OrderOk(c, Apply(c, s, a))
  {
    if a.Walk? {
      var g := s.gs[a.i];
      assert g in s.gs && PathOk(c, s.log, g);
      StepPath(c, s.log, g, a.ok, a.async);
      WalkOrder(c, s, a.i, StepOf(c, g, a.ok, a.async));
    } else {
      assert Apply(c, s, a).log == s.log;
    }
  }

  lemma {:induction false} RunOrder(c: Config, s: State, run: seq<Action>)
    requires Inv(c, s) && OrderOk(c, s) && Legal(c, s, run)
    ensures Inv(c, Exec(c, s, run)) && OrderOk(c, Exec(c, s, run))
    decreases |run|
  {
    if run != [] {
      InvKept(c, s, run[0]);
      OrderKept(c, s, run[0]);
      RunOrder(c, Apply(c, s, run[0]), run[1..]);
    }
  }

  // ---- every run ends ----

  ghost function Weight(l: seq<Node>): nat
    decreases l, 0
  {
    if l == [] then 1 else 7 + BranchWeight(l[0].branches) + Weight(l[1..])
  }

  ghost function BranchWeight(bs: seq<Branch>): nat
    decreases bs, 0
  {
    if bs == [] then 0 else 2 + Weight(bs[0].nodes) + BranchWeight(bs[1..])
  }

  /** A bound on the steps this goroutine and its children can still take. */
  ghost function StepsLeft(g: Goroutine): nat
  {
    if g.pc.Exited? then 0 else
      (if g.retries == 0 then 1 else 0) +
      if g.rest == [] then 1 else
        var node := BranchWeight(g.rest[0].branches) + Weight(g.rest[1..]);
        match g.pc
        case AtNode => 7 + node
        case Sending(_, _) => 6 + node
        case Issuing(_) => 3 + node
        case Counting(_) => 2 + node
        case Forking(next) =>
          if next <= |g.rest[0].branches| then 1 + BranchWeight(g.rest[0].branches[next..]) + Weight(g.rest[1..]) else 0
        case Exited => 0
  }

  lemma StepUsesUp(c: Config, g: Goroutine, ok: bool, async: bool)
    requires WalkOk(g) && !g.pc.Exited?
    ensures var e := StepOf(c, g, ok, async);
      StepsLeft(e.g) + Sum(e.spawned, StepsLeft) + |e.rec| < StepsLeft(g)
  {
    var e := StepOf(c, g, ok, async);
    if e.spawned != [] {
      SumOne(e.spawned[0], StepsLeft);
      var bs, n := g.rest[0].branches, g.pc.next;
      assert bs[n..][1..] == bs[n + 1..] && bs[n..][0] == bs[n];
      assert StepsLeft(e.spawned[0]) == Weight(bs[n].nodes) + 1;
    } else if g.rest != [] && g.pc.Counting? {
      assert g.rest[0].branches[0..] == g.rest[0].branches;
    }
  }

  ghost function DriverSteps(spec: DriverSpec, x: Driver): nat
  {
    (if x.next <= spec.count then (spec.count - x.next) * (Weight(spec.root) + 2) else 0)
    + match x.stage case Looping => 4 case AddSuccess => 3 case AddFailed => 2 case AddIssued => 1 case Finished => 0
  }

  ghost function DriversSteps(specs: seq<DriverSpec>, ds: seq<Driver>): nat
    requires |specs| == |ds|
  {
    if ds == [] then 0
    else DriversSteps(specs[..|ds| - 1], ds[..|ds| - 1]) + DriverSteps(specs[|ds| - 1], ds[|ds| - 1])
  }

  lemma {:induction false} DriversStepsUpdate(specs: seq<DriverSpec>, ds: seq<Driver>, d: nat, x: Driver)
    requires |specs| == |ds| && d < |ds|
    ensures DriversSteps(specs, ds[d := x]) + DriverSteps(specs[d], ds[d])
         == DriversSteps(specs, ds) + DriverSteps(specs[d], x)
  {
    var n := |ds| - 1;
    if d == n {
      assert ds[d := x][..n] == ds[..n];
    } else {
      DriversStepsUpdate(specs[..n], ds[..n], d, x);
      assert ds[d := x][..n] == ds[..n][d := x];
    }
  }

  lemma DriversStepsSame(specs: seq<DriverSpec>, ds: seq<Driver>, d: nat, x: Driver)
    requires |specs| == |ds| && d < |ds| && x.next == ds[d].next && x.stage == ds[d].stage
    ensures DriversSteps(specs, ds[d := x]) == DriversSteps(specs, ds)
  {
    DriversStepsUpdate(specs, ds, d, x);
    assert DriverSteps(specs[d], x) == DriverSteps(specs[d], ds[d]);
  }

  ghost function MainSteps(m: Main): nat
  {
    match m case AwaitDrivers => 4 case Draining => 3 case SendTotal => 2 case AwaitWritten => 1 case Ended => 0
  }

  ghost function Cost(c: Config, s: State): nat
    requires |s.ds| == |c.drivers|
  {
    Sum(s.gs, StepsLeft) + DriversSteps(c.drivers, s.ds) + |s.asyncQueue| + MainSteps(s.main)
  }

  lemma WalkCost(c: Config, s: State, i: nat, e: Effect)
    requires |s.ds| == |c.drivers| && i < |s.gs| && s.gs[i].driver < |s.ds|
    requires StepsLeft(e.g) + Sum(e.spawned, StepsLeft) + |e.rec| < StepsLeft(s.gs[i])
    ensures |WalkStep(s, i, e).ds| == |c.drivers| && Cost(c, WalkStep(s, i, e)) < Cost(c, s)
  {
    var d, r := s.gs[i].driver, WalkStep(s, i, e);
    WalkSum(s, i, e, StepsLeft);
    assert r.main == s.main && |r.asyncQueue| <= |s.asyncQueue| + |e.rec|;
    DriversStepsSame(c.drivers, s.ds, d, r.ds[d]);
  }

  lemma StartDriver(spec: DriverSpec, x: Driver, y: Driver)
    requires x.next < spec.count && y.next == x.next + 1 && y.stage == x.stage
    ensures DriverSteps(spec, x) == DriverSteps(spec, y) + Weight(spec.root) + 2
  {
    OneLess(spec.count - x.next, Weight(spec.root) + 2);
  }

  lemma StartWeight(driver: nat, inv: nat, list: seq<Node>)
    ensures StepsLeft(StartOf(driver, inv, None, list)) == Weight(list) + 1
  {
  }

  lemma StartCost(c: Config, s: State, d: nat)
    requires |s.ds| == |c.drivers| && Enabled(c, s, StartInvocation(d))
    ensures Cost(c, Apply(c, s, StartInvocation(d))) < Cost(c, s)
  {
    var spec, x := c.drivers[d], s.ds[d];
    var y := x.(next := x.next + 1, wg := x.wg + 1);
    StartWeight(d, x.next, spec.root);
    SumAppend(s.gs, StartOf(d, x.next, None, spec.root), StepsLeft);
    StartDriver(spec, x, y);
    DriversStepsUpdate(c.drivers, s.ds, d, y);
  }

  lemma DriverCost(c: Config, s: State, d: nat)
    requires |s.ds| == |c.drivers| && Enabled(c, s, DriverStep(d))
    ensures Cost(c, Apply(c, s, DriverStep(d))) < Cost(c, s)
  {
    DriversStepsUpdate(c.drivers, s.ds, d, Apply(c, s, DriverStep(d)).ds[d]);
  }

  lemma MainCost(c: Config, s: State, a: Action)
    requires |s.ds| == |c.drivers| && Enabled(c, s, a) && (a.MainStep? || a.DrainOne?)
    ensures |Apply(c, s, a).ds| == |c.drivers| && Cost(c, Apply(c, s, a)) < Cost(c, s)
  {
    assert Apply(c, s, a).gs == s.gs && Apply(c, s, a).ds == s.ds;
  }

  lemma CostDrops(c: Config, s: State, a: Action)
    requires ShapeOk(c, s) && Enabled(c, s, a)
    ensures |Apply(c, s, a).ds| == |c.drivers| && Cost(c, Apply(c, s, a)) < Cost(c, s)
  {
    if a.Walk? {
      StepUsesUp(c, s.gs[a.i], a.ok, a.async);
      WalkCost(c, s, a.i, StepOf(c, s.gs[a.i], a.ok, a.async));
    } else if a.StartInvocation? {
      StartCost(c, s, a.d);
    } else if a.DriverStep? {
      DriverCost(c, s, a.d);
    } else {
      MainCost(c, s, a);
    }
  }

  lemma {:induction false} RunCost(c: Config, s: State, run: seq<Action>)
    requires Inv(c, s) && Legal(c, s, run)
    ensures Inv(c, Exec(c, s, run)) && |run| + Cost(c, Exec(c, s, run)) <= Cost(c, s)
    decreases |run|
  {
    if run != [] {
      InvKept(c, s, run[0]);
      CostDrops(c, s, run[0]);
      RunCost(c, Apply(c, s, run[0]), run[1..]);
    }
  }

  // ---- no run gets stuck ----

  lemma LiveProgress(c: Config, s: State, d: nat)
    requires Inv(c, s) && d < |s.ds| && s.ds[d].wg != 0 && s.closes == 0
    ensures exists a :: Enabled(c, s, a)
  {
    assert WaitGroupOk(s, d);
    SumZero(s.gs, LiveIn(d));
    var g :| g in s.gs && LiveIn(d)(g) != 0;
    var i :| 0 <= i < |s.gs| && s.gs[i] == g;
    assert Enabled(c, s, Walk(i, true, false));
  }

  lemma DriverProgress(c: Config, s: State, d: nat)
    requires Inv(c, s) && d < |s.ds| && !s.ds[d].stage.Finished? && s.closes == 0
    ensures exists a :: Enabled(c, s, a)
  {
    if s.ds[d].stage.Looping? && s.ds[d].next < c.drivers[d].count {
      assert Enabled(c, s, StartInvocation(d));
    } else if s.ds[d].wg != 0 && s.ds[d].stage.Looping? {
      LiveProgress(c, s, d);
    } else {
      assert Enabled(c, s, DriverStep(d));
    }
  }

  /** Unless main has ended, something can move; the one exception is a collector that met its MaxInt64 placeholder. */
  lemma Progress(c: Config, s: State)
    requires Inv(c, s) && !s.main.Ended? && |s.written| != MAX_INT64
    ensures exists a :: Enabled(c, s, a)
  {
    if s.main.AwaitDrivers? {
      if d :| 0 <= d < |s.ds| && !s.ds[d].stage.Finished? {
        DriverProgress(c, s, d);
      } else {
        assert Enabled(c, s, MainStep);
      }
    } else if s.main.Draining? && s.asyncQueue != [] {
      assert Enabled(c, s, DrainOne(0));
    } else {
      assert Enabled(c, s, MainStep);
    }
  }

  // ---- main results ----

  lemma {:induction false} OutcomesAdd(log: seq<Record>)
    ensures Sum(log, Outcome(true)) + Sum(log, Outcome(false)) == |log|
  {
    if log != [] {
      OutcomesAdd(log[..|log| - 1]);
    }
  }

  /** Main has learnt that everything was written, or that there was nothing to write. */
  lemma EndState(c: Config, s: State)
    requires Inv(c, s) && (s.main.Ended? || s.main.AwaitWritten?)
    ensures |s.log| == s.totalIssued == s.totalSuccess + s.totalFailed
    ensures s.log != [] ==> s.closes == 1 && multiset(s.written) == multiset(s.log)
    ensures s.log == [] ==> s.closes == 0 && s.written == []
  {
    AllAccounted(c, s);
    OutcomesAdd(s.log);
  }

  /**
   In every run the collector closes its output at most once, and not before the total has
   arrived (unless 2^63 - 1 records come first); when main ends, the records written are
   exactly the records handed over, and their number is issued = successes + failures.
   Every run is finite and none gets stuck.
   */
  lemma RunAccounted(c: Config, run: seq<Action>)
    requires Legal(c, Init(c), run)
    ensures var s := Exec(c, Init(c), run);
      && s.closes <= 1
      && (s.closes == 1 ==> s.main.AwaitWritten? || s.main.Ended? || |s.written| == 0x7FFF_FFFF_FFFF_FFFF)
      && (s.main.Ended? && s.log != [] ==>
            && s.closes == 1 && multiset(s.written) == multiset(s.log)
            && |s.written| == s.totalIssued == s.totalSuccess + s.totalFailed
            && s.totalSuccess == Sum(s.written, Outcome(true)))
      && |run| <= Cost(c, Init(c))
      && (s.main.Ended? || (exists a :: Enabled(c, s, a)) || |s.written| == 0x7FFF_FFFF_FFFF_FFFF)
  {
    InitInv(c);
    RunCost(c, Init(c), run);
    var s := Exec(c, Init(c), run);
    if s.main.Ended? {
      EndState(c, s);
      AllAccounted(c, s);
      if s.log != [] {
        SumPermutes(s.written, s.log, Outcome(true));
      }
    } else if |s.written| != MAX_INT64 {
      Progress(c, s);
    }
  }

  lemma InitKey(c: Config, k: Key)
    requires k.driver < |c.drivers|
    ensures KeyOk(c, Init(c), k)
  {
  }

  /** A driver that has something to invoke leaves at least one record. */
  lemma SomethingRecorded(c: Config, run: seq<Action>, d: nat)
    requires Legal(c, Init(c), run) && Exec(c, Init(c), run).main.Ended?
    requires d < |c.drivers| && c.drivers[d].count > 0 && c.drivers[d].root != []
    ensures Exec(c, Init(c), run).log != []
  {
    var k := Key(d, 0, c.drivers[d].root[0].id);
    InitInv(c);
    InitKey(c, k);
    RunKey(c, Init(c), run, k);
    var s := Exec(c, Init(c), run);
    AllAccounted(c, s);
    SumZero(s.gs, AheadOf(k));
    assert s.ds[d] in s.ds;
    assert Sum([], FailureOf(k)) == 0;
  }

  /** A DAG node yields at most one record per invocation, and exactly one if nothing in the invocation failed. */
  lemma NodeRecordedOnce(c: Config, run: seq<Action>, k: Key)
    requires Legal(c, Init(c), run) && k.driver < |c.drivers|
    requires Occ(c.drivers[k.driver].root, k.node) == 1
    ensures var s := Exec(c, Init(c), run);
      && Sum(s.log, RecordOf(k)) <= 1
      && (s.main.Ended? && k.inv < c.drivers[k.driver].count && Sum(s.log, FailureOf(k)) == 0 ==>
            Sum(s.log, RecordOf(k)) == 1)
  {
    InitInv(c);
    InitKey(c, k);
    RunKey(c, Init(c), run, k);
    var s := Exec(c, Init(c), run);
    if s.main.Ended? {
      AllAccounted(c, s);
      SumZero(s.gs, AheadOf(k));
      assert s.ds[k.driver] in s.ds;
    }
  }

  /**
   Whenever a node is about to be invoked, and whenever it has left a record, a node with an
   edge to it has succeeded before in the same invocation (or it is the root); a walk calls
   `Invoke` at most once more than its list is long; and its index is below the driver's count.
   */
  lemma InvokedInOrder(c: Config, run: seq<Action>)
    requires Legal(c, Init(c), run)
    ensures var s := Exec(c, Init(c), run);
      && AllLed(c, s.log)
      && (forall g :: g in s.gs ==>
            && g.driver < |c.drivers| && g.inv < c.drivers[g.driver].count
            && g.invokes <= |g.list| + 1
            && (g.rest != [] ==> Led(c, s.log, g.driver, g.inv, g.rest[0].id)))
      && (forall d :: 0 <= d < |s.ds| ==> s.ds[d].wg == Sum(s.gs, LiveIn(d)))
  {
    InitInv(c);
    RunOrder(c, Init(c), run);
    var s := Exec(c, Init(c), run);
    forall g | g in s.gs
      ensures g.driver < |c.drivers| && (g.rest != [] ==> Led(c, s.log, g.driver, g.inv, g.rest[0].id))
    {
      assert PathOk(c, s.log, g);
      if g.rest != [] {
        assert (g.prev, g.rest[0].id) in Edges(g.prev, g.rest);
      }
    }
    forall d | 0 <= d < |s.ds|
      ensures s.ds[d].wg == Sum(s.gs, LiveIn(d))
    {
      assert WaitGroupOk(s, d);
    }
  }
}
