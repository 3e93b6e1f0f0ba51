/**
 The specifications of all functions of a per-minute trace, and why driving them never
 reads a runtime entry that is not there.
 */
module Azure2019 {
  import opened SeqSums
  import opened IntervalIndex
  import opened Timeline
  import opened Schedule
  import T = TraceDriver
  import R = RunAccounting
  import RR = RunResults
  import D = DagResults

  datatype RuntimeSpec = RuntimeSpec(runtime: int, memory: int)

  datatype FunctionSpec = FunctionSpec(iat: seq<real>, perMinuteCount: seq<nat>, rawDuration: seq<real>,
    runtime: seq<RuntimeSpec>)

  /**
   All random choices for one function: the gaps and the cut of every column, and the sampled runtime and
   memory of every invocation (None where sampling ends in log.Fatal).
   */
  datatype Draws = Draws(iats: seq<seq<real>>, cuts: seq<real>, specs: nat -> Option<RuntimeSpec>)

  ghost predicate DrawsFor(trace: seq<nat>, d: Draws)
  {
    && |d.iats| == |d.cuts| == |trace|
    && forall m :: 0 <= m < |trace| ==> Drawn(trace[m], d.iats[m]) && 0.0 <= d.cuts[m] < 1.0
  }

  ghost predicate Fails(trace: seq<nat>, dist: Distribution, d: Draws)
    requires DrawsFor(trace, d)
  {
    || (exists m :: 0 <= m < |trace| && Aborts(trace[m], dist, d.iats[m]))
    || (exists k: nat :: k < Total(trace) && d.specs(k).None?)
  }

  /** A specification that follows `trace`: one time and one runtime entry per invocation. */
  ghost predicate Follows(trace: seq<nat>, g: Granularity, shift: bool, f: FunctionSpec)
  {
    && f.perMinuteCount == trace && Scheduling(trace, TimeUnit(g), shift, f.iat)
    && |f.runtime| == |f.iat| == Total(trace)
  }

  /**
   The invocations fire where the drawn gaps and cuts place them, the runtime entries are the sampled ones, and the raw
   durations those of the draws.
   */
  ghost predicate Sampled(trace: seq<nat>, dist: Distribution, shift: bool, g: Granularity, d: Draws, f: FunctionSpec)
    requires DrawsFor(trace, d)
  {
    && Generated(trace, dist, shift, g, d.iats, d.cuts, f.iat)
    && (forall k :: 0 <= k < |f.runtime| ==> d.specs(k) == Some(f.runtime[k]))
    && |f.rawDuration| == |trace| && RawTimes(trace, dist, g, d.iats, f.rawDuration)
  }

  /** The nested loops that sample the runtime and memory of every invocation. */
  method SampleSpecs(perMinuteCount: seq<nat>, specs: nat -> Option<RuntimeSpec>) returns (r: Option<seq<RuntimeSpec>>)
    ensures r.None? <==> exists k: nat :: k < Total(perMinuteCount) && specs(k).None?
    ensures r.Some? ==> |r.value| == Total(perMinuteCount)
    ensures r.Some? ==> forall k :: 0 <= k < |r.value| ==> specs(k) == Some(r.value[k])
  {
    var runtimeArray: seq<RuntimeSpec> := [];
    for i := 0 to |perMinuteCount|
      invariant |runtimeArray| == Prefix(perMinuteCount, i)
      invariant forall k :: 0 <= k < |runtimeArray| ==> specs(k) == Some(runtimeArray[k])
    {
      for j := 0 to perMinuteCount[i]
        invariant |runtimeArray| == Prefix(perMinuteCount, i) + j
        invariant forall k :: 0 <= k < |runtimeArray| ==> specs(k) == Some(runtimeArray[k])
      {
        PrefixMono(perMinuteCount, i + 1, |perMinuteCount|);
        var spec := specs(|runtimeArray|);
        if spec.None? {
          return None;
        }
        runtimeArray := runtimeArray + [spec.value];
      }
    }
    r := Some(runtimeArray);
  }

  /** GenerateInvocationData */
  method GenerateInvocationData(trace: seq<nat>, dist: Distribution, shift: bool, g: Granularity, d: Draws)
    returns (r: Option<FunctionSpec>)
    requires DrawsFor(trace, d)
    ensures r.None? <==> Fails(trace, dist, d)
    ensures r.Some? ==> Follows(trace, g, shift, r.value) && Sampled(trace, dist, shift, g, d, r.value)
  {
    var iat, perMinuteCount, rawDuration := GenerateIAT(trace, dist, shift, g, d.iats, d.cuts);
    if iat.None? {
      return None;
    }
    var runtimeArray := SampleSpecs(perMinuteCount, d.specs);
    if runtimeArray.None? {
      return None;
    }
    r := Some(FunctionSpec(iat.value, perMinuteCount, rawDuration, runtimeArray.value));
  }

  /** Generation for this trace succeeds with `f`. */
  ghost predicate Delivers(trace: seq<nat>, dist: Distribution, shift: bool, g: Granularity, d: Draws, f: FunctionSpec)
    requires DrawsFor(trace, d)
  {
    !Fails(trace, dist, d) && Follows(trace, g, shift, f) && Sampled(trace, dist, shift, g, d, f)
  }

  /** The trace that function `f` is invoked by: in DAG mode everybody follows the first function. */
  function TraceOf(traces: seq<seq<nat>>, dagMode: bool, f: nat): seq<nat>
    requires f < |traces|
  {
    if dagMode then traces[0] else traces[f]
  }

  /** The first functions have got their specifications. */
  ghost predicate AllDelivered(traces: seq<seq<nat>>, dagMode: bool, dist: Distribution, shift: bool, g: Granularity,
                               draws: seq<Draws>, specs: seq<FunctionSpec>)
    requires |specs| <= |draws| == |traces|
    requires forall f :: 0 <= f < |traces| ==> DrawsFor(TraceOf(traces, dagMode, f), draws[f])
  {
    forall f :: 0 <= f < |specs| ==> Delivers(TraceOf(traces, dagMode, f), dist, shift, g, draws[f], specs[f])
  }

  lemma DeliveredMore(traces: seq<seq<nat>>, dagMode: bool, dist: Distribution, shift: bool, g: Granularity,
                      draws: seq<Draws>, specs: seq<FunctionSpec>, spec: FunctionSpec)
    requires |specs| < |draws| == |traces|
    requires forall f :: 0 <= f < |traces| ==> DrawsFor(TraceOf(traces, dagMode, f), draws[f])
    requires AllDelivered(traces, dagMode, dist, shift, g, draws, specs)
    requires Delivers(TraceOf(traces, dagMode, |specs|), dist, shift, g, draws[|specs|], spec)
    ensures AllDelivered(traces, dagMode, dist, shift, g, draws, specs + [spec])
  {
  }

  lemma NoneFailed(traces: seq<seq<nat>>, dagMode: bool, dist: Distribution, shift: bool, g: Granularity,
                   draws: seq<Draws>, specs: seq<FunctionSpec>)
    requires |specs| == |draws| == |traces|
    requires forall f :: 0 <= f < |traces| ==> DrawsFor(TraceOf(traces, dagMode, f), draws[f])
    requires AllDelivered(traces, dagMode, dist, shift, g, draws, specs)
    ensures forall f :: 0 <= f < |traces| ==> !Fails(TraceOf(traces, dagMode, f), dist, draws[f])
  {
    forall f | 0 <= f < |traces|
      ensures !Fails(TraceOf(traces, dagMode, f), dist, draws[f])
    {
      assert Delivers(TraceOf(traces, dagMode, f), dist, shift, g, draws[f], specs[f]);
    }
  }

  /**
   GenerateAzure2019Specification: in DAG mode the counts of every function are overwritten with the first
   function's.
   */
  method GenerateAzure2019Specification(traces: seq<seq<nat>>, dagMode: bool, dist: Distribution, shift: bool,
      g: Granularity, draws: seq<Draws>)
    returns (specs: Option<seq<FunctionSpec>>, traces': seq<seq<nat>>)
    requires |draws| == |traces|
    requires forall f :: 0 <= f < |traces| ==> DrawsFor(TraceOf(traces, dagMode, f), draws[f])
    ensures specs.None? <==> exists f :: 0 <= f < |traces| && Fails(TraceOf(traces, dagMode, f), dist, draws[f])
    ensures specs.Some? ==> |specs.value| == |traces'| == |traces|
    ensures specs.Some? ==> AllDelivered(traces, dagMode, dist, shift, g, draws, specs.value)
    ensures specs.Some? ==> forall f :: 0 <= f < |traces| ==> traces'[f] == if dagMode then traces[0] else traces[f]
  {
    traces' := traces;
    var result: seq<FunctionSpec> := [];
    for i := 0 to |traces|
      invariant |result| == i && |traces'| == |traces|
      invariant forall f :: 0 <= f < |traces| ==> traces'[f] == if f < i then TraceOf(traces, dagMode, f) else traces[f]
      invariant AllDelivered(traces, dagMode, dist, shift, g, draws, result)
    {
      if dagMode {
        traces' := traces'[i := traces'[0]];
      }
      var spec := GenerateInvocationData(traces'[i], dist, shift, g, draws[i]);
      if spec.None? {
        return None, traces';
      }
      DeliveredMore(traces, dagMode, dist, shift, g, draws, result, spec.value);
      result := result + [spec.value];
    }
    NoneFailed(traces, dagMode, dist, shift, g, draws, result);
    specs := Some(result);
  }

  // ---- driving the specifications ----

  /** The minute an invocation is labelled with is the column in which it is scheduled to fire. */
  lemma LabelledWhereScheduled(trace: seq<nat>, g: Granularity, shift: bool, f: FunctionSpec, warmup: int,
      busy: nat -> nat, over: nat -> nat, fired: seq<T.Fired>, k: nat)
    requires Follows(trace, g, shift, f) && T.Run(f.iat, f.perMinuteCount, warmup, busy, over, fired) && k < |fired|
    ensures Fires(TimeUnit(g), shift, f.iat, fired[k].minute, k)
  {
    T.RunCounts(f.iat, trace, warmup, busy, over, fired, k);
  }

  lemma {:induction false} EdgesOccur(prev: Option<nat>, l: seq<R.Node>, p: Option<nat>, id: nat)
    requires (p, id) in R.Edges(prev, l)
    ensures R.Occ(l, id) > 0
    decreases l, 0
  {
    if (p, id) in R.BranchEdges(l[0].id, l[0].branches) {
      BranchEdgesOccur(l[0].id, l[0].branches, p, id);
    } else if (p, id) in R.Edges(Some(l[0].id), l[1..]) {
      EdgesOccur(Some(l[0].id), l[1..], p, id);
    }
  }

  lemma {:induction false} BranchEdgesOccur(owner: nat, bs: seq<R.Branch>, p: Option<nat>, id: nat)
    requires (p, id) in R.BranchEdges(owner, bs)
    ensures R.OccBranches(bs, id) > 0
    decreases bs, 0
  {
    if (p, id) in R.Edges(Some(owner), bs[0].nodes) {
      EdgesOccur(Some(owner), bs[0].nodes, p, id);
    } else {
      BranchEdgesOccur(owner, bs[1..], p, id);
    }
  }

  /** Driver `d` walks a list of functions that have specifications, as often as its first function is to be invoked. */
  ghost predicate Drives(c: R.Config, specs: seq<FunctionSpec>, d: nat)
    requires d < |c.drivers|
  {
    var x := c.drivers[d];
    && x.root != [] && x.root[0].id < |specs| && x.count == |specs[x.root[0].id].iat|
    && forall id: nat {:trigger R.Occ(x.root, id)} :: R.Occ(x.root, id) > 0 ==>
         id < |specs| && |specs[id].runtime| == x.count
  }

  /**
   In every reachable state, every goroutine that is about to invoke a function finds that function's runtime entry.
   */
  lemma RuntimeIndexInRange(c: R.Config, specs: seq<FunctionSpec>, run: seq<R.Action>, g: R.Goroutine)
    requires R.Legal(c, R.Init(c), run) && g in R.Exec(c, R.Init(c), run).gs && g.rest != []
    requires forall d {:trigger Drives(c, specs, d)} :: 0 <= d < |c.drivers| ==> Drives(c, specs, d)
    ensures g.rest[0].id < |specs| && g.inv < |specs[g.rest[0].id].runtime|
  {
    RR.InvokedInOrder(c, run);
    var s, id := R.Exec(c, R.Init(c), run), g.rest[0].id;
    assert R.Led(c, s.log, g.driver, g.inv, id);
    var p :| (p, id) in R.Edges(None, c.drivers[g.driver].root);
    EdgesOccur(None, c.drivers[g.driver].root, p, id);
    assert Drives(c, specs, g.driver);
  }

  /** Generated DAGs over specifications that all follow the first function's trace meet that requirement. */
  lemma DagsDriven(c: R.Config, dags: seq<D.Dag>, trace: seq<nat>, g: Granularity, shift: bool,
      specs: seq<FunctionSpec>, d: nat)
    requires D.Consecutive(dags) && D.NextFree(dags) <= |specs| && |c.drivers| == |dags| && d < |dags|
    requires forall f :: 0 <= f < |specs| ==> Follows(trace, g, shift, specs[f])
    requires D.Forest(dags[d].lists) && dags[d].lists != [] && c.drivers[d].root == D.ToTree(dags[d].lists, 0, 0)
    requires c.drivers[d].count == Total(trace)
    ensures Drives(c, specs, d)
  {
    var x := c.drivers[d];
    RangeBelow(dags, d);
    D.GoodDagOnce(dags[d], dags[d].first);
    assert x.root != [] by {
      assert R.Occ([], dags[d].first) == 0;
    }
    forall id: nat | R.Occ(x.root, id) > 0
      ensures id < |specs| && |specs[id].runtime| == x.count
    {
      D.GoodDagOnce(dags[d], id);
      assert Follows(trace, g, shift, specs[id]);
    }
    assert R.Occ(x.root, x.root[0].id) > 0;
    assert Follows(trace, g, shift, specs[x.root[0].id]);
  }

  lemma RangeBelow(dags: seq<D.Dag>, d: nat)
    requires D.Consecutive(dags) && d < |dags|
    ensures D.GoodDag(dags[d]) && dags[d].next <= D.NextFree(dags)
  {
    if d < |dags| - 1 {
      D.RangesOrdered(dags, d, |dags| - 1);
      assert D.GoodDag(dags[|dags| - 1]);
    }
  }

  /** Without DAGs every driver runs one function by its own trace, which meets it too. */
  lemma SingleDriven(c: R.Config, trace: seq<nat>, g: Granularity, shift: bool, specs: seq<FunctionSpec>, d: nat)
    requires d < |c.drivers| == |specs| && Follows(trace, g, shift, specs[d])
    requires c.drivers[d] == R.DriverSpec([R.Node(d, [])], |specs[d].iat|)
    ensures Drives(c, specs, d)
  {
    var x := c.drivers[d];
    forall id: nat | R.Occ(x.root, id) > 0
      ensures id == d
    {
      assert x.root[1..] == [] && x.root[0].branches == [];
      assert R.Occ([], id) == 0 && R.OccBranches([], id) == 0;
    }
  }
}
