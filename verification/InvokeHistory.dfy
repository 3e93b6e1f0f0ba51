/**
 What the calls of `Invoke` were and what became of them.  Beside a run, every walk keeps a history of its calls, with
 the outcome that `Invoke` had, and of the records it added to the log.
 */
module InvokeHistory {
  import opened SeqSums
  import opened RunAccounting

  /**
   The calls of one walk, each written as the record it would make, and the records the walk has handed over;
   `async` is whether the last call was to be answered later.
   */
  datatype History = History(calls: seq<Record>, recs: seq<Record>, async: bool)

  const Empty := History([], [], false)

  /** The goroutine is about to call `Invoke` on its current node. */
  predicate Invokes(g: Goroutine)
  {
    g.pc.AtNode? && g.rest != []
  }

  /** The history of a walk after its step, with the records it handed over in that step. */
  function Extended(g: Goroutine, h: History, ok: bool, async: bool, recorded: seq<Record>): History
  {
    History(
      h.calls + if Invokes(g) then [Record(g.driver, g.inv, g.rest[0].id, ok)] else [],
      h.recs + recorded,
      if Invokes(g) then async else h.async)
  }

  /** The histories after action `a`: a call has the outcome that the action gives to `Invoke`. */
  ghost function After(c: Config, s: State, hist: seq<History>, a: Action): seq<History>
    requires Enabled(c, s, a) && |hist| == |s.gs|
  {
    var t := Apply(c, s, a);
    var grown := if |t.gs| > |hist| then hist + seq(|t.gs| - |hist|, _ => Empty) else hist;
    if a.Walk? then
      var recorded := if |t.log| > |s.log| then t.log[|s.log|..] else [];
      grown[a.i := Extended(s.gs[a.i], grown[a.i], a.ok, a.async && c.asyncMode, recorded)]
    else grown
  }

  /** The histories along a run. */
  ghost function Along(c: Config, s: State, hist: seq<History>, run: seq<Action>): seq<History>
    requires Legal(c, s, run) && |hist| == |s.gs|
    decreases |run|
  {
    if run == [] then hist
    else
      Sizes(c, s, hist, run[0]);
      Along(c, Apply(c, s, run[0]), After(c, s, hist, run[0]), run[1..])
  }

  lemma Sizes(c: Config, s: State, hist: seq<History>, a: Action)
    requires Enabled(c, s, a) && |hist| == |s.gs|
    ensures |After(c, s, hist, a)| == |Apply(c, s, a).gs| >= |s.gs|
  {
  }

  // ---- what is recorded ----

  /** The number of calls before the first failing one. */
  function FirstFailure(calls: seq<Record>): (n: nat)
    ensures n <= |calls|
    ensures forall k :: 0 <= k < n ==> calls[k].ok
    ensures n < |calls| ==> !calls[n].ok
  {
    if calls == [] then 0
    else
      var n := FirstFailure(calls[..|calls| - 1]);
      if n < |calls| - 1 || !calls[|calls| - 1].ok then n else |calls|
  }

  function Without<T>(s: seq<T>, n: nat): seq<T>
    requires n < |s|
  {
    s[..n] + s[n + 1..]
  }

  lemma WithoutMore<T>(s: seq<T>, x: T, n: nat)
    requires n < |s|
    ensures Without(s + [x], n) == Without(s, n) + [x]
  {
  }

  lemma WithoutLast<T>(s: seq<T>, x: T)
    ensures Without(s + [x], |s|) == s
  {
  }

  /** The calls that leave a record: in DAG mode all but the first failing one, otherwise all. */
  function Reported(dagMode: bool, calls: seq<Record>): seq<Record>
  {
    var n := FirstFailure(calls);
    if dagMode && n < |calls| then Without(calls, n) else calls
  }

  lemma MoreCalls(calls: seq<Record>, r: Record)
    ensures FirstFailure(calls + [r])
         == if FirstFailure(calls) < |calls| || !r.ok then FirstFailure(calls) else |calls| + 1
  {
    assert (calls + [r])[..|calls|] == calls;
  }

  lemma ReportedMore(dagMode: bool, calls: seq<Record>, r: Record)
    ensures Reported(dagMode, calls + [r])
         == if dagMode && FirstFailure(calls) == |calls| && !r.ok then calls else Reported(dagMode, calls) + [r]
  {
    MoreCalls(calls, r);
    if dagMode && FirstFailure(calls) < |calls| {
      WithoutMore(calls, r, FirstFailure(calls));
    } else {
      WithoutLast(calls, r);
    }
  }

  /** The record that the walk has made and not handed over yet. */
  function Pending(g: Goroutine): seq<Record>
  {
    if g.pc.Sending? && g.rest != [] then [Record(g.driver, g.inv, g.rest[0].id, g.pc.ok)] else []
  }

  /** A walk retries once, in DAG mode, after its first failing call, on the same node. */
  ghost predicate RetryOk(dagMode: bool, g: Goroutine, h: History)
  {
    var n := FirstFailure(h.calls);
    && (g.retries != 0 <==> dagMode && n < |h.calls|)
    && (dagMode && n + 1 == |h.calls| ==> Invokes(g) && g.rest[0].id == h.calls[n].node)
    && (dagMode && n + 1 < |h.calls| ==> h.calls[n + 1].node == h.calls[n].node)
  }

  predicate LastOk(recs: seq<Record>)
  {
    recs == [] || recs[|recs| - 1].ok
  }

  /** The records are those of the first nodes of the walk's list; only the last one can be of a failure. */
  ghost predicate RecordsOfList(driver: nat, inv: nat, list: seq<Node>, recs: seq<Record>)
  {
    && |recs| <= |list|
    && (forall k :: 0 <= k < |recs| ==> recs[k] == Record(driver, inv, list[k].id, recs[k].ok))
    && (forall k :: 0 <= k < |recs| - 1 ==> recs[k].ok)
  }

  /** Where in its list the walk stands, given what it has recorded. */
  ghost predicate PlaceOk(g: Goroutine, recs: seq<Record>)
  {
    if g.rest == [] then
      (g.pc.AtNode? || g.pc.Exited?) && (|recs| == |g.list| || !LastOk(recs))
    else
      match g.pc
      case AtNode => LastOk(recs) && |recs| < |g.list| && g.rest == g.list[|recs|..]
      case Sending(_, _) => LastOk(recs) && |recs| < |g.list| && g.rest == g.list[|recs|..]
      case Issuing(ok) => AtLast(g, recs) && LastOk(recs) == ok
      case Counting(ok) => AtLast(g, recs) && LastOk(recs) == ok
      case Forking(_) => AtLast(g, recs) && LastOk(recs)
      case Exited => false
  }

  ghost predicate AtLast(g: Goroutine, recs: seq<Record>)
  {
    0 < |recs| <= |g.list| && g.rest == g.list[|recs| - 1..]
  }

  ghost predicate HistoryOk(dagMode: bool, g: Goroutine, h: History)
  {
    true == (
      && Reported(dagMode, h.calls) == h.recs + Pending(g) && (g.pc.Sending? ==> g.pc.async == h.async)
      && |h.calls| == g.invokes && RetryOk(dagMode, g, h)
      && RecordsOfList(g.driver, g.inv, g.list, h.recs) && PlaceOk(g, h.recs))
  }

  // ---- one step ----

  lemma CallRecords(dagMode: bool, g: Goroutine, h: History, r: Record)
    requires HistoryOk(dagMode, g, h) && Invokes(g)
    ensures Reported(dagMode, h.calls + [r]) == h.recs + if dagMode && g.retries == 0 && !r.ok then [] else [r]
  {
    ReportedMore(dagMode, h.calls, r);
    assert h.recs + Pending(g) == h.recs;
  }

  lemma CallRetry(c: Config, g: Goroutine, h: History, ok: bool, async: bool)
    requires HistoryOk(c.dagMode, g, h) && Invokes(g)
    ensures RetryOk(c.dagMode, StepOf(c, g, ok, async).g,
      Extended(g, h, ok, async && c.asyncMode, []))
  {
    MoreCalls(h.calls, Record(g.driver, g.inv, g.rest[0].id, ok));
  }

  lemma CallKept(c: Config, g: Goroutine, h: History, ok: bool, async: bool)
    requires HistoryOk(c.dagMode, g, h) && Invokes(g)
    ensures HistoryOk(c.dagMode, StepOf(c, g, ok, async).g, Extended(g, h, ok, async && c.asyncMode, []))
  {
    CallRecords(c.dagMode, g, h, Record(g.driver, g.inv, g.rest[0].id, ok));
    CallRetry(c, g, h, ok, async);
    assert h.recs + [] == h.recs;
  }

  lemma OneMore(driver: nat, inv: nat, list: seq<Node>, recs: seq<Record>, r: Record)
    requires RecordsOfList(driver, inv, list, recs) && LastOk(recs) && |recs| < |list|
    requires r == Record(driver, inv, list[|recs|].id, r.ok)
    ensures RecordsOfList(driver, inv, list, recs + [r])
  {
  }

  lemma SendKept(c: Config, g: Goroutine, h: History, ok: bool, async: bool)
    requires HistoryOk(c.dagMode, g, h) && g.pc.Sending?
    ensures var e := StepOf(c, g, ok, async);
      HistoryOk(c.dagMode, e.g, History(h.calls, h.recs + e.rec, h.async))
  {
    var e := StepOf(c, g, ok, async);
    var r := Record(g.driver, g.inv, g.rest[0].id, g.pc.ok);
    OneMore(g.driver, g.inv, g.list, h.recs, r);
    assert e.rec == [r] && e.g == g.(pc := Issuing(g.pc.ok));
    assert h.recs + [r] + [] == h.recs + [r];
  }

  lemma SamePlace(dagMode: bool, g: Goroutine, t: Goroutine, h: History)
    requires HistoryOk(dagMode, g, h) && Pending(g) == [] && !Invokes(g)
    requires t == g.(rest := t.rest, pc := t.pc, prev := t.prev) && Pending(t) == [] && PlaceOk(t, h.recs)
    ensures HistoryOk(dagMode, t, h)
  {
  }

  lemma QuietKept(c: Config, g: Goroutine, h: History, ok: bool, async: bool)
    requires HistoryOk(c.dagMode, g, h) && !g.pc.Exited? && !g.pc.Sending? && !Invokes(g)
    ensures var e := StepOf(c, g, ok, async);
      e.rec == [] && HistoryOk(c.dagMode, e.g, h)
  {
    var t := StepOf(c, g, ok, async).g;
    assert t == g.(rest := t.rest, pc := t.pc, prev := t.prev);
    SamePlace(c.dagMode, g, t, h);
  }

  lemma StartKept(dagMode: bool, driver: nat, inv: nat, prev: Option<nat>, list: seq<Node>)
    ensures HistoryOk(dagMode, StartOf(driver, inv, prev, list), Empty)
  {
  }

  lemma SpawnedKept(c: Config, g: Goroutine, ok: bool, async: bool)
    ensures forall t :: t in StepOf(c, g, ok, async).spawned ==> HistoryOk(c.dagMode, t, Empty)
  {
    if g.rest != [] && g.pc.Forking? && g.pc.next < |g.rest[0].branches| {
      StartKept(c.dagMode, g.driver, g.inv, Some(g.rest[0].id), g.rest[0].branches[g.pc.next].nodes);
    }
  }

  lemma StepKept(c: Config, g: Goroutine, h: History, ok: bool, async: bool)
    requires HistoryOk(c.dagMode, g, h) && !g.pc.Exited?
    ensures var e := StepOf(c, g, ok, async);
      HistoryOk(c.dagMode, e.g, Extended(g, h, ok, async && c.asyncMode, e.rec))
  {
    var e := StepOf(c, g, ok, async);
    assert h.calls + [] == h.calls && h.recs + [] == h.recs;
    if Invokes(g) {
      CallKept(c, g, h, ok, async);
      assert e.rec == [];
    } else if g.pc.Sending? {
      SendKept(c, g, h, ok, async);
    } else {
      QuietKept(c, g, h, ok, async);
    }
  }

  // ---- every run ----

  ghost predicate AllOk(dagMode: bool, gs: seq<Goroutine>, hist: seq<History>)
  {
    |hist| == |gs| && forall i :: 0 <= i < |hist| ==> HistoryOk(dagMode, gs[i], hist[i])
  }

  lemma Replaced(dagMode: bool, gs: seq<Goroutine>, hist: seq<History>, i: nat, g: Goroutine, h: History,
                 spawned: seq<Goroutine>)
    requires AllOk(dagMode, gs, hist) && i < |gs| && HistoryOk(dagMode, g, h)
    requires forall t :: t in spawned ==> HistoryOk(dagMode, t, Empty)
    ensures AllOk(dagMode, gs[i := g] + spawned, hist[i := h] + seq(|spawned|, _ => Empty))
  {
  }

  lemma WalkAfter(c: Config, s: State, hist: seq<History>, i: nat, ok: bool, async: bool)
    requires Enabled(c, s, Walk(i, ok, async)) && |hist| == |s.gs|
    ensures var e := StepOf(c, s.gs[i], ok, async);
      && Apply(c, s, Walk(i, ok, async)).gs == s.gs[i := e.g] + e.spawned
      && After(c, s, hist, Walk(i, ok, async))
      == hist[i := Extended(s.gs[i], hist[i], ok, async && c.asyncMode, e.rec)] + seq(|e.spawned|, _ => Empty)
  {
    var e, t := StepOf(c, s.gs[i], ok, async), Apply(c, s, Walk(i, ok, async));
    assert t.gs == s.gs[i := e.g] + e.spawned && t.log == s.log + e.rec;
    assert t.log[|s.log|..] == e.rec;
  }

  lemma WalkAllOk(c: Config, s: State, hist: seq<History>, i: nat, ok: bool, async: bool, e: Effect)
    requires Enabled(c, s, Walk(i, ok, async)) && |hist| == |s.gs| && e == StepOf(c, s.gs[i], ok, async)
    requires var x := Extended(s.gs[i], hist[i], ok, async && c.asyncMode, e.rec);
      AllOk(c.dagMode, s.gs[i := e.g] + e.spawned, hist[i := x] + seq(|e.spawned|, _ => Empty))
    ensures AllOk(c.dagMode, Apply(c, s, Walk(i, ok, async)).gs, After(c, s, hist, Walk(i, ok, async)))
  {
    WalkAfter(c, s, hist, i, ok, async);
  }

  lemma WalkKept(c: Config, s: State, hist: seq<History>, i: nat, ok: bool, async: bool)
    requires AllOk(c.dagMode, s.gs, hist) && i < |s.gs| && !s.gs[i].pc.Exited?
    ensures var e := StepOf(c, s.gs[i], ok, async);
      var x := Extended(s.gs[i], hist[i], ok, async && c.asyncMode, e.rec);
      AllOk(c.dagMode, s.gs[i := e.g] + e.spawned, hist[i := x] + seq(|e.spawned|, _ => Empty))
  {
    var g, h := s.gs[i], hist[i];
    var e := StepOf(c, g, ok, async);
    StepKept(c, g, h, ok, async);
    SpawnedKept(c, g, ok, async);
    Replaced(c.dagMode, s.gs, hist, i, e.g, Extended(g, h, ok, async && c.asyncMode, e.rec), e.spawned);
  }

  lemma AfterKept(c: Config, s: State, hist: seq<History>, a: Action)
    requires Enabled(c, s, a) && AllOk(c.dagMode, s.gs, hist)
    ensures AllOk(c.dagMode, Apply(c, s, a).gs, After(c, s, hist, a))
  {
    if a.Walk? {
      WalkKept(c, s, hist, a.i, a.ok, a.async);
      WalkAllOk(c, s, hist, a.i, a.ok, a.async, StepOf(c, s.gs[a.i], a.ok, a.async));
    } else if a.StartInvocation? {
      StartKept(c.dagMode, a.d, s.ds[a.d].next, None, c.drivers[a.d].root);
    } else {
      assert Apply(c, s, a).gs == s.gs;
    }
  }

  lemma {:induction false} RunKept(c: Config, s: State, hist: seq<History>, run: seq<Action>)
    requires Legal(c, s, run) && AllOk(c.dagMode, s.gs, hist)
    ensures AllOk(c.dagMode, Exec(c, s, run).gs, Along(c, s, hist, run))
    decreases |run|
  {
    if run != [] {
      AfterKept(c, s, hist, run[0]);
      RunKept(c, Apply(c, s, run[0]), After(c, s, hist, run[0]), run[1..]);
    }
  }

  /** The weight of all records of a walk. */
  ghost function OfWalk(f: Record -> nat): History -> nat
  {
    (h: History) => Sum(h.recs, f)
  }

  lemma {:induction false} NewWalks(n: nat, f: Record -> nat)
    ensures Sum(seq(n, _ => Empty), OfWalk(f)) == 0
  {
    SumZero(seq(n, _ => Empty), OfWalk(f));
  }

  lemma ReplacedSum(log: seq<Record>, hist: seq<History>, i: nat, h: History, rec: seq<Record>, n: nat,
                    f: Record -> nat)
    requires Sum(log, f) == Sum(hist, OfWalk(f)) && i < |hist| && h.recs == hist[i].recs + rec
    ensures Sum(log + rec, f) == Sum(hist[i := h] + seq(n, _ => Empty), OfWalk(f))
  {
    NewWalks(n, f);
    SumConcat(log, rec, f);
    SumConcat(hist[i].recs, rec, f);
    SumUpdate(hist, i, h, OfWalk(f));
    SumConcat(hist[i := h], seq(n, _ => Empty), OfWalk(f));
  }

  lemma WalkShared(c: Config, s: State, hist: seq<History>, a: Action, f: Record -> nat)
    requires Enabled(c, s, a) && a.Walk? && |hist| == |s.gs| && Sum(s.log, f) == Sum(hist, OfWalk(f))
    ensures Sum(Apply(c, s, a).log, f) == Sum(After(c, s, hist, a), OfWalk(f))
  {
    var g, e := s.gs[a.i], StepOf(c, s.gs[a.i], a.ok, a.async);
    WalkAfter(c, s, hist, a.i, a.ok, a.async);
    ReplacedSum(s.log, hist, a.i, Extended(g, hist[a.i], a.ok, a.async && c.asyncMode, e.rec), e.rec, |e.spawned|, f);
    assert Apply(c, s, a).log == s.log + e.rec;
  }

  lemma OtherShared(c: Config, s: State, hist: seq<History>, a: Action, f: Record -> nat)
    requires Enabled(c, s, a) && !a.Walk? && |hist| == |s.gs| && Sum(s.log, f) == Sum(hist, OfWalk(f))
    ensures Sum(Apply(c, s, a).log, f) == Sum(After(c, s, hist, a), OfWalk(f))
  {
    var t := Apply(c, s, a);
    assert t.log == s.log;
    NewWalks(|t.gs| - |s.gs|, f);
    SumConcat(hist, seq(|t.gs| - |s.gs|, _ => Empty), OfWalk(f));
  }

  lemma {:induction false} RecordsShared(c: Config, s: State, hist: seq<History>, run: seq<Action>, f: Record -> nat)
    requires Legal(c, s, run) && |hist| == |s.gs| && Sum(s.log, f) == Sum(hist, OfWalk(f))
    ensures Sum(Exec(c, s, run).log, f) == Sum(Along(c, s, hist, run), OfWalk(f))
    decreases |run|
  {
    if run != [] {
      if run[0].Walk? {
        WalkShared(c, s, hist, run[0], f);
      } else {
        OtherShared(c, s, hist, run[0], f);
      }
      Sizes(c, s, hist, run[0]);
      RecordsShared(c, Apply(c, s, run[0]), After(c, s, hist, run[0]), run[1..], f);
    }
  }

  /** What the last theorem says of one walk. */
  ghost predicate Recorded(dagMode: bool, g: Goroutine, h: History)
    requires |h.recs| <= |g.list|
  {
    var n, made := FirstFailure(h.calls), h.recs + Pending(g);
    && |h.calls| == g.invokes
    && (if dagMode && n < |h.calls| then made == h.calls[..n] + h.calls[n + 1..] else made == h.calls)
    && (dagMode && n + 1 == |h.calls| ==> Invokes(g) && g.rest[0].id == h.calls[n].node)
    && (dagMode && n + 1 < |h.calls| ==> h.calls[n + 1].node == h.calls[n].node)
    && (forall k :: 0 <= k < |h.recs| ==>
          && h.recs[k] == Record(g.driver, g.inv, g.list[k].id, h.recs[k].ok)
          && (k < |h.recs| - 1 ==> h.recs[k].ok)
          && (dagMode && !h.recs[k].ok ==> n <= k && h.recs[k] == h.calls[k + 1]))
    && (g.pc.Exited? && |h.recs| < |g.list| ==> h.recs != [] && !h.recs[|h.recs| - 1].ok)
  }

  lemma RecordedOf(dagMode: bool, g: Goroutine, h: History)
    requires HistoryOk(dagMode, g, h)
    ensures |h.recs| <= |g.list| && Recorded(dagMode, g, h)
  {
    var n, made := FirstFailure(h.calls), h.recs + Pending(g);
    assert forall k :: 0 <= k < |h.recs| ==> made[k] == h.recs[k];
  }

  /**
   At every moment of every run, for every walk: its records, with the one that is on its way, are its calls of
   `Invoke` with the outcomes that these had, in order.  Without DAG mode that is every call.  In DAG mode the first
   failing call is left out, and the call after it is of the same node; it is there unless the walk is about to make
   it.  A failure recorded in DAG mode is therefore the second failing call.  The records are of the first nodes of
   the list, all but the last of success; a walk that is over has recorded the whole list or ended with a failure.
   */
  lemma CallsRecorded(c: Config, run: seq<Action>)
    requires Legal(c, Init(c), run)
    ensures var gs, hist := Exec(c, Init(c), run).gs, Along(c, Init(c), [], run);
      && |hist| == |gs|
      && forall i :: 0 <= i < |gs| ==>
           |hist[i].recs| <= |gs[i].list| && Recorded(c.dagMode, gs[i], hist[i])
  {
    var gs, hist := Exec(c, Init(c), run).gs, Along(c, Init(c), [], run);
    RunKept(c, Init(c), [], run);
    forall i | 0 <= i < |gs|
      ensures |hist[i].recs| <= |gs[i].list| && Recorded(c.dagMode, gs[i], hist[i])
    {
      RecordedOf(c.dagMode, gs[i], hist[i]);
    }
  }

  /** The log holds the records of all walks and nothing else: whatever is counted, it has the sum over the walks. */
  lemma LogOfWalks(c: Config, run: seq<Action>, f: Record -> nat)
    requires Legal(c, Init(c), run)
    ensures Sum(Exec(c, Init(c), run).log, f) == Sum(Along(c, Init(c), [], run), OfWalk(f))
  {
    RecordsShared(c, Init(c), [], run, f);
  }

  lemma RouteOfCall(c: Config, run: seq<Action>, i: nat)
    requires Legal(c, Init(c), run) && i < |Exec(c, Init(c), run).gs|
    ensures var g, hist := Exec(c, Init(c), run).gs[i], Along(c, Init(c), [], run);
      i < |hist| && (g.pc.Sending? ==> g.pc.async == hist[i].async)
  {
    RunKept(c, Init(c), [], run);
    assert HistoryOk(c.dagMode, Exec(c, Init(c), run).gs[i], Along(c, Init(c), [], run)[i]);
  }

  /** Only a walk that has a record adds to the log, namely that record. */
  lemma Logged(c: Config, s: State, a: Action)
    requires Enabled(c, s, a)
    ensures Apply(c, s, a).log == s.log + if a.Walk? then Pending(s.gs[a.i]) else []
  {
    if a.Walk? && Pending(s.gs[a.i]) != [] {
      assert StepOf(c, s.gs[a.i], a.ok, a.async).rec == Pending(s.gs[a.i]);
    }
  }

  /**
   A record is handed over to the queue of asynchronous records exactly if the loader runs in asynchronous mode and
   the last call of `Invoke` said that the answer comes later; otherwise the collector takes it at once.
   */
  lemma HandedOver(c: Config, run: seq<Action>, i: nat, ok: bool, async: bool)
    requires Legal(c, Init(c), run) && Enabled(c, Exec(c, Init(c), run), Walk(i, ok, async))
    ensures var s, hist := Exec(c, Init(c), run), Along(c, Init(c), [], run);
      var t, r := Apply(c, s, Walk(i, ok, async)), Pending(s.gs[i]);
      && i < |hist|
      && t.log == s.log + r
      && t.asyncQueue == s.asyncQueue + (if hist[i].async then r else [])
      && t.written == s.written + (if hist[i].async then [] else r)
  {
    var s := Exec(c, Init(c), run);
    RouteOfCall(c, run, i);
    Logged(c, s, Walk(i, ok, async));
    Routed(c, s, i, ok, async);
  }

  lemma Routed(c: Config, s: State, i: nat, ok: bool, async: bool)
    requires Enabled(c, s, Walk(i, ok, async))
    ensures var t, r := Apply(c, s, Walk(i, ok, async)), Pending(s.gs[i]);
      && (r == [] ==> t.asyncQueue == s.asyncQueue && t.written == s.written)
      && (s.gs[i].pc.Sending? ==>
            && t.asyncQueue == s.asyncQueue + (if s.gs[i].pc.async then r else [])
            && t.written == s.written + (if s.gs[i].pc.async then [] else r))
  {
    var e, r := StepOf(c, s.gs[i], ok, async), Pending(s.gs[i]);
    assert e.rec == r;
    if r != [] {
      assert e.async == s.gs[i].pc.async && r == [r[0]];
    }
  }
}
