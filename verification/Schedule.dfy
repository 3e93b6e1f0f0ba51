/**
 Generation of the inter-arrival times of one function from its per-minute invocation counts.
 Times are exact reals; every random draw is an argument.
 */
module Schedule {
  import opened SeqSums
  import opened IntervalIndex
  import opened Timeline

  datatype Distribution = Exponential | Uniform | Equidistant | Unsupported

  /** getBlankTimeUnit: the length of a trace column in microseconds. */
  function TimeUnit(g: Granularity): (t: real)
    ensures t > 0.0
  {
    if g == Minute then 60_000_000.0 else 1_000_000.0
  }

  /** When generation ends in log.Fatal: an unsupported distribution, or a draw of zero. */
  predicate Aborts(n: nat, dist: Distribution, draws: seq<real>)
  {
    n > 0 && (dist == Unsupported || (dist != Equidistant && 0.0 in draws))
  }

  ghost predicate Drawn(n: nat, draws: seq<real>)
  {
    |draws| == n && forall i :: 0 <= i < n ==> draws[i] >= 0.0
  }

  /** The relative lengths of the gaps of a column: as drawn, or all equal. */
  function Shares(n: nat, dist: Distribution, draws: seq<real>): seq<real>
  {
    if dist == Equidistant then seq(n, _ => 1.0) else draws
  }

  /** `gaps` divides the time `t` in proportion to `w`. */
  ghost predicate Scaled(w: seq<real>, t: real, gaps: seq<real>)
  {
    |gaps| == |w| && forall i :: 0 <= i < |w| ==> gaps[i] * Duration(w) == w[i] * t
  }

  lemma {:induction false} PositiveSchedule(w: seq<real>, k: nat)
    requires Positive(w) && 0 < k <= |w|
    ensures Scheduled(w, k) > 0.0
  {
    if k > 1 {
      PositiveSchedule(w, k - 1);
    }
  }

  lemma {:induction false} ScaledSchedule(w: seq<real>, t: real, gaps: seq<real>, k: nat)
    requires Scaled(w, t, gaps) && k <= |w|
    ensures Scheduled(gaps, k) * Duration(w) == Scheduled(w, k) * t
  {
    if k > 0 {
      ScaledSchedule(w, t, gaps, k - 1);
      var d, a, b := Duration(w), Scheduled(gaps, k - 1), Scheduled(w, k - 1);
      assert (a + gaps[k - 1]) * d == a * d + gaps[k - 1] * d;
      assert (b + w[k - 1]) * t == b * t + w[k - 1] * t;
    }
  }

  lemma PositiveFactor(x: real, d: real, y: real, t: real)
    requires x * d == y * t && d > 0.0 && y > 0.0 && t > 0.0
    ensures x > 0.0 && (d == y ==> x == t)
  {
    assert y * t > 0.0;
    assert x == y * t / d;
    assert d == y ==> (x - t) * d == 0.0;
  }

  /** Scaled gaps are positive and fill the column exactly. */
  lemma ScaledFills(w: seq<real>, t: real, gaps: seq<real>)
    requires Scaled(w, t, gaps) && Positive(w) && w != [] && t > 0.0
    ensures Positive(gaps) && Duration(gaps) == t
  {
    PositiveSchedule(w, |w|);
    ScaledSchedule(w, t, gaps, |w|);
    PositiveFactor(Duration(gaps), Duration(w), Duration(w), t);
    forall i | 0 <= i < |gaps|
      ensures gaps[i] > 0.0
    {
      PositiveFactor(gaps[i], Duration(w), w[i], t);
    }
  }

  lemma {:induction false} Ones(n: nat, k: nat)
    requires k <= n
    ensures Scheduled(seq(n, _ => 1.0), k) == k as real
  {
    if k > 0 {
      Ones(n, k - 1);
    }
  }

  // ---- one column ----

  lemma Append(iat: seq<real>, x: real)
    ensures Duration(iat + [x]) == Duration(iat) + x
  {
    ScheduledConcat(iat, [x], |iat|);
  }

  /** The gap of equidistant invocations. */
  method EqualDistance(n: nat, g: Granularity) returns (d: real)
    requires n > 0
    ensures d == EqualGap(n, g)
  {
    d := 1_000_000.0 / n as real;
    if g == Minute {
      d := d * 60.0;
    }
  }

  function EqualGap(n: nat, g: Granularity): (d: real)
    requires n > 0
    ensures d > 0.0
  {
    TimeUnit(g) / n as real
  }

  lemma EqualScaled(n: nat, g: Granularity, draws: seq<real>, gaps: seq<real>)
    requires n > 0 && |gaps| == n && forall j :: 0 <= j < n ==> gaps[j] == EqualGap(n, g)
    ensures Scaled(Shares(n, Equidistant, draws), TimeUnit(g), gaps)
  {
    Ones(n, n);
    assert EqualGap(n, g) * n as real == TimeUnit(g);
  }

  /** The loop that collects the unscaled gaps. */
  method DrawIATs(n: nat, dist: Distribution, g: Granularity, draws: seq<real>)
    returns (r: Option<seq<real>>, total: real)
    requires n > 0 && Drawn(n, draws)
    ensures r.None? <==> Aborts(n, dist, draws)
    ensures r.Some? ==> total == Duration(r.value) && Positive(r.value)
    ensures r.Some? && dist != Equidistant ==> r.value == draws
    ensures r.Some? && dist == Equidistant ==> Scaled(Shares(n, dist, draws), TimeUnit(g), r.value)
  {
    var iatResult: seq<real> := [];
    total := 0.0;
    for i := 0 to n
      invariant |iatResult| == i && total == Duration(iatResult) && Positive(iatResult)
      invariant i > 0 ==> dist != Unsupported
      invariant dist != Equidistant ==> iatResult == draws[..i] && forall j :: 0 <= j < i ==> draws[j] != 0.0
      invariant dist == Equidistant ==> forall j :: 0 <= j < i ==> iatResult[j] == EqualGap(n, g)
    {
      var iat: real;
      match dist {
        case Exponential | Uniform =>
          iat := draws[i];
        case Equidistant =>
          iat := EqualDistance(n, g);
        case Unsupported =>
          return None, 0.0;
      }
      if iat == 0.0 {
        return None, 0.0;
      }
      Append(iatResult, iat);
      iatResult := iatResult + [iat];
      total := total + iat;
    }
    if dist == Equidistant {
      EqualScaled(n, g, draws, iatResult);
    }
    r := Some(iatResult);
  }

  lemma ShareOf(x: real, total: real, g: Granularity)
    requires total > 0.0
    ensures x / total * 1_000_000.0 * (if g == Minute then 60.0 else 1.0) * total == x * TimeUnit(g)
  {
    var q := x / total;
    assert q * total == x;
  }

  /** The loop that scales the drawn gaps to the length of the column. */
  method ScaleIATs(iat: seq<real>, total: real, g: Granularity) returns (r: seq<real>)
    requires total == Duration(iat) > 0.0
    ensures Scaled(iat, TimeUnit(g), r)
  {
    r := iat;
    for i := 0 to |r|
      invariant |r| == |iat| && r[i..] == iat[i..]
      invariant forall j :: 0 <= j < i ==> r[j] * total == iat[j] * TimeUnit(g)
    {
      ghost var rest := r[i + 1..];
      ShareOf(r[i], total, g);
      r := r[i := r[i] / total];
      r := r[i := r[i] * 1_000_000.0];
      if g == Minute {
        r := r[i := r[i] * 60.0];
      }
      assert r[i + 1..] == rest;
    }
  }

  /**
   The gap in which the time `split` falls is `i`; `r` starts with what is left of that gap and ends with what has
   passed of it.
   */
  ghost predicate CutAt(gaps: seq<real>, split: real, i: nat, r: seq<real>)
  {
    && i < |gaps|
    && Scheduled(gaps, i) <= split < Scheduled(gaps, i + 1)
    && r == [Scheduled(gaps, i + 1) - split] + gaps[i + 1..] + gaps[..i] + [split - Scheduled(gaps, i)]
  }

  /** The loop that looks for the gap to cut; that there is one is what keeps the index in range. */
  method ShiftIATs(gaps: seq<real>, split: real) returns (r: seq<real>)
    requires 0.0 <= split < Duration(gaps)
    ensures exists i: nat :: CutAt(gaps, split, i, r)
  {
    var sum, i := 0.0, 0;
    while i < |gaps|
      invariant 0 <= i <= |gaps| && sum == Scheduled(gaps, i) <= split
    {
      sum := sum + gaps[i];
      if sum > split {
        break;
      }
      i := i + 1;
    }
    var beginningIAT := sum - split;
    var endIAT := gaps[i] - beginningIAT;
    var finalIAT := [beginningIAT] + gaps[i + 1..];
    finalIAT := finalIAT + gaps[..i];
    r := finalIAT + [endIAT];
    assert CutAt(gaps, split, i, r);
  }

  lemma Slice(gaps: seq<real>, i: nat, k: nat)
    requires i + k <= |gaps|
    ensures Scheduled(gaps[i..], k) == Scheduled(gaps, i + k) - Scheduled(gaps, i)
    ensures Scheduled(gaps[..i], i) == Scheduled(gaps, i)
  {
    assert gaps == gaps[..i] + gaps[i..];
    ScheduledConcat(gaps[..i], gaps[i..], i + k);
    ScheduledConcat(gaps[..i], gaps[i..], i);
  }

  /** A list made of a first gap, a part after the cut, a part before the cut and a last gap. */
  lemma FourParts(a: real, x: seq<real>, y: seq<real>, b: real, j: nat)
    requires j <= |x| + |y|
    ensures Scheduled([a] + x + y + [b], j + 1)
         == a + if j <= |x| then Scheduled(x, j) else Duration(x) + Scheduled(y, j - |x|)
    ensures Duration([a] + x + y + [b]) == a + Duration(x) + Duration(y) + b
  {
    var all := [a] + (x + y);
    assert [a] + x + y + [b] == all + [b];
    assert [a] == [] + [a];
    Append([], a);
    Append(all, b);
    ScheduledConcat(all, [b], j + 1);
    ScheduledConcat([a], x + y, j + 1);
    ScheduledConcat(x, y, j);
    ScheduledConcat([a], x + y, 1 + |x| + |y|);
    ScheduledConcat(x, y, |x| + |y|);
  }

  /**
   The shifted column is the same column started `split` later and continued cyclically: invocation `j` fires at
   the end of gap `i + j`, counted from `split` and wrapped around.  The duration stays the same.
   */
  lemma ShiftIsRotation(gaps: seq<real>, split: real, i: nat, r: seq<real>, j: nat)
    requires CutAt(gaps, split, i, r) && j < |gaps|
    ensures |r| == |gaps| + 1 && Duration(r) == Duration(gaps)
    ensures Scheduled(r, j + 1)
         == if i + 1 + j <= |gaps| then Scheduled(gaps, i + 1 + j) - split
            else Scheduled(gaps, i + 1 + j - |gaps|) + Duration(gaps) - split
  {
    var n, x, y := |gaps|, gaps[i + 1..], gaps[..i];
    FourParts(Scheduled(gaps, i + 1) - split, x, y, split - Scheduled(gaps, i), j);
    Slice(gaps, i + 1, n - i - 1);
    Slice(gaps, i, 0);
    if j <= |x| {
      Slice(gaps, i + 1, j);
    } else {
      ScheduledAgree(y, gaps, j - |x|);
    }
  }

  /**
   A time within a column that starts at 0: the end belongs to the column only if it is shifted, the start only if
   not.
   */
  predicate Within(t: real, shift: bool, at: real)
  {
    if shift then 0.0 < at <= t else 0.0 <= at < t
  }

  ghost predicate Placed(t: real, shift: bool, r: seq<real>, j: nat)
    requires j < |r|
  {
    Within(t, shift, Scheduled(r, j + 1))
  }

  /** The times of a column with `n` invocations: a first gap, and then one gap after every invocation. */
  ghost predicate Column(t: real, shift: bool, n: nat, r: seq<real>)
  {
    && |r| == n + 1 && Duration(r) == t
    && (forall i :: 0 <= i <= n ==> r[i] >= 0.0)
    && (forall j {:trigger Placed(t, shift, r, j)} :: 0 <= j < n ==> Placed(t, shift, r, j))
  }

  lemma ShiftedColumn(gaps: seq<real>, split: real, i: nat, r: seq<real>)
    requires Positive(gaps) && CutAt(gaps, split, i, r)
    ensures Column(Duration(gaps), true, |gaps|, r)
  {
    var n, t := |gaps|, Duration(gaps);
    ShiftIsRotation(gaps, split, i, r, 0);
    forall j | 0 <= j < n
      ensures Placed(t, true, r, j)
    {
      ShiftIsRotation(gaps, split, i, r, j);
      ScheduledMono(r, 1, j + 1);
      ScheduledMono(r, j + 1, n + 1);
    }
  }

  lemma UnshiftedColumn(gaps: seq<real>)
    requires Positive(gaps)
    ensures Column(Duration(gaps), false, |gaps|, [0.0] + gaps)
  {
    var n, r := |gaps|, [0.0] + gaps;
    assert [0.0] == [] + [0.0];
    Append([], 0.0);
    ScheduledConcat([0.0], gaps, n + 1);
    forall j | 0 <= j < n
      ensures Placed(Duration(gaps), false, r, j)
    {
      ScheduledConcat([0.0], gaps, j + 1);
      ScheduledMono(r, 0, j + 1);
      ScheduledMono(gaps, j + 1, n);
    }
  }

  lemma EmptyColumn(t: real, shift: bool)
    requires t > 0.0
    ensures Column(t, shift, 0, [t])
  {
    assert [t] == [] + [t];
    Append([], t);
  }

  /** The time that the gaps of a column took before they were scaled. */
  function RawDuration(n: nat, dist: Distribution, g: Granularity, draws: seq<real>): real
  {
    if n == 0 then 0.0 else if dist == Equidistant then TimeUnit(g) else Duration(draws)
  }

  /** The column `r` of these gaps is cut where the draw says if it is shifted, and otherwise begins at once. */
  ghost predicate MadeOf(gaps: seq<real>, shift: bool, t: real, cut: real, at: nat, r: seq<real>)
  {
    if shift then CutAt(gaps, cut * t, at, r) else r == [0.0] + gaps
  }

  /** `r` is a column of gaps in the proportions drawn, cut where the draw `cut` says if it is shifted. */
  ghost predicate DrawnColumn(n: nat, dist: Distribution, shift: bool, t: real, draws: seq<real>, cut: real,
      r: seq<real>)
  {
    && |r| == n + 1
    && exists gaps: seq<real>, at: nat ::
         Scaled(Shares(n, dist, draws), t, gaps) && MadeOf(gaps, shift, t, cut, at, r)
  }

  /** generateIATPerGranularity; `cut` is the draw that decides where a shifted column is cut. */
  method GenerateIATPerGranularity(n: nat, dist: Distribution, shift: bool, g: Granularity, draws: seq<real>, cut: real)
    returns (r: Option<seq<real>>, total: real, ghost gaps: seq<real>, ghost at: nat)
    requires Drawn(n, draws) && 0.0 <= cut < 1.0
    ensures r.None? <==> Aborts(n, dist, draws)
    ensures r.Some? ==> Column(TimeUnit(g), shift, n, r.value)
    ensures r.Some? ==> total == RawDuration(n, dist, g, draws)
    ensures r.Some? && n > 0 ==> Scaled(Shares(n, dist, draws), TimeUnit(g), gaps)
    ensures r.Some? && n > 0 ==> if shift then CutAt(gaps, cut * TimeUnit(g), at, r.value) else r.value == [0.0] + gaps
    ensures r.Some? && n > 0 ==> DrawnColumn(n, dist, shift, TimeUnit(g), draws, cut, r.value)
  {
    gaps, at := [], 0;
    if n == 0 {
      EmptyColumn(TimeUnit(g), shift);
      return Some([TimeUnit(g)]), 0.0, gaps, at;
    }
    r, total := DrawIATs(n, dist, g, draws);
    if r.None? {
      return;
    }
    var iatResult := r.value;
    if total == 0.0 {
      total := 1.0;
    }
    PositiveSchedule(iatResult, |iatResult|);
    if dist == Uniform || dist == Exponential {
      iatResult := ScaleIATs(iatResult, total, g);
    }
    gaps := iatResult;
    ScaledFills(Shares(n, dist, draws), TimeUnit(g), gaps);
    iatResult, at := PlaceIATs(iatResult, shift, g, cut);
    assert MadeOf(gaps, shift, TimeUnit(g), cut, at, iatResult);
    r := Some(iatResult);
  }

  /** The last part of it: the column is cut and rotated, or its first invocation put at its start. */
  method PlaceIATs(gaps: seq<real>, shift: bool, g: Granularity, cut: real) returns (r: seq<real>, ghost at: nat)
    requires Positive(gaps) && Duration(gaps) == TimeUnit(g) && 0.0 <= cut < 1.0
    ensures Column(TimeUnit(g), shift, |gaps|, r)
    ensures if shift then CutAt(gaps, cut * TimeUnit(g), at, r) else r == [0.0] + gaps
  {
    at := 0;
    if shift {
      var split := cut * 1_000_000.0;
      if g == Minute {
        split := split * 60.0;
      }
      r := ShiftIATs(gaps, split);
      at :| CutAt(gaps, split, at, r);
      ShiftedColumn(gaps, split, at, r);
    } else {
      UnshiftedColumn(gaps);
      r := [0.0] + gaps;
    }
  }

  // ---- all columns of a function ----

  /** Invocation `k` fires within column `m`. */
  ghost predicate Fires(t: real, shift: bool, iat: seq<real>, m: int, k: int)
  {
    0 <= k < |iat| && Within(t, shift, Scheduled(iat, k + 1) - m as real * t)
  }

  /** The first `i` columns: one open gap at the end, every invocation within its own column. */
  ghost predicate Built(trace: seq<nat>, t: real, shift: bool, i: nat, iat: seq<real>)
    requires i <= |trace|
  {
    && |iat| == Prefix(trace, i) + 1 && Duration(iat) == i as real * t
    && (forall k :: 0 <= k < |iat| ==> iat[k] >= 0.0)
    && (forall m, k {:trigger InMinute(trace, m, k)} :: InMinute(trace, m, k) && m < i ==> Fires(t, shift, iat, m, k))
  }

  /** The schedule of a whole trace: one gap before every invocation, every invocation within its own column. */
  ghost predicate Scheduling(trace: seq<nat>, t: real, shift: bool, iat: seq<real>)
  {
    && |iat| == Total(trace)
    && (forall k :: 0 <= k < |iat| ==> iat[k] >= 0.0)
    && (forall m, k {:trigger InMinute(trace, m, k)} :: InMinute(trace, m, k) ==> Fires(t, shift, iat, m, k))
  }

  /** Invocation `j` after number `first` fires at the time that column `r`, which begins at `start`, gives it. */
  ghost predicate OnTime(start: real, r: seq<real>, first: nat, iat: seq<real>, j: nat)
  {
    j < |r| && first + j < |iat| && Scheduled(iat, first + j + 1) == start + Scheduled(r, j + 1)
  }

  /** The `n` invocations from number `first` on fire at the times of column `r`, which begins at `start`. */
  ghost predicate Timed(start: real, r: seq<real>, first: nat, n: nat, iat: seq<real>)
  {
    first + n <= |iat| && n < |r| && forall j :: 0 <= j < n ==> OnTime(start, r, first, iat, j)
  }

  /** The invocations of minute `m` fire at the times of a column made from that minute's draws. */
  ghost predicate MinuteAsDrawn(trace: seq<nat>, dist: Distribution, shift: bool, t: real, draws: seq<seq<real>>,
                                cuts: seq<real>, iat: seq<real>, m: nat)
    requires m < |trace| == |draws| == |cuts|
  {
    true == exists r :: DrawnColumn(trace[m], dist, shift, t, draws[m], cuts[m], r)
                     && Timed(m as real * t, r, Prefix(trace, m), trace[m], iat)
  }

  /** Every one of the first `i` minutes that has invocations has them where its draws place them. */
  ghost predicate AsDrawn(trace: seq<nat>, dist: Distribution, shift: bool, t: real, draws: seq<seq<real>>,
                          cuts: seq<real>, i: nat, iat: seq<real>)
    requires i <= |trace| == |draws| == |cuts|
  {
    i > 0 ==>
      && AsDrawn(trace, dist, shift, t, draws, cuts, i - 1, iat)
      && (trace[i - 1] > 0 ==> MinuteAsDrawn(trace, dist, shift, t, draws, cuts, iat, i - 1))
  }

  lemma {:induction false} DrawnAt(trace: seq<nat>, dist: Distribution, shift: bool, t: real, draws: seq<seq<real>>,
                                   cuts: seq<real>, i: nat, iat: seq<real>, m: nat)
    requires m < i <= |trace| == |draws| == |cuts| && trace[m] > 0
    requires AsDrawn(trace, dist, shift, t, draws, cuts, i, iat)
    ensures MinuteAsDrawn(trace, dist, shift, t, draws, cuts, iat, m)
  {
    if m < i - 1 {
      DrawnAt(trace, dist, shift, t, draws, cuts, i - 1, iat, m);
    }
  }

  lemma JoinKeeps(start: real, c: seq<real>, first: nat, n: nat, iat: seq<real>, r: seq<real>)
    requires Timed(start, c, first, n, iat) && r != [] && first + n < |iat|
    ensures Timed(start, c, first, n, Joined(iat, r))
  {
    forall j | 0 <= j < n
      ensures OnTime(start, c, first, Joined(iat, r), j)
    {
      assert OnTime(start, c, first, iat, j);
      JoinedTimes(iat, r, first + j);
    }
  }

  lemma JoinPlaces(iat: seq<real>, r: seq<real>)
    requires iat != [] && r != []
    ensures Timed(Duration(iat), r, |iat| - 1, |r| - 1, Joined(iat, r))
  {
    var first, joined := |iat| - 1, Joined(iat, r);
    forall j | 0 <= j < |r| - 1
      ensures OnTime(Duration(iat), r, first, joined, j)
    {
      JoinedTimes(iat, r, first + j);
    }
  }

  lemma EarlierAsDrawn(trace: seq<nat>, dist: Distribution, shift: bool, t: real, draws: seq<seq<real>>,
                       cuts: seq<real>, i: nat, iat: seq<real>, r: seq<real>, m: nat)
    requires m < i < |trace| == |draws| == |cuts| && |iat| == Prefix(trace, i) + 1 && r != []
    requires MinuteAsDrawn(trace, dist, shift, t, draws, cuts, iat, m)
    ensures MinuteAsDrawn(trace, dist, shift, t, draws, cuts, Joined(iat, r), m)
  {
    var c :| DrawnColumn(trace[m], dist, shift, t, draws[m], cuts[m], c)
      && Timed(m as real * t, c, Prefix(trace, m), trace[m], iat);
    PrefixMono(trace, m + 1, i);
    JoinKeeps(m as real * t, c, Prefix(trace, m), trace[m], iat, r);
  }

  lemma LatestAsDrawn(trace: seq<nat>, dist: Distribution, shift: bool, t: real, draws: seq<seq<real>>,
                      cuts: seq<real>, i: nat, iat: seq<real>, r: seq<real>)
    requires i < |trace| == |draws| == |cuts| && |iat| == Prefix(trace, i) + 1 && Duration(iat) == i as real * t
    requires |r| == trace[i] + 1 && DrawnColumn(trace[i], dist, shift, t, draws[i], cuts[i], r)
    ensures MinuteAsDrawn(trace, dist, shift, t, draws, cuts, Joined(iat, r), i)
  {
    JoinPlaces(iat, r);
    assert Timed(i as real * t, r, Prefix(trace, i), trace[i], Joined(iat, r));
  }

  /** Joining a column leaves the earlier minutes as drawn. */
  lemma {:induction false} JoinAsDrawn(trace: seq<nat>, dist: Distribution, shift: bool, t: real,
                                       draws: seq<seq<real>>, cuts: seq<real>, i: nat, j: nat, iat: seq<real>,
                                       r: seq<real>)
    requires j <= i < |trace| == |draws| == |cuts| && |iat| == Prefix(trace, i) + 1 && r != []
    requires AsDrawn(trace, dist, shift, t, draws, cuts, j, iat)
    ensures AsDrawn(trace, dist, shift, t, draws, cuts, j, Joined(iat, r))
    decreases j
  {
    if j > 0 {
      JoinAsDrawn(trace, dist, shift, t, draws, cuts, i, j - 1, iat, r);
      if trace[j - 1] > 0 {
        EarlierAsDrawn(trace, dist, shift, t, draws, cuts, i, iat, r, j - 1);
      }
    }
  }

  /** The first `i` columns are done: built from what was drawn for them. */
  ghost predicate Done(trace: seq<nat>, dist: Distribution, shift: bool, t: real, draws: seq<seq<real>>,
                       cuts: seq<real>, i: nat, iat: seq<real>)
  {
    true == (
      && i <= |trace| == |draws| == |cuts| && iat != []
      && Built(trace, t, shift, i, iat) && AsDrawn(trace, dist, shift, t, draws, cuts, i, iat))
  }

  lemma JoinDone(trace: seq<nat>, dist: Distribution, shift: bool, t: real, draws: seq<seq<real>>, cuts: seq<real>,
                 i: nat, iat: seq<real>, r: seq<real>)
    requires Done(trace, dist, shift, t, draws, cuts, i, iat) && i < |trace| && Column(t, shift, trace[i], r)
    requires trace[i] > 0 ==> DrawnColumn(trace[i], dist, shift, t, draws[i], cuts[i], r)
    ensures Done(trace, dist, shift, t, draws, cuts, i + 1, Joined(iat, r))
  {
    JoinBuilt(trace, t, shift, i, iat, r);
    if trace[i] > 0 {
      LatestAsDrawn(trace, dist, shift, t, draws, cuts, i, iat, r);
    }
    JoinAsDrawn(trace, dist, shift, t, draws, cuts, i, i, iat, r);
  }

  lemma DropKeeps(start: real, c: seq<real>, first: nat, n: nat, iat: seq<real>)
    requires Timed(start, c, first, n, iat) && first + n < |iat|
    ensures Timed(start, c, first, n, iat[..|iat| - 1])
  {
    var r := iat[..|iat| - 1];
    forall j | 0 <= j < n
      ensures OnTime(start, c, first, r, j)
    {
      assert OnTime(start, c, first, iat, j);
      ScheduledAgree(r, iat, first + j + 1);
    }
  }

  lemma DropMinute(trace: seq<nat>, dist: Distribution, shift: bool, t: real, draws: seq<seq<real>>, cuts: seq<real>,
                   iat: seq<real>, m: nat)
    requires m < |trace| == |draws| == |cuts| && |iat| == Total(trace) + 1
    requires MinuteAsDrawn(trace, dist, shift, t, draws, cuts, iat, m)
    ensures MinuteAsDrawn(trace, dist, shift, t, draws, cuts, iat[..|iat| - 1], m)
  {
    var c :| DrawnColumn(trace[m], dist, shift, t, draws[m], cuts[m], c)
      && Timed(m as real * t, c, Prefix(trace, m), trace[m], iat);
    PrefixMono(trace, m + 1, |trace|);
    DropKeeps(m as real * t, c, Prefix(trace, m), trace[m], iat);
  }

  function Joined(iat: seq<real>, r: seq<real>): seq<real>
    requires iat != [] && r != []
  {
    iat[|iat| - 1 := iat[|iat| - 1] + r[0]] + r[1..]
  }

  lemma {:induction false} BumpFirst(r: seq<real>, x: real, k: nat)
    requires 0 < k <= |r|
    ensures Scheduled(r[0 := x + r[0]], k) == x + Scheduled(r, k)
  {
    if k > 1 {
      BumpFirst(r, x, k - 1);
    } else {
      assert Scheduled(r, 0) == 0.0 && Scheduled(r[0 := x + r[0]], 0) == 0.0;
    }
  }

  /** Joining a column keeps all earlier times and puts the column's own times after them. */
  lemma JoinedTimes(iat: seq<real>, r: seq<real>, k: nat)
    requires iat != [] && r != [] && k < |iat| - 1 + |r|
    ensures Scheduled(Joined(iat, r), k + 1)
         == if k < |iat| - 1 then Scheduled(iat, k + 1) else Duration(iat) + Scheduled(r, k - |iat| + 2)
  {
    var n := |iat| - 1;
    var head, bumped := iat[..n], r[0 := iat[n] + r[0]];
    assert Joined(iat, r) == head + bumped;
    ScheduledConcat(head, bumped, k + 1);
    if k < n {
      ScheduledAgree(head, iat, k + 1);
    } else {
      ScheduledAgree(head, iat, n);
      BumpFirst(r, iat[n], k + 1 - n);
    }
  }

  /** An earlier invocation keeps its time; one of the new column is placed in it. */
  lemma JoinFires(trace: seq<nat>, t: real, shift: bool, i: nat, iat: seq<real>, r: seq<real>, m: int, k: int)
    requires 0 <= m <= i < |trace| && InMinute(trace, m, k)
    requires |iat| == Prefix(trace, i) + 1 && Duration(iat) == i as real * t && |r| == trace[i] + 1
    requires m < i ==> Fires(t, shift, iat, m, k)
    requires m == i ==> Placed(t, shift, r, k - |iat| + 1)
    ensures Fires(t, shift, Joined(iat, r), m, k)
  {
    if m < i {
      PrefixMono(trace, m + 1, i);
    }
    JoinedTimes(iat, r, k);
  }

  lemma JoinBuilt(trace: seq<nat>, t: real, shift: bool, i: nat, iat: seq<real>, r: seq<real>)
    requires i < |trace| && Built(trace, t, shift, i, iat) && Column(t, shift, trace[i], r)
    ensures Built(trace, t, shift, i + 1, Joined(iat, r))
  {
    var joined := Joined(iat, r);
    assert |joined| == Prefix(trace, i + 1) + 1;
    JoinedTimes(iat, r, |joined| - 1);
    assert Duration(joined) == i as real * t + t == (i + 1) as real * t;
    forall k | 0 <= k < |joined|
      ensures joined[k] >= 0.0
    {
      assert k >= |iat| ==> joined[k] == r[k - |iat| + 1];
    }
    forall m, k | InMinute(trace, m, k) && m < i + 1
      ensures Fires(t, shift, joined, m, k)
    {
      JoinFires(trace, t, shift, i, iat, r, m, k);
    }
  }

  lemma DropOpenGap(trace: seq<nat>, t: real, shift: bool, iat: seq<real>)
    requires Built(trace, t, shift, |trace|, iat)
    ensures Scheduling(trace, t, shift, iat[..|iat| - 1])
  {
    var r := iat[..|iat| - 1];
    forall m, k | InMinute(trace, m, k)
      ensures Fires(t, shift, r, m, k)
    {
      PrefixMono(trace, m + 1, |trace|);
      ScheduledAgree(r, iat, k + 1);
    }
  }

  /** A finished schedule: every invocation in its own column, at the time that the column's draws give it. */
  ghost predicate Generated(trace: seq<nat>, dist: Distribution, shift: bool, g: Granularity, draws: seq<seq<real>>,
                            cuts: seq<real>, iat: seq<real>)
    requires |draws| == |cuts| == |trace|
  {
    var t := if g == Minute then 60_000_000.0 else 1_000_000.0;
    true == (
      && Scheduling(trace, t, shift, iat)
      && forall m :: 0 <= m < |trace| && trace[m] > 0 ==> MinuteAsDrawn(trace, dist, shift, t, draws, cuts, iat, m))
  }

  /** What is left when all columns are done and the gap after the last invocation has been dropped. */
  lemma AllDone(trace: seq<nat>, dist: Distribution, shift: bool, g: Granularity, draws: seq<seq<real>>,
                cuts: seq<real>, iat: seq<real>, r: seq<real>)
    requires Done(trace, dist, shift, TimeUnit(g), draws, cuts, |trace|, iat) && r == iat[..|iat| - 1]
    ensures |draws| == |cuts| == |trace| && Generated(trace, dist, shift, g, draws, cuts, r)
  {
    DropOpenGap(trace, TimeUnit(g), shift, iat);
    forall m | 0 <= m < |trace| && trace[m] > 0
      ensures MinuteAsDrawn(trace, dist, shift, TimeUnit(g), draws, cuts, r, m)
    {
      DrawnAt(trace, dist, shift, TimeUnit(g), draws, cuts, |trace|, iat, m);
      DropMinute(trace, dist, shift, TimeUnit(g), draws, cuts, iat, m);
    }
  }

  /** The columns done so far have these unscaled durations. */
  ghost predicate RawTimes(trace: seq<nat>, dist: Distribution, g: Granularity, draws: seq<seq<real>>, raw: seq<real>)
    requires |raw| <= |trace| == |draws|
  {
    forall m :: 0 <= m < |raw| ==> raw[m] == RawDuration(trace[m], dist, g, draws[m])
  }

  method JoinColumn(iat: seq<real>, r: seq<real>) returns (joined: seq<real>)
    requires iat != [] && r != []
    ensures joined == Joined(iat, r)
  {
    joined := iat[|iat| - 1 := iat[|iat| - 1] + r[0]];
    joined := joined + r[1..];
  }

  /**
   What the loop over the columns does for column `i`: the open gap is extended and the rest of the column appended.
   */
  method AddColumn(trace: seq<nat>, i: nat, dist: Distribution, shift: bool, g: Granularity, draws: seq<seq<real>>,
      cuts: seq<real>, iat: seq<real>)
    returns (r: Option<seq<real>>, count: nat, duration: real)
    requires i < |trace| == |draws| == |cuts| && Drawn(trace[i], draws[i]) && 0.0 <= cuts[i] < 1.0
    requires Done(trace, dist, shift, TimeUnit(g), draws, cuts, i, iat)
    ensures r.None? <==> Aborts(trace[i], dist, draws[i])
    ensures r.Some? ==> Done(trace, dist, shift, TimeUnit(g), draws, cuts, i + 1, r.value)
    ensures r.Some? ==> count == trace[i] && duration == RawDuration(trace[i], dist, g, draws[i])
  {
    count := 0;
    var minuteIAT, total, _, _ := GenerateIATPerGranularity(trace[i], dist, shift, g, draws[i], cuts[i]);
    duration := total;
    if minuteIAT.None? {
      return None, count, duration;
    }
    JoinDone(trace, dist, shift, TimeUnit(g), draws, cuts, i, iat, minuteIAT.value);
    var joined := JoinColumn(iat, minuteIAT.value);
    r, count := Some(joined), |minuteIAT.value| - 1;
  }

  lemma NothingBuilt(trace: seq<nat>, t: real, shift: bool)
    ensures Built(trace, t, shift, 0, [0.0])
  {
    assert [0.0] == [] + [0.0];
    Append([], 0.0);
  }

  /** generateIAT: `draws[m]` and `cuts[m]` are the draws made for column `m`. */
  method GenerateIAT(trace: seq<nat>, dist: Distribution, shift: bool, g: Granularity, draws: seq<seq<real>>,
      cuts: seq<real>)
    returns (r: Option<seq<real>>, perMinuteCount: seq<nat>, rawDuration: seq<real>)
    requires |draws| == |cuts| == |trace|
    requires forall m :: 0 <= m < |trace| ==> Drawn(trace[m], draws[m]) && 0.0 <= cuts[m] < 1.0
    ensures r.None? <==> exists m :: 0 <= m < |trace| && Aborts(trace[m], dist, draws[m])
    ensures r.Some? ==> perMinuteCount == trace && Generated(trace, dist, shift, g, draws, cuts, r.value)
    ensures r.Some? ==> |rawDuration| == |trace| && RawTimes(trace, dist, g, draws, rawDuration)
  {
    var IAT := [0.0];
    perMinuteCount, rawDuration := [], [];
    NothingBuilt(trace, TimeUnit(g), shift);
    for i := 0 to |trace|
      invariant Done(trace, dist, shift, TimeUnit(g), draws, cuts, i, IAT) && perMinuteCount == trace[..i]
      invariant forall m :: 0 <= m < i ==> !Aborts(trace[m], dist, draws[m])
      invariant |rawDuration| == i && RawTimes(trace, dist, g, draws, rawDuration)
    {
      var longer, count, duration := AddColumn(trace, i, dist, shift, g, draws, cuts, IAT);
      if longer.None? {
        return None, [], [];
      }
      IAT := longer.value;
      perMinuteCount := perMinuteCount + [count];
      rawDuration := rawDuration + [duration];
    }
    r := Some(IAT[..|IAT| - 1]);
    AllDone(trace, dist, shift, g, draws, cuts, IAT, r.value);
  }
}
