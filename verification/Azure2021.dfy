/**
 Schedules from a trace of single invocations: sorted by start, cut off at the end of the
 experiment, turned into gaps, and counted per minute.
 */
module Azure2021 {
  import opened SeqSums
  import opened IntervalIndex
  import opened Timeline
  import T = TraceDriver

  /** Times in seconds. */
  datatype Invocation = Invocation(start: real, duration: real)

  datatype Spec = Spec(iat: seq<real>, perMinuteCount: seq<nat>, runtime: seq<int>)

  /** Panic: an index or a length out of range; Fatal: log.Fatal; Empty: every invocation was cut off. */
  datatype Outcome = Panic | Fatal | Empty | Ready(spec: Spec)

  /** Whole minutes of a time in seconds, by way of nanoseconds. */
  function MinutesPassed(start: real): int
  {
    Quotient(Truncate(start * 1_000_000_000.0), 60_000_000_000)
  }

  function Micros(start: real): real
  {
    start * 1_000_000.0
  }

  /** Nanoseconds and microseconds agree on the minute, which has sixty seconds. */
  lemma MinuteOfStart(start: real)
    requires start >= 0.0
    ensures MinutesPassed(start) == MinuteAt(Micros(start)) >= 0
    ensures MinutesPassed(start) as real * 60.0 <= start < (MinutesPassed(start) + 1) as real * 60.0
  {
    var ns, us := (start * 1_000_000_000.0).Floor, (start * 1_000_000.0).Floor;
    var m := us / 60_000_000;
    assert m * 60_000_000 <= us < (m + 1) * 60_000_000;
    assert (m * 60_000_000) as real <= start * 1_000_000.0 < ((m + 1) * 60_000_000) as real;
    assert (m * 60_000_000_000) as real <= start * 1_000_000_000.0 < ((m + 1) * 60_000_000_000) as real;
    assert m * 60_000_000_000 <= ns < (m + 1) * 60_000_000_000;
  }

  lemma MinutesMono(a: real, b: real)
    requires 0.0 <= a <= b
    ensures 0 <= MinutesPassed(a) <= MinutesPassed(b)
  {
    assert (a * 1_000_000_000.0).Floor <= (b * 1_000_000_000.0).Floor;
  }

  // ---- sorting ----

  ghost predicate Sorted(s: seq<Invocation>)
  {
    forall i, j :: 0 <= i <= j < |s| ==> s[i].start <= s[j].start
  }

  method Insert(s: seq<Invocation>, x: Invocation) returns (r: seq<Invocation>)
    requires Sorted(s)
    ensures Sorted(r) && multiset(r) == multiset(s) + multiset{x}
  {
    var j := |s|;
    while j > 0 && x.start < s[j - 1].start
      invariant 0 <= j <= |s|
      invariant forall i :: j <= i < |s| ==> x.start < s[i].start
    {
      j := j - 1;
    }
    r := s[..j] + [x] + s[j..];
    InsertSorted(s, j, x);
    InsertAdds(s, j, x);
  }

  lemma InsertSorted(s: seq<Invocation>, j: nat, x: Invocation)
    requires Sorted(s) && j <= |s| && (j > 0 ==> s[j - 1].start <= x.start)
    requires forall i :: j <= i < |s| ==> x.start < s[i].start
    ensures Sorted(s[..j] + [x] + s[j..])
  {
    var r := s[..j] + [x] + s[j..];
    forall a, b | 0 <= a <= b < |r|
      ensures r[a].start <= r[b].start
    {
      assert r[a] == if a < j then s[a] else if a == j then x else s[a - 1];
      assert r[b] == if b < j then s[b] else if b == j then x else s[b - 1];
    }
  }

  lemma InsertAdds(s: seq<Invocation>, j: nat, x: Invocation)
    requires j <= |s|
    ensures multiset(s[..j] + [x] + s[j..]) == multiset(s) + multiset{x}
  {
    assert s == s[..j] + s[j..];
  }

  /** Stands for the library's sort: some permutation ordered by start. */
  method SortByStart(s: seq<Invocation>) returns (r: seq<Invocation>)
    ensures Sorted(r) && multiset(r) == multiset(s)
  {
    r := [];
    for i := 0 to |s|
      invariant Sorted(r) && multiset(r) == multiset(s[..i])
    {
      r := Insert(r, s[i]);
      assert s[..i + 1] == s[..i] + [s[i]];
    }
    assert s[..|s|] == s;
  }

  // ---- which invocations are kept ----

  predicate Keeps(durationMinutes: int, x: Invocation)
  {
    x.start + x.duration <= (durationMinutes * 60) as real
  }

  function Kept(durationMinutes: int, s: seq<Invocation>): seq<Invocation>
  {
    if s == [] then []
    else
      var x, before := s[|s| - 1], Kept(durationMinutes, s[..|s| - 1]);
      if Keeps(durationMinutes, x) then before + [x] else before
  }

  function KeptAt(durationMinutes: int, t: real): Invocation -> nat
  {
    (x: Invocation) => if Keeps(durationMinutes, x) && x.start == t then 1 else 0
  }

  /** How many of the kept invocations start at `t`. */
  function StartingAt(durationMinutes: int, s: seq<Invocation>, t: real): nat
  {
    Sum(s, KeptAt(durationMinutes, t))
  }

  /** Two kept invocations start together, or one starts at time zero or before. */
  ghost predicate Clash(durationMinutes: int, s: seq<Invocation>)
  {
    exists t: real :: StartingAt(durationMinutes, s, t) > (if t <= 0.0 then 0 else 1)
  }

  /** The part of the list that has been taken over without a clash. */
  ghost predicate Strict(s: seq<Invocation>)
  {
    && (forall i :: 0 <= i < |s| ==> s[i].start > 0.0)
    && (forall i, j :: 0 <= i < j < |s| ==> s[i].start < s[j].start)
  }

  lemma {:induction false} KeptCount(d: int, s: seq<Invocation>, t: real)
    ensures StartingAt(d, s, t) == StartingAt(d, Kept(d, s), t)
  {
    if s != [] {
      var n := |s| - 1;
      KeptCount(d, s[..n], t);
      SumAppend(Kept(d, s[..n]), s[n], KeptAt(d, t));
    }
  }

  lemma {:induction false} StrictCount(d: int, s: seq<Invocation>, t: real)
    requires Strict(s)
    ensures StartingAt(d, s, t) <= if t <= 0.0 then 0 else 1
    ensures (forall i :: 0 <= i < |s| ==> s[i].start < t) ==> StartingAt(d, s, t) == 0
  {
    if s != [] {
      StrictCount(d, s[..|s| - 1], t);
    }
  }

  lemma {:induction false} KeptIn(d: int, s: seq<Invocation>, x: Invocation)
    ensures x in Kept(d, s) <==> x in s && Keeps(d, x)
  {
    if s != [] {
      KeptIn(d, s[..|s| - 1], x);
      assert s == s[..|s| - 1] + [s[|s| - 1]];
    }
  }

  lemma {:induction false} PartCount(d: int, s: seq<Invocation>, i: nat, t: real)
    requires i <= |s|
    ensures StartingAt(d, s[..i], t) <= StartingAt(d, s, t)
    decreases |s| - i
  {
    if i == |s| {
      assert s[..i] == s;
    } else {
      PartCount(d, s, i + 1, t);
      assert s[..i + 1][..i] == s[..i];
    }
  }

  /** An invocation that repeats the last start, or comes first and does not start after zero, clashes. */
  lemma ClashAt(d: int, s: seq<Invocation>, i: nat)
    requires i < |s| && Keeps(d, s[i])
    requires s[i].start <= 0.0 || (exists x :: x in Kept(d, s[..i]) && x.start == s[i].start)
    ensures Clash(d, s)
  {
    var t, part := s[i].start, s[..i + 1];
    assert part[..i] == s[..i];
    assert StartingAt(d, part, t) == StartingAt(d, s[..i], t) + 1;
    if t > 0.0 {
      var x :| x in Kept(d, s[..i]) && x.start == t;
      KeptIn(d, s[..i], x);
      var j :| 0 <= j < i && s[j] == x;
      SumAtLeast(s[..i], j, KeptAt(d, t));
    }
    PartCount(d, s, i + 1, t);
  }

  lemma NoClash(d: int, s: seq<Invocation>)
    requires Strict(Kept(d, s))
    ensures !Clash(d, s)
  {
    forall t: real
      ensures StartingAt(d, s, t) <= if t <= 0.0 then 0 else 1
    {
      KeptCount(d, s, t);
      StrictCount(d, Kept(d, s), t);
    }
  }

  lemma ClashPermutes(d: int, a: seq<Invocation>, b: seq<Invocation>)
    requires multiset(a) == multiset(b)
    ensures Clash(d, a) <==> Clash(d, b)
  {
    forall t: real
      ensures StartingAt(d, a, t) == StartingAt(d, b, t)
    {
      SumPermutes(a, b, KeptAt(d, t));
    }
  }

  // ---- the specification of one function ----

  /** Rounding to the nearest integer, halves away from zero. */
  function Round(x: real): int
  {
    if x >= 0.0 then (x + 0.5).Floor else -((-x + 0.5).Floor)
  }

  /** The runtime in milliseconds; zero is replaced by one. */
  function RuntimeOf(x: Invocation): int
  {
    var ms := Round(x.duration * 1_000.0);
    if ms == 0 then 1 else ms
  }

  function MinutesOf(done: seq<Invocation>): (r: seq<int>)
    ensures |r| == |done| && forall k :: 0 <= k < |done| ==> r[k] == MinutesPassed(done[k].start)
  {
    seq(|done|, k requires 0 <= k < |done| => MinutesPassed(done[k].start))
  }

  function Last(done: seq<Invocation>): real
  {
    if done == [] then 0.0 else Micros(done[|done| - 1].start)
  }

  /** The gaps add up to the starts. */
  ghost predicate Reproduces(done: seq<Invocation>, iat: seq<real>)
  {
    && |iat| == |done| && Positive(iat)
    && forall k {:trigger done[k]} :: 0 <= k < |iat| ==> Scheduled(iat, k + 1) == Micros(done[k].start)
  }

  ghost predicate Counted(done: seq<Invocation>, pmc: seq<nat>)
  {
    Strict(done) && Histogram(MinutesOf(done), pmc)
  }

  ghost predicate Runtimes(done: seq<Invocation>, runtime: seq<int>)
  {
    |runtime| == |done| && forall k :: 0 <= k < |done| ==> runtime[k] == RuntimeOf(done[k])
  }

  lemma StrictMore(done: seq<Invocation>, x: Invocation)
    requires Strict(done) && x.start > 0.0 && Last(done) < Micros(x.start)
    ensures Strict(done + [x])
  {
  }

  lemma ReproducesMore(done: seq<Invocation>, iat: seq<real>, x: Invocation)
    requires Reproduces(done, iat) && Last(done) < Micros(x.start)
    ensures Reproduces(done + [x], iat + [Micros(x.start) - Last(done)])
  {
    var n, more := |iat|, iat + [Micros(x.start) - Last(done)];
    assert n > 0 ==> Scheduled(iat, n - 1 + 1) == Micros(done[n - 1].start);
    forall k | 0 <= k < n + 1
      ensures Scheduled(more, k + 1) == Micros((done + [x])[k].start)
    {
      ScheduledConcat(iat, [Micros(x.start) - Last(done)], k + 1);
      assert [Micros(x.start) - Last(done)] == [] + [Micros(x.start) - Last(done)];
      if k == n {
        ScheduledConcat(iat, [Micros(x.start) - Last(done)], k);
      }
    }
  }

  lemma {:induction false} CountPart(a: seq<int>, b: seq<int>, k: nat, m: int)
    requires k <= |a| && k <= |b| && a[..k] == b[..k]
    ensures Count(a, k, m) == Count(b, k, m)
  {
    if k > 0 {
      assert a[..k][k - 1] == b[..k][k - 1];
      assert a[..k - 1] == a[..k][..k - 1] && b[..k - 1] == b[..k][..k - 1];
      CountPart(a, b, k - 1, m);
    }
  }

  lemma CountedMore(done: seq<Invocation>, pmc: seq<nat>, x: Invocation, m: nat)
    requires Counted(done, pmc) && Strict(done + [x]) && m < |pmc| && MinutesPassed(x.start) == m
    ensures Counted(done + [x], pmc[m := pmc[m] + 1])
  {
    var a, b := MinutesOf(done), MinutesOf(done + [x]);
    assert b == a + [m];
    forall q | 0 <= q < |pmc|
      ensures pmc[m := pmc[m] + 1][q] == Count(b, |b|, q)
    {
      CountPart(a, b, |a|, q);
    }
  }

  lemma LastIn(done: seq<Invocation>)
    ensures done != [] ==> done[|done| - 1] in done
  {
  }

  /** In a sorted list no later invocation starts before the last one taken over. */
  lemma AfterLast(d: int, s: seq<Invocation>, i: nat)
    requires Sorted(s) && i < |s| && Kept(d, s[..i]) != []
    ensures Last(Kept(d, s[..i])) <= Micros(s[i].start)
  {
    var done := Kept(d, s[..i]);
    LastIn(done);
    KeptIn(d, s[..i], done[|done| - 1]);
  }

  /** The length of the table of counts: one past the minute of the last invocation, whether that is kept or not. */
  function TableLength(s: seq<Invocation>): int
    requires s != []
  {
    MinutesPassed(s[|s| - 1].start) + 1
  }

  /** The first `i` invocations of the sorted list have been taken over into `spec`. */
  ghost predicate Taken(d: int, sorted: seq<Invocation>, i: nat, spec: Spec, previous: real)
    requires i <= |sorted| && sorted != []
  {
    var done := Kept(d, sorted[..i]);
    && Reproduces(done, spec.iat) && Counted(done, spec.perMinuteCount) && Runtimes(done, spec.runtime)
    && |spec.perMinuteCount| == TableLength(sorted) && previous == Last(done)
  }

  // ---- the outcome in terms of the invocations themselves ----

  /** `n` is the integer nearest to `x`; of two that are equally near, the one farther from zero. */
  predicate Nearest(x: real, n: int)
  {
    if x >= 0.0 then -0.5 < n as real - x <= 0.5 else -0.5 <= n as real - x < 0.5
  }

  /** `ms` is the duration in whole milliseconds, or one where that would be zero. */
  predicate InMilliseconds(duration: real, ms: int)
  {
    if Nearest(1_000.0 * duration, 0) then ms == 1 else Nearest(1_000.0 * duration, ms)
  }

  lemma RuntimeNearest(x: Invocation)
    ensures InMilliseconds(x.duration, RuntimeOf(x))
  {
    var y := x.duration * 1_000.0;
    assert y == 1_000.0 * x.duration;
  }

  /** `done` are the invocations that end by the end of the experiment, as often as they occur, and no others. */
  ghost predicate EndInTime(invocations: seq<Invocation>, durationMinutes: int, done: seq<Invocation>)
  {
    forall x: Invocation :: multiset(done)[x]
      == if x.start + x.duration <= 60.0 * durationMinutes as real then multiset(invocations)[x] else 0
  }

  lemma {:induction false} KeptInTime(d: int, s: seq<Invocation>, x: Invocation)
    ensures multiset(Kept(d, s))[x] == if x.start + x.duration <= 60.0 * d as real then multiset(s)[x] else 0
  {
    if s != [] {
      var n := |s| - 1;
      KeptInTime(d, s[..n], x);
      assert s == s[..n] + [s[n]];
    }
  }

  /** The invocations of `done` in order of their starts, with their runtimes and their times after the start. */
  ghost predicate Describes(done: seq<Invocation>, spec: Spec)
  {
    && (forall i, j :: 0 <= i < j < |done| ==> 0.0 < done[i].start < done[j].start)
    && |spec.iat| == |spec.runtime| == |done| > 0
    && (forall k :: 0 <= k < |done| ==> DescribesOne(done[k], spec, k))
  }

  ghost predicate DescribesOne(x: Invocation, spec: Spec, k: nat)
    requires k < |spec.iat| == |spec.runtime|
  {
    && Scheduled(spec.iat, k + 1) == 1_000_000.0 * x.start && x.start > 0.0
    && InMilliseconds(x.duration, spec.runtime[k])
  }

  lemma DescribesKept(d: int, sorted: seq<Invocation>, spec: Spec)
    requires sorted != [] && TakenAll(d, sorted, spec) && spec.iat != []
    ensures Describes(Kept(d, sorted), spec)
  {
    var done := Kept(d, sorted);
    forall k | 0 <= k < |done|
      ensures DescribesOne(done[k], spec, k)
    {
      RuntimeNearest(done[k]);
      assert Scheduled(spec.iat, k + 1) == Micros(done[k].start);
    }
  }

  lemma KeptAll(d: int, invocations: seq<Invocation>, sorted: seq<Invocation>)
    requires multiset(invocations) == multiset(sorted)
    ensures EndInTime(invocations, d, Kept(d, sorted))
  {
    forall x: Invocation
      ensures multiset(Kept(d, sorted))[x]
        == if x.start + x.duration <= 60.0 * d as real then multiset(sorted)[x] else 0
    {
      KeptInTime(d, sorted, x);
    }
  }

  /** An invocation that ends in time starts at zero or before, or two of them start together. */
  ghost predicate Collides(durationMinutes: int, s: seq<Invocation>)
  {
    var end := 60.0 * durationMinutes as real;
    || (exists i :: 0 <= i < |s| && s[i].start + s[i].duration <= end && s[i].start <= 0.0)
    || (exists i, j :: 0 <= i < j < |s| && s[i].start + s[i].duration <= end && s[j].start + s[j].duration <= end
                    && s[i].start == s[j].start)
  }

  lemma ClashCollides(d: int, s: seq<Invocation>, t: real)
    requires StartingAt(d, s, t) > if t <= 0.0 then 0 else 1
    ensures Collides(d, s)
  {
    var f := KeptAt(d, t);
    SumZero(s, f);
    TwoOnes(s, f);
    if t <= 0.0 {
      var x :| x in s && f(x) != 0;
      var i :| 0 <= i < |s| && s[i] == x;
      assert Keeps(d, s[i]) && s[i].start <= 0.0;
    } else {
      var i, j :| 0 <= i < j < |s| && f(s[i]) == 1 && f(s[j]) == 1;
      assert Keeps(d, s[i]) && Keeps(d, s[j]);
    }
  }

  lemma ClashIff(d: int, s: seq<Invocation>)
    ensures Clash(d, s) <==> Collides(d, s)
  {
    if t: real :| StartingAt(d, s, t) > if t <= 0.0 then 0 else 1 {
      ClashCollides(d, s, t);
    }
    if i :| 0 <= i < |s| && Keeps(d, s[i]) && s[i].start <= 0.0 {
      SumAtLeast(s, i, KeptAt(d, s[i].start));
      assert StartingAt(d, s, s[i].start) > 0;
    }
    if i, j :| 0 <= i < j < |s| && Keeps(d, s[i]) && Keeps(d, s[j]) && s[i].start == s[j].start {
      var f := KeptAt(d, s[i].start);
      assert f(s[i]) == 1 && f(s[j]) == 1;
      TwoOnes(s, f);
      assert StartingAt(d, s, s[i].start) > 1;
    }
  }

  /** What is delivered if something ends in time. */
  ghost predicate Delivers(durationMinutes: int, invocations: seq<Invocation>, spec: Spec)
  {
    exists done :: EndInTime(invocations, durationMinutes, done) && Describes(done, spec)
  }

  lemma Delivered(d: int, invocations: seq<Invocation>, sorted: seq<Invocation>, spec: Spec)
    requires multiset(invocations) == multiset(sorted) && sorted != [] && TakenAll(d, sorted, spec) && spec.iat != []
    ensures Delivers(d, invocations, spec)
  {
    DescribesKept(d, sorted, spec);
    KeptAll(d, invocations, sorted);
  }

  lemma NothingInTime(d: int, invocations: seq<Invocation>, sorted: seq<Invocation>)
    requires multiset(invocations) == multiset(sorted) && Kept(d, sorted) == []
    ensures forall x :: x in invocations ==> x.start + x.duration > 60.0 * d as real
  {
    forall x | x in invocations
      ensures x.start + x.duration > 60.0 * d as real
    {
      assert x in multiset(invocations);
      KeptInTime(d, sorted, x);
    }
  }

  /**
   GenerateFunctionSpecification; `sorted` is the slice as the call leaves it.  It fails exactly if the slice is empty
   or lies two minutes before time zero altogether (Panic), or if kept invocations clash (Fatal).
   */
  method GenerateFunctionSpecification(invocations: seq<Invocation>, durationMinutes: int)
    returns (r: Outcome, sorted: seq<Invocation>)
    ensures Sorted(sorted) && multiset(sorted) == multiset(invocations)
    ensures r.Panic? <==> sorted == [] || TableLength(sorted) < 0
    ensures r.Fatal? <==> !r.Panic? && Collides(durationMinutes, invocations)
    ensures r.Empty? ==> forall x :: x in invocations ==> x.start + x.duration > 60.0 * durationMinutes as real
    ensures r.Ready? ==> Delivers(durationMinutes, invocations, r.spec)
    ensures r.Ready? ==> Kept(durationMinutes, sorted) != [] && TakenAll(durationMinutes, sorted, r.spec)
  {
    sorted := SortByStart(invocations);
    ClashIff(durationMinutes, invocations);
    ClashPermutes(durationMinutes, invocations, sorted);
    if sorted == [] {
      return Panic, sorted;
    }
    var lastMinuteNumber := MinutesPassed(sorted[|sorted| - 1].start);
    if lastMinuteNumber + 1 < 0 {
      return Panic, sorted;
    }
    var spec := TakeAll(durationMinutes, sorted, seq(lastMinuteNumber + 1, _ => 0));
    if spec.None? {
      return Fatal, sorted;
    }
    if |spec.value.iat| == 0 {
      NothingInTime(durationMinutes, invocations, sorted);
      return Empty, sorted;
    }
    Delivered(durationMinutes, invocations, sorted, spec.value);
    r := Ready(spec.value);
  }

  /** The loop over the sorted invocations; None stands for log.Fatal. */
  method TakeAll(durationMinutes: int, sorted: seq<Invocation>, perMinuteCount: seq<nat>) returns (r: Option<Spec>)
    requires Sorted(sorted) && sorted != [] && |perMinuteCount| == TableLength(sorted)
    requires forall m :: 0 <= m < |perMinuteCount| ==> perMinuteCount[m] == 0
    ensures r.None? <==> Clash(durationMinutes, sorted)
    ensures r.Some? ==> TakenAll(durationMinutes, sorted, r.value)
  {
    var spec, previous := Spec([], perMinuteCount, []), 0.0;
    for i := 0 to |sorted|
      invariant Taken(durationMinutes, sorted, i, spec, previous)
    {
      if sorted[i].start + sorted[i].duration > (durationMinutes * 60) as real {
        SkipOne(durationMinutes, sorted, i, spec, previous);
        continue;
      }
      var ok, spec', previous' := TakeOne(durationMinutes, sorted, i, spec, previous);
      if !ok {
        return None;
      }
      spec, previous := spec', previous';
    }
    TakenToTheEnd(durationMinutes, sorted, spec, previous);
    r := Some(spec);
  }

  /** The kept invocations and nothing else have been taken over into `spec`. */
  ghost predicate TakenAll(d: int, sorted: seq<Invocation>, spec: Spec)
    requires sorted != []
  {
    var done := Kept(d, sorted);
    && Reproduces(done, spec.iat) && Counted(done, spec.perMinuteCount) && Runtimes(done, spec.runtime)
    && |spec.perMinuteCount| == TableLength(sorted)
  }

  lemma TakenToTheEnd(d: int, sorted: seq<Invocation>, spec: Spec, previous: real)
    requires sorted != [] && Taken(d, sorted, |sorted|, spec, previous)
    ensures TakenAll(d, sorted, spec) && !Clash(d, sorted)
  {
    assert sorted[..|sorted|] == sorted;
    NoClash(d, sorted);
  }

  lemma SkipOne(d: int, sorted: seq<Invocation>, i: nat, spec: Spec, previous: real)
    requires i < |sorted| && Taken(d, sorted, i, spec, previous) && !Keeps(d, sorted[i])
    ensures Taken(d, sorted, i + 1, spec, previous)
  {
    assert sorted[..i + 1][..i] == sorted[..i];
  }

  lemma SameStartClashes(d: int, sorted: seq<Invocation>, i: nat, spec: Spec, previous: real)
    requires i < |sorted| && Taken(d, sorted, i, spec, previous) && Keeps(d, sorted[i])
    requires Micros(sorted[i].start) == previous
    ensures Clash(d, sorted)
  {
    LastIn(Kept(d, sorted[..i]));
    ClashAt(d, sorted, i);
  }

  lemma NegativeStartClashes(d: int, sorted: seq<Invocation>, i: nat)
    requires i < |sorted| && Keeps(d, sorted[i]) && Micros(sorted[i].start) < 0.0
    ensures Clash(d, sorted)
  {
    ClashAt(d, sorted, i);
  }

  /** The gap of a later invocation cannot be negative. */
  lemma LaterStart(d: int, sorted: seq<Invocation>, i: nat, spec: Spec, previous: real)
    requires Sorted(sorted) && i < |sorted| && Taken(d, sorted, i, spec, previous) && spec.iat != []
    ensures 0.0 < previous <= Micros(sorted[i].start)
  {
    AfterLast(d, sorted, i);
  }

  /** The minute of an invocation has its place in the table. */
  lemma MinuteInTable(sorted: seq<Invocation>, i: nat)
    requires Sorted(sorted) && i < |sorted| && sorted[i].start > 0.0
    ensures 0 <= MinutesPassed(sorted[i].start) < TableLength(sorted)
  {
    MinutesMono(sorted[i].start, sorted[|sorted| - 1].start);
  }

  /** The gap before a kept invocation; None stands for log.Fatal. */
  method NextGap(durationMinutes: int, sorted: seq<Invocation>, i: nat, spec: Spec, previous: real)
    returns (iat: Option<real>)
    requires Sorted(sorted) && i < |sorted| && Taken(durationMinutes, sorted, i, spec, previous) &&
      Keeps(durationMinutes, sorted[i])
    ensures iat.None? ==> Clash(durationMinutes, sorted)
    ensures iat.Some? ==> sorted[i].start > 0.0 && previous < Micros(sorted[i].start)
    ensures iat.Some? ==> iat.value == Micros(sorted[i].start) - previous
  {
    var micros := sorted[i].start * 1_000_000.0;
    if micros == previous {
      SameStartClashes(durationMinutes, sorted, i, spec, previous);
      return None;
    }
    var gap: real;
    if |spec.iat| == 0 {
      gap := micros;
    } else {
      LaterStart(durationMinutes, sorted, i, spec, previous);
      gap := micros - previous;
    }
    if gap < 0.0 {
      NegativeStartClashes(durationMinutes, sorted, i);
      return None;
    }
    iat := Some(gap);
  }

  /** The body of the loop for a kept invocation; not ok stands for log.Fatal. */
  method TakeOne(durationMinutes: int, sorted: seq<Invocation>, i: nat, spec: Spec, previous: real)
    returns (ok: bool, spec': Spec, previous': real)
    requires Sorted(sorted) && i < |sorted| && Taken(durationMinutes, sorted, i, spec, previous) &&
      Keeps(durationMinutes, sorted[i])
    ensures !ok ==> Clash(durationMinutes, sorted)
    ensures ok ==> Taken(durationMinutes, sorted, i + 1, spec', previous')
  {
    var x := sorted[i];
    var iat := NextGap(durationMinutes, sorted, i, spec, previous);
    if iat.None? {
      return false, spec, previous;
    }
    MinuteInTable(sorted, i);
    TakenMore(durationMinutes, sorted, i, spec, previous);
    spec' := AddInvocation(spec, x, iat.value);
    ok, previous' := true, Micros(x.start);
  }

  /** What a kept invocation adds. */
  function Extended(spec: Spec, x: Invocation, iat: real): Spec
    requires 0 <= MinutesPassed(x.start) < |spec.perMinuteCount|
  {
    var pmc, m := spec.perMinuteCount, MinutesPassed(x.start);
    Spec(spec.iat + [iat], pmc[m := pmc[m] + 1], spec.runtime + [RuntimeOf(x)])
  }

  method AddInvocation(spec: Spec, x: Invocation, iat: real) returns (r: Spec)
    requires 0 <= MinutesPassed(x.start) < |spec.perMinuteCount|
    ensures r == Extended(spec, x, iat)
  {
    var minutesPassed, pmc := MinutesPassed(x.start), spec.perMinuteCount;
    var ms := Round(x.duration * 1_000.0);
    if ms == 0 {
      ms := 1;
    }
    r := Spec(spec.iat + [iat], pmc[minutesPassed := pmc[minutesPassed] + 1], spec.runtime + [ms]);
  }

  lemma TakenMore(d: int, sorted: seq<Invocation>, i: nat, spec: Spec, previous: real)
    requires i < |sorted| && Taken(d, sorted, i, spec, previous) && Keeps(d, sorted[i])
    requires sorted[i].start > 0.0 && previous < Micros(sorted[i].start)
    requires 0 <= MinutesPassed(sorted[i].start) < |spec.perMinuteCount|
    ensures Taken(d, sorted, i + 1, Extended(spec, sorted[i], Micros(sorted[i].start) - previous),
      Micros(sorted[i].start))
  {
    var x, done := sorted[i], Kept(d, sorted[..i]);
    assert sorted[..i + 1][..i] == sorted[..i];
    assert Kept(d, sorted[..i + 1]) == done + [x];
    StrictMore(done, x);
    ReproducesMore(done, spec.iat, x);
    CountedMore(done, spec.perMinuteCount, x, MinutesPassed(x.start));
  }

  /** The minute that the driver recovers from the counts is the minute in which the invocation started and is fired. */
  lemma MinutesRecovered(done: seq<Invocation>, spec: Spec, k: nat)
    requires Reproduces(done, spec.iat) && Counted(done, spec.perMinuteCount) && k < |done|
    ensures Total(spec.perMinuteCount) == |spec.iat| && Histogram(Minutes(spec.iat), spec.perMinuteCount)
    ensures InMinute(spec.perMinuteCount, MinutesPassed(done[k].start), k)
    ensures Nonnegative(spec.iat) && MinuteOf(spec.iat, k) == MinutesPassed(done[k].start)
  {
    forall i | 0 <= i < |done|
      ensures MinuteOf(spec.iat, i) == MinutesPassed(done[i].start)
    {
      assert done[i].start > 0.0;
      MinuteOfStart(done[i].start);
    }
    assert Minutes(spec.iat) == MinutesOf(done);
    CountsRecoverMinutes(spec.iat, spec.perMinuteCount, k);
  }

  /** A driver of such a specification labels every invocation with the minute of its start in the trace. */
  lemma LabelledWithStart(done: seq<Invocation>, spec: Spec, warmup: int, busy: nat -> nat, over: nat -> nat,
      fired: seq<T.Fired>, k: nat)
    requires Reproduces(done, spec.iat) && Counted(done, spec.perMinuteCount)
    requires T.Run(spec.iat, spec.perMinuteCount, warmup, busy, over, fired) && k < |fired|
    ensures fired[k].minute == MinutesPassed(done[k].start)
  {
    MinutesRecovered(done, spec, k);
    T.LabelIsMinute(spec.iat, spec.perMinuteCount, warmup, busy, over, fired, k);
  }

  /** A single invocation at time zero already clashes with the initial timestamp of the loop. */
  lemma ZeroStartClashes(duration: real, durationMinutes: int)
    requires 0.0 <= duration <= (durationMinutes * 60) as real
    ensures Clash(durationMinutes, [Invocation(0.0, duration)])
  {
    var s := [Invocation(0.0, duration)];
    assert s[..0] == [] && Keeps(durationMinutes, s[0]);
    ClashAt(durationMinutes, s, 0);
  }
}
