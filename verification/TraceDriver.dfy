/**
 The loop that fires the invocations of one function: which minute and phase every
 invocation is labelled with, and when it is fired.
 */
module TraceDriver {
  import opened Arithmetic
  import opened IntervalIndex
  import opened Timeline

  datatype Phase = Warmup | Execution

  /**
   One fired invocation; `ready` and `at` are nanoseconds since the driver started: when the loop read the clock, and
   when it fired.
   */
  datatype Fired = Fired(minute: int, index: int, phase: Phase, iatIndex: nat, ready: nat, at: nat)

  // ---- invocation ids ----

  function Decimal(n: nat): string
  {
    if n < 10 then [('0' as int + n) as char] else Decimal(n / 10) + [('0' as int + n % 10) as char]
  }

  function ComposeInvocationID(g: Granularity, minute: nat, index: nat): string
  {
    (if g == Minute then "min" else "sec") + Decimal(minute) + ".inv" + Decimal(index)
  }

  function Value(s: string): int
  {
    if s == [] then 0 else 10 * Value(s[..|s| - 1]) + (s[|s| - 1] as int - '0' as int)
  }

  lemma {:induction false} DecimalReads(n: nat)
    ensures Value(Decimal(n)) == n && '.' !in Decimal(n)
  {
    if n >= 10 {
      DecimalReads(n / 10);
      assert Decimal(n)[..|Decimal(n)| - 1] == Decimal(n / 10);
    } else {
      assert Decimal(n)[..0] == [];
    }
  }

  lemma FirstDot(a: string, x: string)
    requires '.' !in a
    ensures (a + "." + x)[|a|] == '.' && forall i :: 0 <= i < |a| ==> (a + "." + x)[i] != '.'
    ensures (a + "." + x)[..|a|] == a && (a + "." + x)[|a| + 1..] == x
  {
    forall i | 0 <= i < |a|
      ensures (a + "." + x)[i] != '.'
    {
      assert a[i] in a;
    }
  }

  lemma DotSplits(a: string, b: string, x: string, y: string)
    requires '.' !in a && '.' !in b && a + "." + x == b + "." + y
    ensures a == b && x == y
  {
    FirstDot(a, x);
    FirstDot(b, y);
  }

  lemma IdParts(g: Granularity, m: nat, j: nat)
    ensures ComposeInvocationID(g, m, j) == ((if g == Minute then "min" else "sec") + Decimal(m)) + "." + ("inv" +
      Decimal(j))
  {
    assert ".inv" == "." + "inv";
  }

  lemma Peel(p: string, a: string, b: string)
    requires p + a == p + b
    ensures a == b
  {
    assert (p + a)[|p|..] == a && (p + b)[|p|..] == b;
  }

  /** An id tells the minute and the index it was made from. */
  lemma IdInjective(g: Granularity, m: nat, j: nat, n: nat, k: nat)
    requires ComposeInvocationID(g, m, j) == ComposeInvocationID(g, n, k)
    ensures m == n && j == k
  {
    var p := if g == Minute then "min" else "sec";
    DecimalReads(m);
    DecimalReads(n);
    DecimalReads(j);
    DecimalReads(k);
    IdParts(g, m, j);
    IdParts(g, n, k);
    DotSplits(p + Decimal(m), p + Decimal(n), "inv" + Decimal(j), "inv" + Decimal(k));
    Peel(p, Decimal(m), Decimal(n));
    Peel("inv", Decimal(j), Decimal(k));
  }

  // ---- the schedule ----

  /** The sum of the first `k` truncated inter-arrival times, in microseconds. */
  function Target(iat: seq<real>, k: nat): int
    requires k <= |iat|
  {
    if k == 0 then 0 else Target(iat, k - 1) + Truncate(iat[k - 1])
  }

  /**
   Invocation `k` is the index-th of its minute.  Should there be more inter-arrival times than
   counted invocations, the surplus is numbered on in the last minute that has some.
   */
  ghost predicate Labelled(pmc: seq<nat>, k: nat, f: Fired)
  {
    && f.iatIndex == k && f.index >= 0
    && InMinute(pmc, f.minute, Min(k, Total(pmc) - 1))
    && Prefix(pmc, f.minute) + f.index == k
  }

  ghost predicate PhaseRight(warmup: int, f: Fired)
  {
    f.phase == Warmup <==> 0 < warmup && f.minute < warmup
  }

  /**
   Invocation `k` is never fired before its target.  It is fired within a microsecond of the target,
   or at once if the driver is late already, except for the time by which the sleep itself overran.
   */
  ghost predicate Timed(iat: seq<real>, fired: seq<Fired>, busy: nat -> nat, over: nat -> nat, k: nat)
    requires k < |fired| <= |iat|
  {
    var f, target := fired[k], 1000 * Target(iat, k + 1);
    && f.ready == (if k == 0 then 0 else fired[k - 1].at) + busy(k)
    && Max(f.ready, target) <= f.at - over(k) <= Max(f.ready, target + 999)
  }

  ghost predicate Run(iat: seq<real>, pmc: seq<nat>, warmup: int, busy: nat -> nat, over: nat -> nat, fired: seq<Fired>)
  {
    && |fired| <= |iat|
    && (forall k :: 0 <= k < |fired| ==> Labelled(pmc, k, fired[k]))
    && (forall k :: 0 <= k < |fired| ==> PhaseRight(warmup, fired[k]))
    && (forall k {:trigger Timed(iat, fired, busy, over, k)} :: 0 <= k < |fired| ==> Timed(iat, fired, busy, over, k))
  }

  /** What is known between two rounds of the loop about the current minute. */
  ghost predicate Position(pmc: seq<nat>, iatIndex: nat, minute: int, minuteEnd: int, since: int)
  {
    && Total(pmc) > 0
    && InMinute(pmc, minute, Min(iatIndex, Total(pmc) - 1))
    && minuteEnd == Prefix(pmc, minute + 1) - 1 && since == iatIndex - Prefix(pmc, minute)
  }

  /**
   functionsDriver: `busy(k)` is the time the loop takes before it reads the clock for invocation `k`,
   `over(k)` the time by which its sleep overruns, in nanoseconds.  The only failure is that the first
   search finds no interval, which is dereferenced.
   */
  method FunctionsDriver(iat: seq<real>, pmc: seq<nat>, warmup: int, busy: nat -> nat, over: nat -> nat)
    returns (panicked: bool, fired: seq<Fired>)
    ensures panicked <==> iat != [] && Total(pmc) == 0
    ensures !panicked ==> |fired| == |iat|
    ensures Run(iat, pmc, warmup, busy, over, fired)
  {
    panicked, fired := false, [];
    if iat == [] {
      return;
    }
    var table := ConstructIntervals(pmc);
    var interval := SearchInterval(table, 0, pmc);
    if interval.None? {
      panicked := true;
      return;
    }
    var minuteIndexEnd, minuteIndex, since := interval.value.end, interval.value.value, 0;
    PrefixMono(pmc, 0, minuteIndex);
    var iatIndex, previousIATSum, clock := 0, 0, 0;
    var currentPhase := if warmup > 0 then Warmup else Execution;

    while iatIndex < |iat|
      invariant 0 <= iatIndex <= |iat| && |fired| == iatIndex
      invariant Position(pmc, iatIndex, minuteIndex, minuteIndexEnd, since)
      invariant currentPhase == Warmup ==> warmup > 0
      invariant currentPhase == Execution ==> warmup <= 0 || warmup <= minuteIndex
      invariant previousIATSum == Target(iat, iatIndex)
      invariant clock == if iatIndex == 0 then 0 else fired[iatIndex - 1].at
      invariant Run(iat, pmc, warmup, busy, over, fired)
    {
      currentPhase := AnnounceWarmupEnd(minuteIndex, warmup, currentPhase);
      var iatUs := Truncate(iat[iatIndex]);
      clock := clock + busy(iatIndex);
      var ready := clock;
      var schedulingDelay := clock / 1000 - previousIATSum;
      var sleepFor := iatUs - schedulingDelay;
      clock := clock + 1000 * Max(0, sleepFor) + over(iatIndex);
      previousIATSum := previousIATSum + iatUs;
      var f := Fired(minuteIndex, since, currentPhase, iatIndex, ready, clock);
      TimedStep(iat, busy, over, fired, f, previousIATSum);
      RunStep(iat, pmc, warmup, busy, over, fired, f);
      fired := fired + [f];

      iatIndex, since := iatIndex + 1, since + 1;
      if iatIndex > minuteIndexEnd {
        interval := SearchInterval(table, iatIndex, pmc);
        if interval.Some? {
          NextMinute(pmc, minuteIndex, interval.value.value, iatIndex);
          minuteIndexEnd, minuteIndex, since := interval.value.end, interval.value.value, 0;
        }
      }
    }
  }

  /** announceWarmupEnd */
  method AnnounceWarmupEnd(minuteIndex: int, warmup: int, phase: Phase) returns (r: Phase)
    ensures r == Warmup <==> phase == Warmup && minuteIndex < warmup
  {
    r := phase;
    if phase == Warmup && minuteIndex >= warmup {
      r := Execution;
    }
  }

  /** The minute that follows one whose invocations are used up starts with invocation `v`. */
  lemma NextMinute(pmc: seq<nat>, m: int, n: int, v: nat)
    requires 0 <= m < |pmc| && v == Prefix(pmc, m + 1) && InMinute(pmc, n, v)
    ensures Prefix(pmc, n) == v && m < n
  {
    if n <= m {
      PrefixMono(pmc, n + 1, m + 1);
    } else {
      PrefixMono(pmc, m + 1, n);
    }
  }

  lemma TimedStep(iat: seq<real>, busy: nat -> nat, over: nat -> nat, fired: seq<Fired>, f: Fired, target: int)
    requires |fired| < |iat| && target == Target(iat, |fired| + 1)
    requires f.ready == (if fired == [] then 0 else fired[|fired| - 1].at) + busy(|fired|)
    requires f.at == f.ready + 1000 * Max(0, target - f.ready / 1000) + over(|fired|)
    ensures Timed(iat, fired + [f], busy, over, |fired|)
  {
  }

  lemma RunStep(iat: seq<real>, pmc: seq<nat>, warmup: int, busy: nat -> nat, over: nat -> nat, fired: seq<Fired>,
      f: Fired)
    requires Run(iat, pmc, warmup, busy, over, fired) && |fired| < |iat|
    requires Labelled(pmc, |fired|, f) && PhaseRight(warmup, f)
    requires Timed(iat, fired + [f], busy, over, |fired|)
    ensures Run(iat, pmc, warmup, busy, over, fired + [f])
  {
    var r := fired + [f];
    forall k | 0 <= k < |r|
      ensures Timed(iat, r, busy, over, k)
    {
      assert k < |fired| ==> Timed(iat, fired, busy, over, k);
    }
  }

  // ---- what a run means ----

  /** No two invocations of a run carry the same id, minutes never go down and the phase never goes back. */
  lemma RunLabels(iat: seq<real>, pmc: seq<nat>, warmup: int, busy: nat -> nat, over: nat -> nat, fired: seq<Fired>,
      g: Granularity, i: nat, k: nat)
    requires Run(iat, pmc, warmup, busy, over, fired) && i < k < |fired|
    ensures 0 <= fired[i].minute <= fired[k].minute
    ensures fired[i].phase == Execution ==> fired[k].phase == Execution
    ensures fired[i].index >= 0 && fired[k].index >= 0
    ensures ComposeInvocationID(g, fired[i].minute, fired[i].index) != ComposeInvocationID(g, fired[k].minute,
      fired[k].index)
  {
    assert Labelled(pmc, i, fired[i]) && Labelled(pmc, k, fired[k]);
    MinutesOrdered(pmc, fired[i].minute, fired[k].minute, Min(i, Total(pmc) - 1), Min(k, Total(pmc) - 1));
    assert PhaseRight(warmup, fired[i]) && PhaseRight(warmup, fired[k]);
    if ComposeInvocationID(g, fired[i].minute, fired[i].index) == ComposeInvocationID(g, fired[k].minute,
      fired[k].index) {
      IdInjective(g, fired[i].minute, fired[i].index, fired[k].minute, fired[k].index);
    }
  }

  /** Where the counts add up to the number of invocations, every invocation has its place within its minute's count. */
  lemma RunCounts(iat: seq<real>, pmc: seq<nat>, warmup: int, busy: nat -> nat, over: nat -> nat, fired: seq<Fired>,
      k: nat)
    requires Run(iat, pmc, warmup, busy, over, fired) && Total(pmc) == |iat| && k < |fired|
    ensures InMinute(pmc, fired[k].minute, k) && 0 <= fired[k].index < pmc[fired[k].minute]
  {
    assert Labelled(pmc, k, fired[k]);
  }

  /** Where the counts are a histogram of the schedule itself, the label is the minute of the scheduled time. */
  lemma LabelIsMinute(iat: seq<real>, pmc: seq<nat>, warmup: int, busy: nat -> nat, over: nat -> nat,
      fired: seq<Fired>, k: nat)
    requires Run(iat, pmc, warmup, busy, over, fired) && k < |fired|
    requires Nonnegative(iat) && Histogram(Minutes(iat), pmc)
    ensures fired[k].minute == MinuteOf(iat, k)
  {
    CountsRecoverMinutes(iat, pmc, k);
    RunCounts(iat, pmc, warmup, busy, over, fired, k);
    MinutesOrdered(pmc, fired[k].minute, MinuteOf(iat, k), k, k);
    MinutesOrdered(pmc, MinuteOf(iat, k), fired[k].minute, k, k);
  }

  /** Truncation loses less than a microsecond per invocation and never runs ahead of the schedule. */
  lemma {:induction false} TargetNearSchedule(iat: seq<real>, k: nat)
    requires k <= |iat|
    ensures k > 0 ==> -(k as real) < Target(iat, k) as real - Scheduled(iat, k) < k as real
    ensures (forall i :: 0 <= i < k ==> iat[i] >= 0.0) ==> Target(iat, k) as real <= Scheduled(iat, k)
  {
    if k > 0 {
      TargetNearSchedule(iat, k - 1);
    }
  }

  /** How late invocation `k` is, in nanoseconds. */
  function Late(iat: seq<real>, fired: seq<Fired>, k: nat): int
    requires k < |fired| <= |iat|
  {
    fired[k].at - 1000 * Target(iat, k + 1)
  }

  /** The delays of the rounds from `n` up to but excluding `m`. */
  function Delays(busy: nat -> nat, over: nat -> nat, n: nat, m: nat): nat
    requires n <= m
    decreases m
  {
    if n == m then 0 else Delays(busy, over, n, m - 1) + busy(m - 1) + over(m - 1)
  }

  /**
   Lateness does not accumulate.  Before some round `n` the driver was on time: it had just started, or the
   round before fired within a microsecond of its target but for that sleep's overrun.  Invocation `k` is late
   only by the delays since then, less all the time scheduled since then.
   */
  lemma {:induction false} LatenessAbsorbed(iat: seq<real>, pmc: seq<nat>, warmup: int, busy: nat -> nat,
      over: nat -> nat, fired: seq<Fired>, k: nat)
      returns (n: nat)
    requires Run(iat, pmc, warmup, busy, over, fired) && k < |fired|
    ensures n <= k + 1 && (n > 0 ==> over(n - 1) <= Late(iat, fired, n - 1) <= 999 + over(n - 1))
    ensures 0 <= Late(iat, fired, k)
         <= (if n == 0 then 0 else Late(iat, fired, n - 1)) + Delays(busy, over, n, k + 1)
            - 1000 * (Target(iat, k + 1) - Target(iat, n))
    decreases k
  {
    assert Timed(iat, fired, busy, over, k);
    var f, target := fired[k], 1000 * Target(iat, k + 1);
    if f.ready <= target + 999 {
      n := k + 1;
    } else if k == 0 {
      n := 0;
      assert Delays(busy, over, 0, 1) == busy(0) + over(0) by { assert Delays(busy, over, 0, 0) == 0; }
    } else {
      n := LatenessAbsorbed(iat, pmc, warmup, busy, over, fired, k - 1);
    }
  }

  /** A driver whose delays fit into every gap is never more than a microsecond and one sleep overrun late. */
  lemma {:induction false} Punctual(iat: seq<real>, pmc: seq<nat>, warmup: int, busy: nat -> nat, over: nat -> nat,
      fired: seq<Fired>, k: nat)
    requires Run(iat, pmc, warmup, busy, over, fired) && k < |fired|
    requires busy(0) <= 1000 * Target(iat, 1) + 999
    requires forall i :: 0 < i <= k ==> busy(i) + over(i - 1) <= 1000 * Truncate(iat[i])
    ensures 0 <= Late(iat, fired, k) - over(k) <= 999
  {
    assert Timed(iat, fired, busy, over, k);
    if k > 0 {
      Punctual(iat, pmc, warmup, busy, over, fired, k - 1);
    }
  }
}
