/**
 Schedules for a target rate: one warm function, or many cold ones that take turns so that each of
 them has cooled down before it is invoked again.
 */
module Rps {
  import opened Arithmetic
  import opened SeqSums
  import opened Timeline
  import T = TraceDriver

  const SECOND: int := 1_000_000

  /** Panic: an index or a length out of range; Diverges: a loop that never ends. */
  datatype Outcome<+V> = Panic | Diverges | Returned(value: V)

  // ---- one function ----

  /** `k` gaps. */
  function After(k: int, gap: real): real
  {
    k as real * gap
  }

  /** Gaps of length `gap` after a first one of length `first`, as many as fit before `end`. */
  ghost predicate Evenly(first: real, gap: real, end: real, iat: seq<real>)
  {
    && (forall i :: 0 <= i < |iat| ==> iat[i] == if i == 0 then first else gap)
    && After(|iat|, gap) >= end
    && (iat != [] ==> After(|iat| - 1, gap) < end)
  }

  /** The times of a function with this rate: a rate of zero means one invocation only. */
  ghost predicate Paced(first: real, rps: real, d: int, iat: seq<real>)
  {
    if d <= 0 then iat == []
    else if rps == 0.0 then iat == [first]
    else rps > 0.0 && iat != [] && Evenly(first, 1_000_000.0 / rps, (d * MINUTE) as real, iat)
  }

  lemma OneMore(k: int, gap: real)
    ensures After(k + 1, gap) == After(k, gap) + gap
  {
  }

  lemma {:induction false} EvenTimes(first: real, gap: real, end: real, iat: seq<real>, k: nat)
    requires Evenly(first, gap, end, iat) && k < |iat|
    ensures Scheduled(iat, k + 1) == first + After(k, gap)
  {
    if k > 0 {
      EvenTimes(first, gap, end, iat, k - 1);
      OneMore(k - 1, gap);
      assert iat[k] == gap;
    } else {
      assert Scheduled(iat, 0) == 0.0;
    }
  }

  /** The loop of generateFunctionByRPS, for gaps that bring the end closer. */
  method CollectGaps(iat: real, total: real) returns (iatResult: seq<real>)
    requires iat > 0.0
    ensures forall i :: 0 <= i < |iatResult| ==> iatResult[i] == iat
    ensures After(|iatResult|, iat) >= total && (iatResult != [] ==> After(|iatResult| - 1, iat) < total)
    ensures iatResult == [] <==> total <= 0.0
  {
    var duration := 0.0;
    iatResult := [];
    while duration < total
      invariant duration == After(|iatResult|, iat)
      invariant forall i :: 0 <= i < |iatResult| ==> iatResult[i] == iat
      invariant iatResult != [] ==> After(|iatResult| - 1, iat) < total && total > 0.0
      decreases (total - duration) / iat
    {
      Closer(total, duration, iat);
      OneMore(|iatResult|, iat);
      iatResult := iatResult + [iat];
      duration := duration + iat;
    }
  }

  /** The condition of the loop holds after any number of rounds. */
  ghost predicate NeverEnds(rps: real, d: int)
  {
    && rps != 0.0
    && var gap, end := 1_000_000.0 / rps, (d * MINUTE) as real;
    forall k: nat :: After(k, gap) < end
  }

  lemma NegativeGap(rps: real, k: nat)
    requires rps < 0.0
    ensures After(k, 1_000_000.0 / rps) <= 0.0
  {
    var gap := 1_000_000.0 / rps;
    assert gap * rps == 1_000_000.0;
    assert gap < 0.0;
    assert k as real * gap <= 0.0;
  }

  /** The loop never ends exactly for a negative rate and a positive length. */
  lemma NeverEndsIff(rps: real, d: int)
    ensures NeverEnds(rps, d) <==> rps < 0.0 && d > 0
  {
    var end := (d * MINUTE) as real;
    if rps < 0.0 && d > 0 {
      var gap := 1_000_000.0 / rps;
      forall k: nat
        ensures After(k, gap) < end
      {
        NegativeGap(rps, k);
      }
    } else if d <= 0 && rps != 0.0 {
      assert After(0, 1_000_000.0 / rps) == 0.0;
    } else if rps > 0.0 {
      var gap := 1_000_000.0 / rps;
      var k := RoundsEnough(gap, end);
      assert After(k, gap) >= end;
    }
  }

  lemma AboveQuotient(x: real, gap: real)
    requires gap > 0.0 && x > 0.0
    ensures x.Floor + 1 >= 0 && After(x.Floor + 1, gap) >= x * gap
  {
    var y := (x.Floor + 1) as real - x;
    assert y > 0.0;
    assert y * gap > 0.0;
    assert (x + y) * gap == x * gap + y * gap;
  }

  /** With a positive gap the end is reached. */
  lemma RoundsEnough(gap: real, end: real) returns (k: nat)
    requires gap > 0.0
    ensures After(k, gap) >= end
  {
    if end <= 0.0 {
      k := 0;
    } else {
      var x := end / gap;
      assert x * gap == end && x > 0.0;
      AboveQuotient(x, gap);
      k := x.Floor + 1;
    }
  }

  /** generateFunctionByRPS; with a rate of zero the gap is infinite and the loop makes one round. */
  method GenerateFunctionByRPS(experimentDuration: int, rpsTarget: real) returns (r: Outcome<seq<real>>)
    ensures !r.Panic?
    ensures r.Diverges? <==> NeverEnds(rpsTarget, experimentDuration)
    ensures r.Diverges? <==> rpsTarget < 0.0 && experimentDuration > 0
    ensures r.Returned? ==> Paced(0.0, rpsTarget, experimentDuration, r.value)
  {
    var total := (experimentDuration * 60_000_000) as real;
    NeverEndsIff(rpsTarget, experimentDuration);
    if rpsTarget == 0.0 {
      return Returned(if 0.0 < total then [0.0] else []);
    }
    if rpsTarget < 0.0 {
      return if 0.0 < total then Diverges else Returned([]);
    }
    var iatResult := CollectGaps(1_000_000.0 / rpsTarget, total);
    if |iatResult| > 0 {
      iatResult := iatResult[0 := 0.0];
    }
    r := Returned(iatResult);
  }

  lemma Closer(total: real, duration: real, gap: real)
    requires gap > 0.0 && duration < total
    ensures (total - (duration + gap)) / gap == (total - duration) / gap - 1.0
    ensures (total - duration) / gap > 0.0
  {
    var p, q := (total - (duration + gap)) / gap, (total - duration) / gap;
    assert p * gap == total - (duration + gap) && q * gap == total - duration;
    SameFactor(p, q - 1.0, gap);
  }

  lemma SameFactor(p: real, q: real, gap: real)
    requires gap > 0.0 && p * gap == q * gap
    ensures p == q
  {
    assert (p - q) * gap == 0.0;
  }

  lemma Later(i: int, k: int, gap: real)
    requires gap > 0.0 && i <= k
    ensures After(i, gap) <= After(k, gap)
  {
    assert (k - i) as real * gap >= 0.0;
  }

  lemma MinuteReached(t: real, d: int)
    requires d >= 1
    ensures MinuteAt(t) >= d <==> t >= (d * MINUTE) as real
    ensures MinuteAt(t) >= 0 <==> t > -(MINUTE as real)
  {
  }

  /** How often each minute was met among the first `k` invocations. */
  ghost predicate Tallied(minutes: seq<int>, k: nat, cnt: map<int, nat>)
    requires k <= |minutes|
  {
    && (forall m :: m in cnt ==> cnt[m] == Count(minutes, k, m))
    && (forall m: int :: m !in cnt ==> Count(minutes, k, m) == 0)
    && (forall m :: m in cnt ==> exists i :: 0 <= i < k && minutes[i] == m)
  }

  lemma {:induction false} CountMet(minutes: seq<int>, k: nat, i: nat)
    requires i < k <= |minutes|
    ensures Count(minutes, k, minutes[i]) > 0
  {
    if i < k - 1 {
      CountMet(minutes, k - 1, i);
    }
  }

  /** The first loop of countNumberOfInvocationsPerMinute: one entry per minute met. */
  method TallyMinutes(iat: seq<real>) returns (cnt: map<int, nat>)
    ensures Tallied(Minutes(iat), |iat|, cnt)
  {
    cnt := map[];
    var timestamp := 0.0;
    for i := 0 to |iat|
      invariant timestamp == Scheduled(iat, i) && Tallied(Minutes(iat), i, cnt)
    {
      var t := timestamp + iat[i];
      var minute := Quotient(Truncate(t), 60_000_000);
      TallyOne(Minutes(iat), i, cnt, minute);
      cnt := cnt[minute := (if minute in cnt then cnt[minute] else 0) + 1];
      timestamp := t;
    }
  }

  lemma TallyOne(minutes: seq<int>, i: nat, cnt: map<int, nat>, minute: int)
    requires i < |minutes| && Tallied(minutes, i, cnt) && minutes[i] == minute
    ensures Tallied(minutes, i + 1, cnt[minute := (if minute in cnt then cnt[minute] else 0) + 1])
  {
    var next := cnt[minute := (if minute in cnt then cnt[minute] else 0) + 1];
    forall m | m in next
      ensures exists j :: 0 <= j < i + 1 && minutes[j] == m
    {
      if m == minute {
        assert minutes[i] == m;
      }
    }
  }

  /** Some invocation falls outside the minutes of the experiment. */
  ghost predicate OutOfRange(d: int, iat: seq<real>)
  {
    exists k :: 0 <= k < |iat| && !(0 <= MinuteOf(iat, k) < d)
  }

  /** countNumberOfInvocationsPerMinute; None stands for an index or a length out of range. */
  method CountNumberOfInvocationsPerMinute(experimentDuration: int, iat: seq<real>) returns (r: Option<seq<nat>>)
    ensures r.None? <==> experimentDuration < 0 || OutOfRange(experimentDuration, iat)
    ensures r.Some? ==> |r.value| == experimentDuration && Histogram(Minutes(iat), r.value)
  {
    if experimentDuration < 0 {
      return None;
    }
    var result: seq<nat> := seq(experimentDuration, _ => 0);
    var cnt := TallyMinutes(iat);
    ghost var minutes := Minutes(iat);
    var keys := cnt.Keys;
    while keys != {}
      invariant keys <= cnt.Keys && |result| == experimentDuration
      invariant forall m :: m in cnt && m !in keys ==> 0 <= m < experimentDuration && result[m] == cnt[m]
      invariant forall m :: 0 <= m < experimentDuration && (m in keys || m !in cnt) ==> result[m] == 0
    {
      var key := SomeElement(keys);
      if !(0 <= key < experimentDuration) {
        ghost var k :| 0 <= k < |minutes| && minutes[k] == key;
        assert MinuteOf(iat, k) == key;
        return None;
      }
      result := result[key := cnt[key]];
      keys := keys - {key};
    }
    forall k | 0 <= k < |iat|
      ensures 0 <= minutes[k] < experimentDuration
    {
      CountMet(minutes, |iat|, k);
      assert minutes[k] in cnt;
    }
    r := Some(result);
  }

  /** The warm function; None stands for nil, which a slice stays to which nothing was appended. */
  datatype WarmFunction = WarmFunction(iat: Option<seq<real>>, count: seq<nat>)
  {
    function Times(): seq<real> { if iat.Some? then iat.value else [] }
  }

  /** GenerateWarmStartFunction: only a negative length or rate makes it fail. */
  method GenerateWarmStartFunction(experimentDuration: int, rpsTarget: real) returns (r: Outcome<WarmFunction>)
    ensures r.Panic? <==> experimentDuration < 0
    ensures r.Diverges? <==> rpsTarget < 0.0 && experimentDuration > 0
    ensures r.Returned? ==> |r.value.count| == experimentDuration && Histogram(Minutes(r.value.Times()), r.value.count)
    ensures r.Returned? ==> (r.value.iat.None? <==> rpsTarget == 0.0 || experimentDuration == 0)
    ensures r.Returned? && rpsTarget != 0.0 ==> Paced(0.0, rpsTarget, experimentDuration, r.value.Times())
  {
    if rpsTarget == 0.0 {
      var none := CountNumberOfInvocationsPerMinute(experimentDuration, []);
      return if none.None? then Panic else Returned(WarmFunction(None, none.value));
    }
    var times := GenerateFunctionByRPS(experimentDuration, rpsTarget);
    if times.Diverges? {
      return Diverges;
    }
    WarmInRange(experimentDuration, rpsTarget, times.value);
    var counted := CountNumberOfInvocationsPerMinute(experimentDuration, times.value);
    if counted.None? {
      return Panic;
    }
    r := Returned(WarmFunction(if times.value == [] then None else Some(times.value), counted.value));
  }

  lemma WarmInRange(d: int, rps: real, iat: seq<real>)
    requires rps != 0.0 && Paced(0.0, rps, d, iat)
    ensures !OutOfRange(d, iat)
  {
    forall k | 0 <= k < |iat|
      ensures 0 <= MinuteOf(iat, k) < d
    {
      var gap := 1_000_000.0 / rps;
      EvenTimes(0.0, gap, (d * MINUTE) as real, iat, k);
      Later(k, |iat| - 1, gap);
      Later(0, k, gap);
      MinuteReached(Scheduled(iat, k + 1), d);
    }
  }

  // ---- cold functions ----

  datatype ColdFunction = ColdFunction(iat: seq<real>, count: seq<nat>)

  /** A function with these gaps fires outside the experiment's minutes, or has no first invocation to delay. */
  ghost predicate Overruns(d: int, gap: real, offset: int)
  {
    d <= 0 || offset <= -MINUTE || exists k: nat :: FiresLate(d, gap, offset, k)
  }

  ghost predicate FiresLate(d: int, gap: real, offset: int, k: nat)
  {
    After(k, gap) < (d * MINUTE) as real && offset as real + After(k, gap) >= (d * MINUTE) as real
  }

  lemma EvenCount(first: real, gap: real, end: real, iat: seq<real>, k: nat)
    requires gap > 0.0 && Evenly(first, gap, end, iat)
    ensures k < |iat| <==> After(k, gap) < end
  {
    if k < |iat| {
      Later(k, |iat| - 1, gap);
      assert After(k, gap) < end;
    } else {
      Later(|iat|, k, gap);
      assert After(k, gap) >= end;
    }
  }

  lemma EvenMinute(first: real, gap: real, d: int, iat: seq<real>, k: nat)
    requires Evenly(first, gap, (d * MINUTE) as real, iat) && k < |iat| && d >= 1
    ensures MinuteOf(iat, k) >= d <==> first + After(k, gap) >= (d * MINUTE) as real
    ensures MinuteOf(iat, k) >= 0 <==> first + After(k, gap) > -(MINUTE as real)
  {
    EvenTimes(first, gap, (d * MINUTE) as real, iat, k);
    MinuteReached(Scheduled(iat, k + 1), d);
  }

  lemma EvenLate(d: int, gap: real, offset: int, iat: seq<real>, k: nat)
    requires gap > 0.0 && Evenly(offset as real, gap, (d * MINUTE) as real, iat) && d >= 1
    ensures FiresLate(d, gap, offset, k) <==> k < |iat| && MinuteOf(iat, k) >= d
  {
    EvenCount(offset as real, gap, (d * MINUTE) as real, iat, k);
    if k < |iat| {
      EvenMinute(offset as real, gap, d, iat, k);
    }
  }

  /** The first invocation is the only one that can fall in a negative minute. */
  lemma EvenEarly(d: int, gap: real, offset: int, iat: seq<real>, k: nat)
    requires gap > 0.0 && Evenly(offset as real, gap, (d * MINUTE) as real, iat) && d >= 1 && k < |iat|
    ensures MinuteOf(iat, k) < 0 ==> offset <= -MINUTE
    ensures k == 0 && offset <= -MINUTE ==> MinuteOf(iat, k) < 0
  {
    Later(0, k, gap);
    EvenMinute(offset as real, gap, d, iat, k);
  }

  lemma OverrunsIff(d: int, gap: real, offset: int, iat: seq<real>)
    requires gap > 0.0 && Evenly(offset as real, gap, (d * MINUTE) as real, iat) && d >= 1
    ensures Overruns(d, gap, offset) <==> OutOfRange(d, iat)
  {
    EvenCount(offset as real, gap, (d * MINUTE) as real, iat, 0);
    EvenEarly(d, gap, offset, iat, 0);
    if k: nat :| FiresLate(d, gap, offset, k) {
      EvenLate(d, gap, offset, iat, k);
    }
    if k :| 0 <= k < |iat| && !(0 <= MinuteOf(iat, k) < d) {
      EvenLate(d, gap, offset, iat, k);
      EvenEarly(d, gap, offset, iat, k);
    }
  }

  /** A function with these times, counted per minute. */
  ghost predicate Takes(d: int, gap: real, offset: int, f: ColdFunction)
  {
    && Evenly(offset as real, gap, (d * MINUTE) as real, f.iat)
    && |f.count| == d && Histogram(Minutes(f.iat), f.count)
  }

  lemma DelayFirst(gap: real, end: real, offset: real, iat: seq<real>)
    requires Evenly(0.0, gap, end, iat) && iat != []
    ensures Evenly(offset, gap, end, iat[0 := iat[0] + offset])
  {
  }

  /** The case in which a function with this rate and delay is out of range. */
  ghost predicate Misses(d: int, rps: real, offset: int)
  {
    if rps > 0.0 then Overruns(d, 1_000_000.0 / rps, offset)
    else d <= 0 || (rps == 0.0 && !(-MINUTE < offset < d * MINUTE))
  }

  lemma DelayedRange(d: int, rps: real, offset: int, iat: seq<real>)
    requires d > 0 && Paced(0.0, rps, d, iat)
    ensures Paced(offset as real, rps, d, iat[0 := iat[0] + offset as real])
    ensures Misses(d, rps, offset) <==> OutOfRange(d, iat[0 := iat[0] + offset as real])
  {
    var delayed := iat[0 := iat[0] + offset as real];
    if rps == 0.0 {
      assert delayed == [offset as real];
      SingleTime(offset as real);
      MinuteReached(offset as real, d);
      assert MinuteOf(delayed, 0) == MinuteAt(offset as real);
    } else {
      var gap := 1_000_000.0 / rps;
      DelayFirst(gap, (d * MINUTE) as real, offset as real, iat);
      OverrunsIff(d, gap, offset, delayed);
    }
  }

  lemma SingleTime(t: real)
    ensures Scheduled([t], 1) == t
  {
    assert Scheduled([t], 0) == 0.0;
  }

  /** generateFunctionByRPSWithOffset: an empty list has no first gap to extend. */
  method GenerateFunctionByRPSWithOffset(experimentDuration: int, rpsTarget: real, offset: int)
    returns (r: Outcome<ColdFunction>)
    ensures r.Diverges? <==> rpsTarget < 0.0 && experimentDuration > 0
    ensures r.Panic? <==> Misses(experimentDuration, rpsTarget, offset)
    ensures r.Returned? ==>
      && Paced(offset as real, rpsTarget, experimentDuration, r.value.iat)
      && |r.value.count| == experimentDuration && Histogram(Minutes(r.value.iat), r.value.count)
  {
    var times := GenerateFunctionByRPS(experimentDuration, rpsTarget);
    if times.Diverges? {
      return Diverges;
    }
    var iat := times.value;
    if iat == [] {
      return Panic;
    }
    DelayedRange(experimentDuration, rpsTarget, offset, iat);
    iat := iat[0 := iat[0] + offset as real];
    var count := CountNumberOfInvocationsPerMinute(experimentDuration, iat);
    r := if count.Some? then Returned(ColdFunction(iat, count.value)) else Panic;
  }

  function Ceiling(x: real): int
  {
    -((-x).Floor)
  }

  /** The number of cold functions asked for; none if it is not positive. */
  function Functions(rps: real, c: int): int
  {
    Ceiling(rps * c as real)
  }

  lemma FunctionsPositive(rps: real, c: int)
    requires Functions(rps, c) > 0
    ensures (rps > 0.0 && c > 0) || (rps < 0.0 && c < 0)
  {
    var x := rps * c as real;
    assert x > 0.0;
    assert rps == 0.0 || c == 0 ==> x == 0.0;
    assert rps > 0.0 && c < 0 ==> x <= 0.0;
    assert rps < 0.0 && c > 0 ==> x <= 0.0;
  }

  /** Invocations per second of one cold function. */
  function Rate(rps: real, c: int): (rate: real)
    requires Functions(rps, c) > 0
    ensures if rps > 0.0 then rate > 0.0 else rate < 0.0
  {
    FunctionsPositive(rps, c);
    if rps >= 1.0 then 1.0 / c as real
    else
      SameSign(Functions(rps, c) as real, rps);
      1.0 / (Functions(rps, c) as real / rps)
  }

  lemma SameSign(n: real, rps: real)
    requires n > 0.0 && rps != 0.0
    ensures n / rps != 0.0
    ensures if rps > 0.0 then 1.0 / (n / rps) > 0.0 else 1.0 / (n / rps) < 0.0
  {
    var x := n / rps;
    assert x * rps == n;
    assert rps > 0.0 ==> x > 0.0;
    assert rps < 0.0 ==> x < 0.0;
    var y := 1.0 / x;
    assert y * x == 1.0;
  }

  /** Microseconds between two invocations of one cold function. */
  function Gap(rps: real, c: int): (gap: real)
    requires rps > 0.0 && Functions(rps, c) > 0
    ensures gap > 0.0
  {
    1_000_000.0 / Rate(rps, c)
  }

  /** How much later than function 0 the i-th function starts. */
  function Offset(rps: real, i: nat): nat
    requires rps > 0.0
  {
    var inBatch := if rps >= 1.0 then ((i % rps.Floor) as real * (1_000_000.0 / rps)).Floor else 0;
    inBatch + (i as real / rps).Floor * SECOND
  }

  /** The delay of the i-th function: full seconds for its batch, and its share of a second within the batch. */
  method StartOffset(rpsTarget: real, i: nat) returns (offset: int)
    requires rpsTarget != 0.0
    ensures rpsTarget > 0.0 ==> offset == Offset(rpsTarget, i)
  {
    var iat := 1_000_000.0 / rpsTarget;
    var offsetWithinBatch := 0;
    if rpsTarget >= 1.0 {
      offsetWithinBatch := Truncate((i % rpsTarget.Floor) as real * iat);
    }
    var offsetBetweenFunctions := Truncate(i as real / rpsTarget) * 1_000_000;
    offset := offsetWithinBatch + offsetBetweenFunctions;
  }

  /** The i-th cold function does not fit the experiment. */
  ghost predicate Excluded(d: int, rps: real, c: int, i: nat)
    requires rps > 0.0 && Functions(rps, c) > 0
  {
    Overruns(d, Gap(rps, c), Offset(rps, i))
  }

  /** Generation of the cold functions indexes out of range. */
  ghost predicate ColdPanics(d: int, rps: real, c: int)
  {
    && Functions(rps, c) > 0
    && if rps > 0.0 then exists i: nat :: i < Functions(rps, c) && Excluded(d, rps, c, i) else d <= 0
  }

  /** The i-th cold function as it should be. */
  ghost predicate ColdAt(d: int, rps: real, c: int, i: nat, f: ColdFunction)
    requires Functions(rps, c) > 0
  {
    rps > 0.0 && Takes(d, Gap(rps, c), Offset(rps, i), f)
  }

  /** What successful generation delivers, if any functions are asked for. */
  ghost predicate Delivered(d: int, rps: real, c: int, fs: seq<ColdFunction>)
  {
    && |fs| == Functions(rps, c) > 0
    && forall i :: 0 <= i < |fs| ==> ColdAt(d, rps, c, i, fs[i])
  }

  /** GenerateColdStartFunctions, for every length, rate and cooldown. */
  method GenerateColdStartFunctions(experimentDuration: int, rpsTarget: real, cooldownSeconds: int)
    returns (r: Outcome<seq<ColdFunction>>)
    ensures r.Panic? <==> ColdPanics(experimentDuration, rpsTarget, cooldownSeconds)
    ensures r.Diverges? <==> Functions(rpsTarget, cooldownSeconds) > 0 && rpsTarget < 0.0 && experimentDuration > 0
    ensures r.Returned? ==>
      if Functions(rpsTarget, cooldownSeconds) > 0 then
        Delivered(experimentDuration, rpsTarget, cooldownSeconds, r.value)
      else r.value == []
  {
    var totalFunctions := Functions(rpsTarget, cooldownSeconds);
    var functions: seq<ColdFunction> := [];
    if totalFunctions <= 0 {
      return Returned(functions);
    }
    FunctionsPositive(rpsTarget, cooldownSeconds);
    for i := 0 to totalFunctions
      invariant |functions| == i && (i > 0 ==> rpsTarget > 0.0)
      invariant forall j: nat :: j < i ==> !Excluded(experimentDuration, rpsTarget, cooldownSeconds, j)
      invariant forall j :: 0 <= j < i ==> ColdAt(experimentDuration, rpsTarget, cooldownSeconds, j, functions[j])
    {
      var offset := StartOffset(rpsTarget, i);
      var fx := GenerateFunctionByRPSWithOffset(experimentDuration, Rate(rpsTarget, cooldownSeconds), offset);
      match fx {
        case Panic =>
          assert rpsTarget > 0.0 ==> Excluded(experimentDuration, rpsTarget, cooldownSeconds, i);
          return Panic;
        case Diverges =>
          return Diverges;
        case Returned(f) =>
          functions := functions + [f];
      }
    }
    r := Returned(functions);
  }

  /** A driver of a cold function labels every invocation with the minute in which it fires. */
  lemma ColdLabelled(d: int, gap: real, offset: nat, f: ColdFunction, warmup: int, busy: nat -> nat, over: nat -> nat,
      fired: seq<T.Fired>, k: nat)
    requires gap > 0.0 && Takes(d, gap, offset, f) && T.Run(f.iat, f.count, warmup, busy, over, fired) && k < |fired|
    ensures fired[k].minute == MinuteAt(offset as real + After(k, gap))
  {
    EvenTimes(offset as real, gap, (d * MINUTE) as real, f.iat, k);
    T.LabelIsMinute(f.iat, f.count, warmup, busy, over, fired, k);
  }
}
