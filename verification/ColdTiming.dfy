/**
 When the cold functions fire, stated on their times alone: evenly spaced for a whole rate, together with another one
 for any other rate, and at whole seconds below a rate of one.
 */
module ColdTiming {
  import opened Arithmetic
  import opened Timeline
  import opened Rps
  import C = ColdRates

  /** When a function fires for the first time. */
  function First(f: ColdFunction): real
    requires f.iat != []
  {
    Scheduled(f.iat, 1)
  }

  lemma FirstTime(d: int, rps: real, c: int, fs: seq<ColdFunction>, i: nat)
    requires d >= 1 && rps > 0.0 && Delivered(d, rps, c, fs) && i < |fs|
    ensures fs[i].iat != [] && First(fs[i]) == Offset(rps, i) as real
  {
    var gap, end := Gap(rps, c), (d * MINUTE) as real;
    assert ColdAt(d, rps, c, i, fs[i]);
    assert After(0, gap) == 0.0;
    EvenCount(Offset(rps, i) as real, gap, end, fs[i].iat, 0);
    EvenTimes(Offset(rps, i) as real, gap, end, fs[i].iat, 0);
  }

  /** The exact time at which function `i` would first fire: its batch's second, and its share of that second. */
  function Due(rps: real, i: nat): real
    requires rps >= 1.0
  {
    (i as real / rps).Floor as real * 1_000_000.0 + (i % rps.Floor) as real * (1_000_000.0 / rps)
  }

  /** From a rate of one on, a function first fires in the last whole microsecond that is not after its exact time. */
  lemma FirstFiring(d: int, rps: real, c: int, fs: seq<ColdFunction>, i: nat)
    requires d >= 1 && rps >= 1.0 && Delivered(d, rps, c, fs) && i < |fs|
    ensures fs[i].iat != []
    ensures Due(rps, i) - 1.0 < First(fs[i]) <= Due(rps, i)
    ensures First(fs[i]) == First(fs[i]).Floor as real
  {
    FirstTime(d, rps, c, fs, i);
  }

  lemma WholeBatch(rate: nat, i: nat)
    requires rate >= 1
    ensures (i as real / rate as real).Floor == i / rate
  {
    var q := i / rate;
    C.BatchIs(rate as real, i, q);
    C.WholeFirst(rate, q);
    C.WholeFirst(rate, q + 1);
    assert (q + 1) * rate == q * rate + rate;
  }

  lemma Shared(q: nat, rate: nat, m: nat, share: real)
    requires rate as real * share == 1_000_000.0
    ensures (q * rate + m) as real * share == q as real * 1_000_000.0 + m as real * share
  {
    assert (q * rate) as real * share == q as real * (rate as real * share);
  }

  lemma WholeDue(rate: nat, rps: real, i: nat)
    requires rate >= 1 && rps == rate as real
    ensures Due(rps, i) == i as real * 1_000_000.0 / rps == i as real * (1_000_000.0 / rps)
  {
    var share := 1_000_000.0 / rps;
    assert rate as real * share == 1_000_000.0;
    WholeBatch(rate, i);
    Shared(i / rate, rate, i % rate, share);
    Distance(i as real, rps);
  }

  lemma Distance(i: real, rps: real)
    requires rps > 0.0
    ensures i * 1_000_000.0 / rps == i * (1_000_000.0 / rps)
  {
  }

  /**
   At a whole rate function `i` first fires less than a microsecond before, or at, `i` times the even distance: so many
   functions, evenly spaced, in every second.
   */
  lemma EvenlySpaced(d: int, rate: nat, c: int, fs: seq<ColdFunction>, i: nat)
    requires d >= 1 && rate >= 1 && Delivered(d, rate as real, c, fs) && i < |fs|
    ensures fs[i].iat != []
    ensures i as real * 1_000_000.0 / rate as real - 1.0 < First(fs[i]) <= i as real * 1_000_000.0 / rate as real
  {
    FirstFiring(d, rate as real, c, fs, i);
    WholeDue(rate, rate as real, i);
  }

  /** Neighbours that are not the last and the first of a round are one even distance apart, to a microsecond. */
  lemma NeighbourSpacing(d: int, rps: real, c: int, fs: seq<ColdFunction>, i: nat)
    requires d >= 1 && rps >= 1.0 && Delivered(d, rps, c, fs) && i + 1 < |fs|
    requires (i as real / rps).Floor == ((i + 1) as real / rps).Floor && (i + 1) % rps.Floor != 0
    ensures fs[i].iat != [] && fs[i + 1].iat != []
    ensures 1_000_000.0 / rps - 1.0 < First(fs[i + 1]) - First(fs[i]) < 1_000_000.0 / rps + 1.0
  {
    FirstFiring(d, rps, c, fs, i);
    FirstFiring(d, rps, c, fs, i + 1);
    NextDue(rps, i);
  }

  lemma NextDue(rps: real, i: nat)
    requires rps >= 1.0
    requires (i as real / rps).Floor == ((i + 1) as real / rps).Floor && (i + 1) % rps.Floor != 0
    ensures Due(rps, i + 1) == Due(rps, i) + 1_000_000.0 / rps
  {
    NextRemainder(i, rps.Floor);
    OneFurther(i % rps.Floor, 1_000_000.0 / rps);
  }

  lemma OneFurther(m: int, x: real)
    ensures (m + 1) as real * x == m as real * x + x
  {
  }

  lemma NextRemainder(i: nat, n: nat)
    requires n >= 1 && (i + 1) % n != 0
    ensures (i + 1) % n == i % n + 1
  {
    if i % n == n - 1 {
      QuotientIs(i + 1, n, i / n + 1, 0);
    } else {
      QuotientIs(i + 1, n, i / n, i % n + 1);
    }
  }

  ghost predicate AllStarted(fs: seq<ColdFunction>)
  {
    forall i :: 0 <= i < |fs| ==> fs[i].iat != []
  }

  ghost predicate Apart(fs: seq<ColdFunction>)
    requires AllStarted(fs)
  {
    forall i, j :: 0 <= i < j < |fs| ==> First(fs[i]) != First(fs[j])
  }

  /**
   No two functions fire together exactly if the rate is a whole number, and not above one per microsecond.  At any
   other rate the first batch has one function more than the whole rate, and it fires together with function 0.
   */
  lemma ApartIff(d: int, rps: real, c: int, fs: seq<ColdFunction>)
    requires d >= 1 && rps >= 1.0 && c >= 1 && Delivered(d, rps, c, fs)
    ensures AllStarted(fs)
    ensures Apart(fs) <==> rps == rps.Floor as real && rps <= 1_000_000.0
  {
    forall i | 0 <= i < |fs|
      ensures fs[i].iat != []
    {
      FirstTime(d, rps, c, fs, i);
    }
    if rps == rps.Floor as real && rps <= 1_000_000.0 {
      forall i, j | 0 <= i < j < |fs|
        ensures First(fs[i]) != First(fs[j])
      {
        Separate(d, rps.Floor, rps, c, fs, i, j);
      }
    } else {
      Together(d, rps, c, fs);
    }
  }

  lemma Separate(d: int, rate: nat, rps: real, c: int, fs: seq<ColdFunction>, i: nat, j: nat)
    requires d >= 1 && rate >= 1 && rps == rate as real <= 1_000_000.0 && Delivered(d, rps, c, fs) && i < j < |fs|
    ensures fs[i].iat != [] && fs[j].iat != [] && First(fs[i]) < First(fs[j])
  {
    FirstFiring(d, rps, c, fs, i);
    FirstFiring(d, rps, c, fs, j);
    SeparateDue(rate, rps, i, j);
  }

  lemma SeparateDue(rate: nat, rps: real, i: nat, j: nat)
    requires rate >= 1 && rps == rate as real <= 1_000_000.0 && i < j
    ensures Due(rps, j) >= Due(rps, i) + 1.0
  {
    WholeDue(rate, rps, i);
    WholeDue(rate, rps, j);
    var share := 1_000_000.0 / rps;
    assert share * rps == 1_000_000.0;
    C.Times(share, 1.0, rps);
    Further(i, j, share);
  }

  lemma Further(i: nat, j: nat, x: real)
    requires i < j && x >= 1.0
    ensures j as real * x >= i as real * x + 1.0
  {
    var y := (j - i) as real;
    assert y * x >= x by {
      C.Times(y, 1.0, x);
    }
    assert j as real * x == i as real * x + y * x;
  }

  /** A function that is due together with the first one, where the rate is not whole or too high. */
  lemma Together(d: int, rps: real, c: int, fs: seq<ColdFunction>)
    requires d >= 1 && rps >= 1.0 && c >= 1 && Delivered(d, rps, c, fs) && AllStarted(fs)
    requires rps != rps.Floor as real || rps > 1_000_000.0
    ensures !Apart(fs)
  {
    var j := if rps > 1_000_000.0 then 1 else rps.Floor;
    EnoughFunctions(rps, c);
    DueAtOnce(rps, 0);
    DueAtOnce(rps, j);
    FirstFiring(d, rps, c, fs, 0);
    FirstFiring(d, rps, c, fs, j);
    SameMicrosecond(First(fs[0]), Due(rps, 0));
    SameMicrosecond(First(fs[j]), Due(rps, j));
  }

  lemma SameMicrosecond(t: real, due: real)
    requires t == t.Floor as real && due - 1.0 < t <= due && 0.0 <= due < 1.0
    ensures t == 0.0
  {
  }

  lemma EnoughFunctions(rps: real, c: int)
    requires c >= 1 && rps >= 1.0
    ensures Functions(rps, c) as real >= rps
  {
    C.Times(c as real, 1.0, rps);
    assert rps * c as real == c as real * rps;
    C.AtLeastCeiling(Functions(rps, c), rps * c as real);
  }

  lemma FirstBatch(rps: real, j: nat)
    requires rps >= 1.0 && j as real < rps
    ensures (j as real / rps).Floor == 0
  {
    C.BatchIs(rps, j, 0);
    C.AtLeastCeiling(j, rps);
    assert 0 as real * rps == 0.0 && 1 as real * rps == rps;
  }

  lemma ShareSmall(rps: real)
    requires rps >= 1.0
    ensures 1_000_000.0 / rps > 0.0 && (rps > 1_000_000.0 ==> 1_000_000.0 / rps < 1.0)
  {
  }

  lemma DueAtOnce(rps: real, j: nat)
    requires rps >= 1.0
    requires j == 0 || (j == 1 && rps > 1_000_000.0) || (j == rps.Floor && rps != j as real)
    ensures 0.0 <= Due(rps, j) < 1.0
  {
    FirstBatch(rps, j);
    ShareSmall(rps);
    if j == 1 && rps > 1_000_000.0 {
      assert j % rps.Floor == 1;
    } else {
      assert j % rps.Floor == 0;
    }
  }

  // ---- gaps, and rates below one ----

  /** As many functions as invocations during a cooldown, rounded up. */
  lemma FunctionCount(rps: real, c: int)
    ensures Functions(rps, c) as real - 1.0 < rps * c as real <= Functions(rps, c) as real
  {
  }

  lemma GapIs(rps: real, c: int)
    requires rps > 0.0 && Functions(rps, c) > 0
    ensures Gap(rps, c)
         == if rps >= 1.0 then c as real * 1_000_000.0 else 1_000_000.0 * (Functions(rps, c) as real / rps)
  {
    FunctionsPositive(rps, c);
    if rps >= 1.0 {
      C.FastGap(rps, c);
    } else {
      C.GapOf(Functions(rps, c) as real, rps);
    }
  }

  /**
   Between two invocations of a function there is the cooldown, or below a rate of one the time that all functions
   take to have their turn; there are as many invocations as begin within the length of the experiment.
   */
  lemma Turns(d: int, rps: real, c: int, fs: seq<ColdFunction>, i: nat)
    requires d >= 1 && rps > 0.0 && Delivered(d, rps, c, fs) && i < |fs|
    ensures var iat := fs[i].iat;
      var gap := if rps >= 1.0 then c as real * 1_000_000.0 else 1_000_000.0 * (|fs| as real / rps);
      && (forall k :: 0 < k < |iat| ==> iat[k] == gap)
      && (|iat| - 1) as real * gap < d as real * 60_000_000.0 <= |iat| as real * gap
  {
    GapIs(rps, c);
    FirstTime(d, rps, c, fs, i);
    assert ColdAt(d, rps, c, i, fs[i]);
  }

  /** Below a rate of one every function starts at a whole second: its number divided by the rate, rounded down. */
  lemma SlowStart(d: int, rps: real, c: int, fs: seq<ColdFunction>, i: nat)
    requires d >= 1 && 0.0 < rps < 1.0 && Delivered(d, rps, c, fs) && i < |fs|
    ensures fs[i].iat != [] && First(fs[i]) == (i as real / rps).Floor as real * 1_000_000.0
  {
    FirstTime(d, rps, c, fs, i);
  }
}
