/**
 What the cold functions do together: when generating them fails, and how often they fire in every
 second, for whole rates and for all others.
 */
module ColdRates {
  import opened Arithmetic
  import opened Timeline
  import opened Rps

  // ---- batches ----

  /** The second in which the i-th function fires for the first time. */
  function Batch(rps: real, i: nat): nat
    requires rps > 0.0
  {
    (i as real / rps).Floor
  }

  /** The number of functions that fire for the first time before second `q`. */
  function FirstOf(rps: real, q: nat): int
  {
    Ceiling(q as real * rps)
  }

  lemma AtLeastCeiling(i: int, x: real)
    ensures i >= Ceiling(x) <==> i as real >= x
  {
  }

  lemma Times(x: real, q: real, rps: real)
    requires rps > 0.0
    ensures x >= q <==> x * rps >= q * rps
  {
    if x >= q {
      assert (x - q) * rps >= 0.0;
    } else {
      assert (q - x) * rps > 0.0;
    }
  }

  /** The functions of batch `q` and later are those from FirstOf(q) on. */
  lemma BatchAtLeast(rps: real, i: nat, q: nat)
    requires rps > 0.0
    ensures Batch(rps, i) >= q <==> i >= FirstOf(rps, q)
  {
    var x := i as real / rps;
    assert x * rps == i as real;
    Times(x, q as real, rps);
    AtLeastCeiling(i, q as real * rps);
  }

  lemma BatchIs(rps: real, i: nat, q: nat)
    requires rps > 0.0
    ensures Batch(rps, i) == q <==> FirstOf(rps, q) <= i < FirstOf(rps, q + 1)
  {
    BatchAtLeast(rps, i, q);
    BatchAtLeast(rps, i, q + 1);
  }

  lemma FunctionsAre(rps: real, c: nat)
    ensures Functions(rps, c) == FirstOf(rps, c)
  {
    assert rps * c as real == c as real * rps;
  }

  /** From a rate of one on every batch has a function. */
  lemma BatchNonempty(rps: real, q: nat)
    requires rps >= 1.0
    ensures 0 <= FirstOf(rps, q) < FirstOf(rps, q + 1)
  {
    var y := q as real * rps;
    assert (q + 1) as real * rps == y + rps;
    assert y >= 0.0;
    AtLeastCeiling(FirstOf(rps, q + 1) - 1, y);
    AtLeastCeiling(FirstOf(rps, q + 1), y + rps);
  }

  lemma FirstMono(rps: real, p: nat, q: nat)
    requires rps > 0.0 && p <= q
    ensures 0 <= FirstOf(rps, p) <= FirstOf(rps, q)
  {
    var y, z := p as real * rps, q as real * rps;
    assert (q - p) as real * rps >= 0.0 && y >= 0.0;
    AtLeastCeiling(FirstOf(rps, q), y);
    AtLeastCeiling(FirstOf(rps, q), z);
  }

  /** The share of a second within a batch is less than a second. */
  lemma InBatchShare(rps: real, i: nat)
    requires rps >= 1.0
    ensures 0 <= ((i % rps.Floor) as real * (1_000_000.0 / rps)).Floor < SECOND
  {
    var r, share := i % rps.Floor, 1_000_000.0 / rps;
    assert rps * share == 1_000_000.0 && share > 0.0;
    ShareBelow(r as real, rps, share);
  }

  lemma ShareBelow(r: real, rps: real, share: real)
    requires 0.0 <= r < rps && share > 0.0
    ensures 0.0 <= r * share < rps * share
  {
    Times(r, rps, share);
    Times(r, 0.0, share);
  }

  lemma OffsetSecond(rps: real, i: nat)
    requires rps >= 1.0
    ensures Offset(rps, i) / SECOND == Batch(rps, i)
  {
    InBatchShare(rps, i);
  }

  lemma FastGap(rps: real, c: nat)
    requires rps >= 1.0 && c >= 1
    ensures Functions(rps, c) > 0
    ensures Gap(rps, c) == (c * SECOND) as real
  {
    FunctionsAre(rps, c);
    BatchNonempty(rps, c - 1);
    var one := 1.0 / c as real;
    assert one * c as real == 1.0;
    assert 1_000_000.0 / one == c as real * 1_000_000.0;
  }

  // ---- firing times ----

  /** When function `i` fires for the k-th time, in microseconds. */
  function Fire(rps: real, c: nat, i: nat, k: nat): nat
    requires rps > 0.0
  {
    Offset(rps, i) + k * c * SECOND
  }

  lemma FireSecond(rps: real, c: nat, i: nat, k: nat)
    requires rps >= 1.0
    ensures Fire(rps, c, i, k) / SECOND == Batch(rps, i) + k * c
  {
    OffsetSecond(rps, i);
  }

  /** How often every function fires: once per cooldown period begun within the experiment. */
  function Rounds(d: nat, c: nat): nat
    requires c >= 1
  {
    (60 * d + c - 1) / c
  }

  lemma RoundsFit(d: nat, c: nat)
    requires c >= 1
    ensures (Rounds(d, c) - 1) * c == Rounds(d, c) * c - c < 60 * d <= Rounds(d, c) * c
    ensures Rounds(d, c) * c == 60 * d <==> 60 * d % c == 0
  {
    var n, x := Rounds(d, c), 60 * d;
    assert x + c - 1 == n * c + (x + c - 1) % c;
    assert (n - 1) * c == n * c - c;
    QuotientIs(x, c, n, 0);
    QuotientIs(x, c, x / c, x % c);
    TimesOrder(x / c, n, c);
    TimesOrder(n, x / c, c);
  }

  lemma GapTimes(k: nat, c: nat)
    ensures After(k, (c * SECOND) as real) == (k * c * SECOND) as real
  {
    assert k * (c * SECOND) == k * c * SECOND;
  }

  lemma RoundsUnique(d: nat, c: nat, n: nat)
    requires c >= 1 && n * c - c < 60 * d <= n * c
    ensures n == Rounds(d, c)
  {
    RoundsFit(d, c);
    TimesOrder(n, Rounds(d, c), c);
    TimesOrder(Rounds(d, c), n, c);
  }

  lemma GapCount(d: nat, c: nat, n: nat)
    requires c >= 1 && n >= 1
    requires After(n - 1, (c * SECOND) as real) < (d * MINUTE) as real <= After(n, (c * SECOND) as real)
    ensures n == Rounds(d, c)
  {
    GapTimes(n, c);
    GapTimes(n - 1, c);
    assert (n - 1) * c == n * c - c;
    RoundsUnique(d, c, n);
  }

  /** Every cold function fires Rounds times, exactly the cooldown apart. */
  lemma ColdTimes(d: nat, rps: real, c: nat, i: nat, f: ColdFunction)
    requires d >= 1 && rps >= 1.0 && c >= 1
    requires Takes(d, (c * SECOND) as real, Offset(rps, i), f)
    ensures |f.iat| == Rounds(d, c)
    ensures forall k :: 0 <= k < |f.iat| ==> Scheduled(f.iat, k + 1) == Fire(rps, c, i, k) as real
  {
    var n, gap, end, first := |f.iat|, (c * SECOND) as real, (d * MINUTE) as real, Offset(rps, i) as real;
    EvenCount(first, gap, end, f.iat, 0);
    GapCount(d, c, n);
    forall k | 0 <= k < n
      ensures Scheduled(f.iat, k + 1) == Fire(rps, c, i, k) as real
    {
      EvenTimes(first, gap, end, f.iat, k);
      GapTimes(k, c);
    }
  }

  /** The k-th invocation of function `i` falls in second `s`. */
  predicate InSecond(f: ColdFunction, k: nat, s: nat)
    requires k < |f.iat|
  {
    Scheduled(f.iat, k + 1).Floor / SECOND == s
  }

  /** The pairs of `n` consecutive numbers from `base` on, with `k`. */
  function BatchOf(base: nat, n: nat, k: nat): (r: set<(nat, nat)>)
    ensures forall p :: p in r <==> base <= p.0 < base + n && p.1 == k
    ensures |r| == n
  {
    if n == 0 then {} else BatchOf(base, n - 1, k) + {(base + n - 1, k)}
  }

  /** All the invocations of all the cold functions that fall in second `s`. */
  ghost function Firings(fs: seq<ColdFunction>, s: nat): set<(nat, nat)>
  {
    set i: nat, k: nat | i < |fs| && k < |fs[i].iat| && InSecond(fs[i], k, s) :: (i, k)
  }

  lemma FiringSecond(d: nat, rps: real, c: nat, i: nat, f: ColdFunction, k: nat, s: nat)
    requires d >= 1 && rps >= 1.0 && c >= 1
    requires Takes(d, (c * SECOND) as real, Offset(rps, i), f)
    ensures |f.iat| == Rounds(d, c)
    ensures k < |f.iat| ==> (InSecond(f, k, s) <==> s == k * c + Batch(rps, i))
  {
    ColdTimes(d, rps, c, i, f);
    FireSecond(rps, c, i, k);
  }

  lemma SecondIs(d: nat, c: nat, q: nat, k: nat, s: nat)
    requires c >= 1 && q < c && s < Rounds(d, c) * c
    ensures k < Rounds(d, c) && s == k * c + q <==> k == s / c && q == s % c
  {
    QuotientIs(s, c, k, q);
    TimesOrder(Rounds(d, c), k, c);
  }

  /** The functions that fire in second `s` are those of one batch, each once. */
  lemma FiringIs(d: nat, rps: real, c: nat, i: nat, f: ColdFunction, k: nat, s: nat)
    requires d >= 1 && rps >= 1.0 && c >= 1 && i < Functions(rps, c) && s < Rounds(d, c) * c
    requires Takes(d, (c * SECOND) as real, Offset(rps, i), f)
    ensures (k < |f.iat| && InSecond(f, k, s))
       <==> (FirstOf(rps, s % c) <= i < FirstOf(rps, s % c + 1) && k == s / c)
  {
    FiringSecond(d, rps, c, i, f, k, s);
    FunctionsAre(rps, c);
    BatchAtLeast(rps, i, c);
    BatchIs(rps, i, s % c);
    SecondIs(d, c, Batch(rps, i), k, s);
  }

  ghost predicate AllTake(d: nat, rps: real, c: nat, fs: seq<ColdFunction>)
    requires rps > 0.0
  {
    |fs| == Functions(rps, c) && forall i :: 0 <= i < |fs| ==> Takes(d, (c * SECOND) as real, Offset(rps, i), fs[i])
  }

  lemma FiringAt(d: nat, rps: real, c: nat, fs: seq<ColdFunction>, s: nat, lo: nat, hi: nat, i: nat, k: nat)
    requires d >= 1 && rps >= 1.0 && c >= 1 && s < Rounds(d, c) * c && AllTake(d, rps, c, fs)
    requires lo == FirstOf(rps, s % c) && hi == FirstOf(rps, s % c + 1) <= |fs|
    ensures (i < |fs| && k < |fs[i].iat| && InSecond(fs[i], k, s)) <==> (lo <= i < hi && k == s / c)
  {
    if i < |fs| {
      FiringIs(d, rps, c, i, fs[i], k, s);
    }
  }

  /**
   In every second of the covered span one batch fires: as many as the rate promises up to that second of the period.
   */
  lemma RateEverySecond(d: nat, rps: real, c: nat, fs: seq<ColdFunction>, s: nat)
    requires d >= 1 && rps >= 1.0 && c >= 1 && s < Rounds(d, c) * c && AllTake(d, rps, c, fs)
    ensures |Firings(fs, s)| == FirstOf(rps, s % c + 1) - FirstOf(rps, s % c) >= 1
  {
    var lo, hi := FirstOf(rps, s % c), FirstOf(rps, s % c + 1);
    BatchNonempty(rps, s % c);
    FirstMono(rps, s % c + 1, c);
    FunctionsAre(rps, c);
    FiringsAre(d, rps, c, fs, s, lo, hi);
  }

  lemma FiringsAre(d: nat, rps: real, c: nat, fs: seq<ColdFunction>, s: nat, lo: nat, hi: nat)
    requires d >= 1 && rps >= 1.0 && c >= 1 && s < Rounds(d, c) * c && AllTake(d, rps, c, fs)
    requires lo == FirstOf(rps, s % c) <= hi == FirstOf(rps, s % c + 1) <= |fs|
    ensures Firings(fs, s) == BatchOf(lo, hi - lo, s / c)
  {
    var batch := BatchOf(lo, hi - lo, s / c);
    forall p: (nat, nat)
      ensures p in Firings(fs, s) <==> p in batch
    {
      FiringAt(d, rps, c, fs, s, lo, hi, p.0, p.1);
    }
  }

  // ---- when generation fails ----

  lemma LateIff(d: nat, rps: real, c: nat, i: nat, k: nat)
    requires rps >= 1.0 && c >= 1
    ensures FiresLate(d, (c * SECOND) as real, Offset(rps, i), k) <==> k * c < 60 * d <= Batch(rps, i) + k * c
  {
    GapTimes(k, c);
    FireSecond(rps, c, i, k);
  }

  lemma NoneOverruns(d: nat, rps: real, c: nat, i: nat)
    requires d > 0 && rps >= 1.0 && c >= 1 && i < Functions(rps, c) && 60 * d % c == 0
    ensures !Overruns(d, (c * SECOND) as real, Offset(rps, i))
  {
    FunctionsAre(rps, c);
    BatchAtLeast(rps, i, c);
    RoundsFit(d, c);
    var gap, offset := (c * SECOND) as real, Offset(rps, i);
    forall k: nat
      ensures !FiresLate(d, gap, offset, k)
    {
      LateIff(d, rps, c, i, k);
      TimesOrder(k, Rounds(d, c), c);
      TimesOrder(Rounds(d, c), k, c);
    }
  }

  /** The last function fires for the last time after the end. */
  lemma LastOverruns(d: nat, rps: real, c: nat)
    requires d > 0 && rps >= 1.0 && c >= 1 && 60 * d % c != 0
    ensures Functions(rps, c) > 0 && Overruns(d, (c * SECOND) as real, Offset(rps, Functions(rps, c) - 1))
  {
    FunctionsAre(rps, c);
    BatchNonempty(rps, c - 1);
    var i, k := Functions(rps, c) - 1, Rounds(d, c) - 1;
    BatchIs(rps, i, c - 1);
    RoundsFit(d, c);
    LateIff(d, rps, c, i, k);
    assert FiresLate(d, (c * SECOND) as real, Offset(rps, i), k);
  }

  lemma NoFunctions(rps: real, c: int)
    requires rps > 0.0 && c <= 0
    ensures Functions(rps, c) <= 0
  {
    var x := rps * c as real;
    assert x <= 0.0;
  }

  /**
   From a rate of one on, generation fails exactly if there is a cooldown and it does not divide the length of the
   experiment, or there is no minute at all.
   */
  lemma ColdFitsIff(d: int, rps: real, c: int)
    requires rps >= 1.0
    ensures ColdPanics(d, rps, c) <==> c >= 1 && (d <= 0 || 60 * d % c != 0)
  {
    if c <= 0 {
      NoFunctions(rps, c);
    } else {
      FastGap(rps, c);
      if d <= 0 {
        assert Excluded(d, rps, c, 0);
      } else if 60 * d % c != 0 {
        LastOverruns(d, rps, c);
        assert Excluded(d, rps, c, Functions(rps, c) - 1);
      } else {
        forall i: nat | i < Functions(rps, c)
          ensures !Excluded(d, rps, c, i)
        {
          NoneOverruns(d, rps, c, i);
        }
      }
    }
  }

  /** One minute at one cold start per second with a cooldown of seven seconds already fails. */
  lemma SevenSecondsFail()
    ensures ColdPanics(1, 1.0, 7)
  {
    ColdFitsIff(1, 1.0, 7);
  }

  // ---- rates below one ----

  /** How often a function with this gap fires within the experiment. */
  function SlowRounds(d: int, gap: real): int
    requires gap > 0.0
  {
    Ceiling((d * MINUTE) as real / gap)
  }

  lemma SlowRoundsAre(d: int, gap: real, k: nat)
    requires gap > 0.0
    ensures k < SlowRounds(d, gap) <==> After(k, gap) < (d * MINUTE) as real
  {
    var end := (d * MINUTE) as real;
    var x := end / gap;
    assert x * gap == end;
    AtLeastCeiling(k, x);
    Times(k as real, x, gap);
  }

  lemma GapOf(n: real, rps: real)
    requires n > 0.0 && rps > 0.0
    ensures n / rps > 0.0 && 1_000_000.0 / (1.0 / (n / rps)) == 1_000_000.0 * (n / rps)
  {
    var x := n / rps;
    assert x * rps == n;
    assert x > 0.0;
    var y := 1.0 / x;
    assert y * x == 1.0;
  }

  /**
   The last function's last invocation falls after the experiment: it starts at the whole second of its number divided
   by the rate, and all functions take `turn` to have their turn.
   */
  predicate LastLate(d: int, rps: real, c: int)
    requires 0.0 < rps && Functions(rps, c) > 0
  {
    var n, end := Functions(rps, c), (d * 60_000_000) as real;
    var turn := 1_000_000.0 * (n as real / rps);
    ((n - 1) as real / rps).Floor as real * 1_000_000.0 + (Ceiling(end / turn) - 1) as real * turn >= end
  }

  lemma LastLateIs(d: int, rps: real, c: int)
    requires 0.0 < rps < 1.0 && Functions(rps, c) > 0
    ensures LastLate(d, rps, c)
       <==> Offset(rps, Functions(rps, c) - 1) as real + After(SlowRounds(d, Gap(rps, c)) - 1, Gap(rps, c))
            >= (d * MINUTE) as real
  {
    GapOf(Functions(rps, c) as real, rps);
  }

  lemma OffsetMono(rps: real, i: nat, j: nat)
    requires 0.0 < rps < 1.0 && i <= j
    ensures Offset(rps, i) <= Offset(rps, j)
  {
    var x, y := i as real / rps, j as real / rps;
    assert x * rps == i as real && y * rps == j as real;
    Times(y, x, rps);
  }

  lemma SlowRound(d: int, gap: real)
    requires gap > 0.0 && d > 0
    ensures SlowRounds(d, gap) >= 1 && After(SlowRounds(d, gap) - 1, gap) < (d * MINUTE) as real
  {
    assert After(0, gap) == 0.0;
    SlowRoundsAre(d, gap, 0);
    SlowRoundsAre(d, gap, SlowRounds(d, gap) - 1);
  }

  lemma SomeLate(d: int, rps: real, c: int, i: nat, k: nat)
    requires 0.0 < rps < 1.0 && Functions(rps, c) > 0 && d > 0 && i < Functions(rps, c)
    requires FiresLate(d, Gap(rps, c), Offset(rps, i), k)
    ensures LastLate(d, rps, c)
  {
    var gap := Gap(rps, c);
    SlowRoundsAre(d, gap, k);
    LastLateIs(d, rps, c);
    Later(k, SlowRounds(d, gap) - 1, gap);
    OffsetMono(rps, i, Functions(rps, c) - 1);
  }

  lemma SlowFunctions(rps: real, c: int)
    requires rps > 0.0 && c >= 1
    ensures Functions(rps, c) > 0
  {
    var x := rps * c as real;
    assert x > 0.0;
  }

  /**
   Below a rate of one, generation fails exactly if the last function's last invocation falls after the experiment.
   */
  lemma SlowFitsIff(d: int, rps: real, c: int)
    requires 0.0 < rps < 1.0
    ensures c >= 1 ==> Functions(rps, c) > 0
    ensures ColdPanics(d, rps, c) <==> c >= 1 && (d <= 0 || LastLate(d, rps, c))
  {
    if c <= 0 {
      NoFunctions(rps, c);
    } else {
      SlowFunctions(rps, c);
      var n, gap := Functions(rps, c), Gap(rps, c);
      if d <= 0 {
        assert Excluded(d, rps, c, 0);
      } else if LastLate(d, rps, c) {
        LastLateIs(d, rps, c);
        SlowRound(d, gap);
        assert FiresLate(d, gap, Offset(rps, n - 1), SlowRounds(d, gap) - 1);
        assert Excluded(d, rps, c, n - 1);
      } else {
        forall i: nat | i < n
          ensures !Excluded(d, rps, c, i)
        {
          if Excluded(d, rps, c, i) {
            var k: nat :| FiresLate(d, gap, Offset(rps, i), k);
            SomeLate(d, rps, c, i, k);
          }
        }
      }
    }
  }

  /** At every rate a function has at least the cooldown between two of its invocations. */
  lemma CooldownKept(rps: real, c: nat)
    requires rps > 0.0 && c >= 1
    ensures Functions(rps, c) > 0 && Gap(rps, c) >= (c * SECOND) as real
  {
    if rps >= 1.0 {
      FastGap(rps, c);
    } else {
      SlowFunctions(rps, c);
      var n := Functions(rps, c) as real;
      GapOf(n, rps);
      AtLeastCeiling(Functions(rps, c), rps * c as real);
      var x := n / rps;
      assert x * rps == n && c as real * rps == rps * c as real;
      Times(x, c as real, rps);
    }
  }

  // ---- whole rates ----

  lemma WholeFirst(rate: nat, q: nat)
    ensures FirstOf(rate as real, q) == q * rate
  {
    assert q as real * rate as real == (q * rate) as real;
  }

  /** What successful generation delivers: for a whole rate exactly that many invocations in every second. */
  lemma ColdPlan(d: nat, rate: nat, c: nat, rps: real, fs: seq<ColdFunction>)
    requires d >= 1 && rate >= 1 && c >= 1 && rps == rate as real && 60 * d % c == 0
    requires Delivered(d, rps, c, fs)
    ensures |fs| == rate * c
    ensures forall i :: 0 <= i < |fs| ==> |fs[i].iat| * c == 60 * d
    ensures forall i, k :: 0 <= i < |fs| && 0 < k < |fs[i].iat| ==> fs[i].iat[k] == (c * SECOND) as real
    ensures forall s: nat :: s < 60 * d ==> |Firings(fs, s)| == rate
  {
    FastGap(rps, c);
    RoundsFit(d, c);
    FunctionsAre(rps, c);
    WholeFirst(rate, c);
    forall i | 0 <= i < |fs|
      ensures |fs[i].iat| == Rounds(d, c)
    {
      ColdTimes(d, rps, c, i, fs[i]);
    }
    forall s: nat | s < 60 * d
      ensures |Firings(fs, s)| == rate
    {
      RateEverySecond(d, rps, c, fs, s);
      WholeFirst(rate, s % c);
      WholeFirst(rate, s % c + 1);
    }
  }
}
