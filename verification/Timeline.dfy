/** Sums of inter-arrival times, and histograms of the minutes in which invocations fall. */
module Timeline {
  import opened IntervalIndex

  datatype Granularity = Minute | Second

  /** When the k-th gap has passed: the sum of the first `k` inter-arrival times. */
  function Scheduled(iat: seq<real>, k: nat): real
    requires k <= |iat|
  {
    if k == 0 then 0.0 else Scheduled(iat, k - 1) + iat[k - 1]
  }

  function Duration(iat: seq<real>): real
  {
    Scheduled(iat, |iat|)
  }

  lemma {:induction false} ScheduledConcat(a: seq<real>, b: seq<real>, k: nat)
    requires k <= |a| + |b|
    ensures Scheduled(a + b, k) == if k <= |a| then Scheduled(a, k) else Duration(a) + Scheduled(b, k - |a|)
  {
    if k > 0 {
      ScheduledConcat(a, b, k - 1);
    }
  }

  /** Two lists that agree up to `k` have the same schedule up to `k`. */
  lemma {:induction false} ScheduledAgree(a: seq<real>, b: seq<real>, k: nat)
    requires k <= |a| && k <= |b| && forall i :: 0 <= i < k ==> a[i] == b[i]
    ensures Scheduled(a, k) == Scheduled(b, k)
  {
    if k > 0 {
      ScheduledAgree(a, b, k - 1);
    }
  }

  ghost predicate Positive(iat: seq<real>)
  {
    forall i :: 0 <= i < |iat| ==> iat[i] > 0.0
  }

  lemma {:induction false} ScheduledMono(iat: seq<real>, j: nat, k: nat)
    requires j <= k <= |iat| && forall i :: j <= i < k ==> iat[i] >= 0.0
    ensures Scheduled(iat, j) <= Scheduled(iat, k)
    decreases k
  {
    if j < k {
      ScheduledMono(iat, j, k - 1);
    }
  }

  /** Conversion of a float to an integer drops the fraction. */
  function Truncate(x: real): int
  {
    if x >= 0.0 then x.Floor else -((-x).Floor)
  }

  /** Integer division that drops the fraction. */
  function Quotient(a: int, b: int): int
    requires b > 0
  {
    if a >= 0 then a / b else -(-a / b)
  }

  // ---- histograms ----

  /** How many of the first `k` invocations fall in minute `m`. */
  function Count(minutes: seq<int>, k: nat, m: int): nat
    requires k <= |minutes|
  {
    if k == 0 then 0 else Count(minutes, k - 1, m) + if minutes[k - 1] == m then 1 else 0
  }

  ghost predicate Histogram(minutes: seq<int>, pmc: seq<nat>)
  {
    && (forall k :: 0 <= k < |minutes| ==> 0 <= minutes[k] < |pmc|)
    && (forall m :: 0 <= m < |pmc| ==> pmc[m] == Count(minutes, |minutes|, m))
  }

  function Before(minutes: seq<int>, k: nat, m: nat): nat
    requires k <= |minutes|
  {
    if k == 0 then 0 else Before(minutes, k - 1, m) + if minutes[k - 1] < m then 1 else 0
  }

  lemma {:induction false} BeforeNext(minutes: seq<int>, k: nat, m: nat)
    requires k <= |minutes|
    ensures Before(minutes, k, m + 1) == Before(minutes, k, m) + Count(minutes, k, m)
    ensures Before(minutes, k, m) <= k
  {
    if k > 0 {
      BeforeNext(minutes, k - 1, m);
    }
  }

  lemma {:induction false} NoneBefore(minutes: seq<int>, k: nat)
    requires k <= |minutes| && forall i :: 0 <= i < k ==> minutes[i] >= 0
    ensures Before(minutes, k, 0) == 0
  {
    if k > 0 {
      NoneBefore(minutes, k - 1);
    }
  }

  lemma {:induction false} PrefixIsBefore(minutes: seq<int>, pmc: seq<nat>, m: nat)
    requires Histogram(minutes, pmc) && m <= |pmc|
    ensures Prefix(pmc, m) == Before(minutes, |minutes|, m)
  {
    if m == 0 {
      NoneBefore(minutes, |minutes|);
    } else {
      PrefixIsBefore(minutes, pmc, m - 1);
      BeforeNext(minutes, |minutes|, m - 1);
    }
  }

  ghost predicate Nondecreasing(minutes: seq<int>)
  {
    forall i, j :: 0 <= i <= j < |minutes| ==> minutes[i] <= minutes[j]
  }

  /** In an ordered list the invocations before minute `m` are exactly the first ones. */
  lemma {:induction false} BeforeIsCut(minutes: seq<int>, k: nat, m: nat, v: nat)
    requires Nondecreasing(minutes) && v < k <= |minutes|
    ensures minutes[v] < m <==> v < Before(minutes, k, m)
    decreases k
  {
    BeforeNext(minutes, k - 1, m);
    if v < k - 1 {
      BeforeIsCut(minutes, k - 1, m, v);
    } else if k > 1 && minutes[v] < m {
      BeforeIsCut(minutes, k - 1, m, k - 2);
    }
  }

  /** Every number is before a minute that is later than all. */
  lemma {:induction false} BeforeAll(minutes: seq<int>, k: nat, m: nat)
    requires k <= |minutes| && forall i :: 0 <= i < k ==> minutes[i] < m
    ensures Before(minutes, k, m) == k
  {
    if k > 0 {
      BeforeAll(minutes, k - 1, m);
    }
  }

  /** The minute that the interval search recovers from a histogram is the minute the invocation was counted in. */
  lemma HistogramRecovers(minutes: seq<int>, pmc: seq<nat>, k: nat)
    requires Nondecreasing(minutes) && Histogram(minutes, pmc)
    ensures Total(pmc) == |minutes|
    ensures k < |minutes| ==> InMinute(pmc, minutes[k], k)
  {
    var n := |minutes|;
    PrefixIsBefore(minutes, pmc, |pmc|);
    BeforeAll(minutes, n, |pmc|);
    if k < n {
      var m := minutes[k];
      PrefixIsBefore(minutes, pmc, m);
      PrefixIsBefore(minutes, pmc, m + 1);
      BeforeIsCut(minutes, n, m, k);
      BeforeIsCut(minutes, n, m + 1, k);
    }
  }

  // ---- minutes of a schedule ----

  const MINUTE: int := 60_000_000

  /** The minute of a time in microseconds. */
  function MinuteAt(t: real): int
  {
    Quotient(Truncate(t), MINUTE)
  }

  lemma MinuteAtMono(t: real, u: real)
    requires t <= u
    ensures MinuteAt(t) <= MinuteAt(u) && (t >= 0.0 ==> MinuteAt(t) >= 0)
  {
    assert Truncate(t) <= Truncate(u);
  }

  ghost predicate Nonnegative(iat: seq<real>)
  {
    forall i :: 0 <= i < |iat| ==> iat[i] >= 0.0
  }

  /** The minute in which invocation `k` fires. */
  function MinuteOf(iat: seq<real>, k: nat): int
    requires k < |iat|
  {
    MinuteAt(Scheduled(iat, k + 1))
  }

  function Minutes(iat: seq<real>): (r: seq<int>)
    ensures |r| == |iat| && forall k :: 0 <= k < |iat| ==> r[k] == MinuteOf(iat, k)
  {
    seq(|iat|, k requires 0 <= k < |iat| => MinuteOf(iat, k))
  }

  lemma MinutesNondecreasing(iat: seq<real>)
    requires Nonnegative(iat)
    ensures Nondecreasing(Minutes(iat))
  {
    forall i, j | 0 <= i <= j < |iat|
      ensures MinuteOf(iat, i) <= MinuteOf(iat, j)
    {
      ScheduledMono(iat, i + 1, j + 1);
      MinuteAtMono(Scheduled(iat, i + 1), Scheduled(iat, j + 1));
    }
  }

  /** The minute that the driver recovers for invocation `k` from the counts is the minute in which `k` fires. */
  lemma CountsRecoverMinutes(iat: seq<real>, pmc: seq<nat>, k: nat)
    requires Nonnegative(iat) && Histogram(Minutes(iat), pmc) && k < |iat|
    ensures Total(pmc) == |iat| && InMinute(pmc, MinuteOf(iat, k), k)
  {
    MinutesNondecreasing(iat);
    HistogramRecovers(Minutes(iat), pmc, k);
  }
}
