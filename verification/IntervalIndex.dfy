/**
 The interval table that recovers the minute of an invocation from its number.  A table
 of prefix sums is searched by bisection; the meaning is the plain one: invocation `v` belongs
 to the minute `m` whose invocations are numbered from Prefix(m) up to Prefix(m + 1).
 */
module IntervalIndex {
  import opened SeqSums

  datatype Interval = Interval(start: int, end: int, value: int)

  /** The number of invocations before minute `m`. */
  function Prefix(pmc: seq<nat>, m: nat): nat
    requires m <= |pmc|
  {
    if m == 0 then 0 else Prefix(pmc, m - 1) + pmc[m - 1]
  }

  function Total(pmc: seq<nat>): nat
  {
    Prefix(pmc, |pmc|)
  }

  /** Invocation `v` belongs to minute `m`. */
  predicate InMinute(pmc: seq<nat>, m: int, v: int)
  {
    0 <= m < |pmc| && Prefix(pmc, m) <= v < Prefix(pmc, m + 1)
  }

  lemma {:induction false} PrefixMono(pmc: seq<nat>, m: nat, n: nat)
    requires m <= n <= |pmc|
    ensures Prefix(pmc, m) <= Prefix(pmc, n)
    decreases n
  {
    if m < n {
      PrefixMono(pmc, m, n - 1);
    }
  }

  lemma {:induction false} PrefixOfPart(pmc: seq<nat>, more: seq<nat>, m: nat)
    requires m <= |pmc|
    ensures Prefix(pmc + more, m) == Prefix(pmc, m)
  {
    if m > 0 {
      PrefixOfPart(pmc, more, m - 1);
    }
  }

  /** No invocation belongs to two minutes; later invocations belong to later minutes. */
  lemma MinutesOrdered(pmc: seq<nat>, m: int, n: int, v: int, w: int)
    requires InMinute(pmc, m, v) && InMinute(pmc, n, w) && v <= w
    ensures m <= n && (v == w ==> m == n)
  {
    if n < m {
      PrefixMono(pmc, n + 1, m);
    } else if m < n {
      PrefixMono(pmc, m + 1, n);
    }
  }

  /** Exactly the numbers below the total belong to some minute. */
  lemma {:induction false} MinuteExists(pmc: seq<nat>, v: nat)
    requires v < Total(pmc)
    ensures exists m :: InMinute(pmc, m, v)
  {
    var m: nat := |pmc|;
    while Prefix(pmc, m) > v
      invariant m <= |pmc| && (m < |pmc| ==> v < Prefix(pmc, m + 1))
      invariant v < Total(pmc)
      decreases m
    {
      m := m - 1;
    }
    assert InMinute(pmc, m, v);
  }

  /** An entry of the table: all invocations of one minute that has some. */
  ghost predicate Entry(pmc: seq<nat>, x: Interval)
  {
    0 <= x.value < |pmc| && pmc[x.value] > 0 && x.start == Prefix(pmc, x.value) && x.end == Prefix(pmc, x.value + 1) - 1
  }

  /** The entries are consecutive, in order of minutes, and cover exactly the numbers below `sum`. */
  ghost predicate Tiles(pmc: seq<nat>, table: seq<Interval>, sum: nat)
  {
    && (forall k :: 0 <= k < |table| ==> Entry(pmc, table[k]))
    && (forall k :: 0 < k < |table| ==> table[k].start == table[k - 1].end + 1 && table[k - 1].value < table[k].value)
    && (if table == [] then sum == 0 else table[0].start == 0 && table[|table| - 1].end == sum - 1)
  }

  /** The entries are pairwise disjoint and sorted. */
  lemma {:induction false} TableSorted(pmc: seq<nat>, table: seq<Interval>, sum: nat, j: nat, k: nat)
    requires Tiles(pmc, table, sum) && j < k < |table|
    ensures table[j].start <= table[j].end < table[k].start <= table[k].end
    ensures table[j].value < table[k].value
    decreases k
  {
    assert Entry(pmc, table[k]) && Entry(pmc, table[k - 1]);
    if j < k - 1 {
      TableSorted(pmc, table, sum, j, k - 1);
    }
  }

  /** constructIntervals */
  method ConstructIntervals(pmc: seq<nat>) returns (result: seq<Interval>)
    ensures Tiles(pmc, result, Total(pmc))
  {
    result := [];
    var sum := 0;
    for i := 0 to |pmc|
      invariant sum == Prefix(pmc, i) && Tiles(pmc, result, sum)
      invariant forall k :: 0 <= k < |result| ==> result[k].value < i
    {
      if pmc[i] == 0 {
        continue;
      }
      var startIndex, endIndex := sum, sum + pmc[i];
      if startIndex != endIndex {
        result := result + [Interval(startIndex, endIndex - 1, i)];
      }
      sum := endIndex;
    }
  }

  /** SearchInterval: the entry of the minute `val` belongs to; None exactly if there is no such minute. */
  method SearchInterval(table: seq<Interval>, val: int, ghost pmc: seq<nat>) returns (r: Option<Interval>)
    requires Tiles(pmc, table, Total(pmc))
    ensures r.Some? <==> 0 <= val < Total(pmc)
    ensures r.Some? ==> Entry(pmc, r.value) && InMinute(pmc, r.value.value, val)
    ensures forall m :: InMinute(pmc, m, val) ==> r.Some? && r.value.value == m
  {
    var low, high := 0, |table| - 1;
    while low <= high
      invariant 0 <= low <= |table| && -1 <= high < |table|
      invariant forall k :: 0 <= k < low ==> table[k].end < val
      invariant forall k :: high < k < |table| ==> val < table[k].start
    {
      var mid := (low + high) / 2;
      assert Entry(pmc, table[mid]);
      if table[mid].start <= val <= table[mid].end {
        r := Some(table[mid]);
        forall m | InMinute(pmc, m, val)
          ensures r.value.value == m
        {
          MinutesOrdered(pmc, m, r.value.value, val, val);
        }
        PrefixMono(pmc, r.value.value + 1, |pmc|);
        return;
      } else if val < table[mid].start {
        forall k | mid < k < |table|
          ensures val < table[k].start
        {
          TableSorted(pmc, table, Total(pmc), mid, k);
        }
        high := mid - 1;
      } else {
        forall k | 0 <= k < mid
          ensures table[k].end < val
        {
          TableSorted(pmc, table, Total(pmc), k, mid);
        }
        low := mid + 1;
      }
    }
    r := None;
    Outside(pmc, table, val, low);
    forall m | InMinute(pmc, m, val)
      ensures false
    {
      PrefixMono(pmc, m + 1, |pmc|);
    }
  }

  lemma Outside(pmc: seq<nat>, table: seq<Interval>, val: int, low: nat)
    requires Tiles(pmc, table, Total(pmc)) && low <= |table|
    requires 0 < low ==> table[low - 1].end < val
    requires low < |table| ==> val < table[low].start
    ensures !(0 <= val < Total(pmc))
  {
  }
}
