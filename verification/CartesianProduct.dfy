/**
 The enumerator of a Cartesian product: a counter with one digit per limit, advanced after
 each call, whose value is copied into one buffer that every call hands out again.
 */
module CartesianProduct {
  import opened Arithmetic

  /** The number of tuples: every digit runs from 0 to its limit. */
  function Product(limits: seq<nat>): (p: nat)
    ensures p >= 1
  {
    if limits == [] then 1
    else
      var front, last := Product(limits[..|limits| - 1]), limits[|limits| - 1] + 1;
      TimesOrder(1, front, last);
      front * last
  }

  ghost predicate InLimits(limits: seq<nat>, t: seq<nat>)
  {
    |t| == |limits| && forall i :: 0 <= i < |t| ==> t[i] <= limits[i]
  }

  /** The k-th tuple, the last digit running fastest. */
  function Tuple(limits: seq<nat>, k: nat): (t: seq<nat>)
    ensures |t| == |limits|
  {
    if limits == [] then []
    else
      var n := |limits| - 1;
      Tuple(limits[..n], k / (limits[n] + 1)) + [k % (limits[n] + 1)]
  }

  /** The number of a tuple. */
  function Rank(limits: seq<nat>, t: seq<nat>): nat
    requires |t| == |limits|
  {
    if limits == [] then 0
    else
      var n := |limits| - 1;
      Rank(limits[..n], t[..n]) * (limits[n] + 1) + t[n]
  }

  /** Lexicographic order. */
  ghost predicate Before(a: seq<nat>, b: seq<nat>)
  {
    |a| == |b| && exists i :: 0 <= i < |a| && a[..i] == b[..i] && a[i] < b[i]
  }

  /** A quotient is below a bound exactly if the number is below the multiple. */
  lemma QuotientBelow(k: nat, w: nat, p: nat)
    requires w >= 1
    ensures k / w < p <==> k < p * w
  {
    QuotientIs(k, w, k / w, k % w);
    TimesOrder(k / w, p, w);
    TimesOrder(p, k / w, w);
  }

  /** Every number below the product is the number of its tuple. */
  lemma {:induction false} RankOfTuple(limits: seq<nat>, k: nat)
    requires k < Product(limits)
    ensures InLimits(limits, Tuple(limits, k)) && Rank(limits, Tuple(limits, k)) == k
  {
    if limits != [] {
      var n := |limits| - 1;
      var w, t := limits[n] + 1, Tuple(limits, k);
      QuotientBelow(k, w, Product(limits[..n]));
      RankOfTuple(limits[..n], k / w);
      assert t[..n] == Tuple(limits[..n], k / w);
      QuotientIs(k, w, k / w, k % w);
    }
  }

  /** Every tuple within the limits is the one with its number, so it occurs exactly once. */
  lemma {:induction false} TupleOfRank(limits: seq<nat>, t: seq<nat>)
    requires InLimits(limits, t)
    ensures Rank(limits, t) < Product(limits) && Tuple(limits, Rank(limits, t)) == t
  {
    if limits != [] {
      var n := |limits| - 1;
      var w, k := limits[n] + 1, Rank(limits, t);
      TupleOfRank(limits[..n], t[..n]);
      QuotientIs(k, w, Rank(limits[..n], t[..n]), t[n]);
      QuotientBelow(k, w, Product(limits[..n]));
      assert t == t[..n] + [t[n]];
    }
  }

  lemma BeforeInFront(a: seq<nat>, b: seq<nat>, x: nat, y: nat)
    requires Before(a, b)
    ensures Before(a + [x], b + [y])
  {
    var i :| 0 <= i < |a| && a[..i] == b[..i] && a[i] < b[i];
    assert (a + [x])[..i] == a[..i] && (b + [y])[..i] == b[..i];
    assert (a + [x])[i] < (b + [y])[i];
  }

  lemma BeforeInLast(a: seq<nat>, x: nat, y: nat)
    requires x < y
    ensures Before(a + [x], a + [y])
  {
    var i := |a|;
    assert (a + [x])[..i] == (a + [y])[..i] && (a + [x])[i] < (a + [y])[i];
  }

  /** Later tuples are larger. */
  lemma {:induction false} TuplesOrdered(limits: seq<nat>, j: nat, k: nat)
    requires j < k < Product(limits)
    ensures Before(Tuple(limits, j), Tuple(limits, k))
  {
    if limits != [] {
      var n := |limits| - 1;
      var w := limits[n] + 1;
      QuotientIs(j, w, j / w, j % w);
      QuotientIs(k, w, k / w, k % w);
      TimesOrder(k / w, j / w, w);
      QuotientBelow(k, w, Product(limits[..n]));
      var fa, fb := Tuple(limits[..n], j / w), Tuple(limits[..n], k / w);
      if j / w < k / w {
        TuplesOrdered(limits[..n], j / w, k / w);
        BeforeInFront(fa, fb, j % w, k % w);
      } else {
        BeforeInLast(fa, j % w, k % w);
      }
    }
  }

  // ---- one step of the counter ----

  function Zeros(n: nat): seq<nat>
  {
    seq(n, _ => 0)
  }

  lemma {:induction false} FirstTuple(limits: seq<nat>)
    ensures Tuple(limits, 0) == Zeros(|limits|)
  {
    if limits != [] {
      FirstTuple(limits[..|limits| - 1]);
    }
  }

  /** Counting up from a tuple whose last digit is below its limit changes that digit only. */
  lemma NoCarry(limits: seq<nat>, k: nat)
    requires limits != [] && k < Product(limits) && Tuple(limits, k)[|limits| - 1] < limits[|limits| - 1]
    ensures k + 1 < Product(limits)
    ensures Tuple(limits, k + 1) == Tuple(limits, k)[..|limits| - 1] + [Tuple(limits, k)[|limits| - 1] + 1]
  {
    var n := |limits| - 1;
    var w := limits[n] + 1;
    QuotientIs(k, w, k / w, k % w);
    QuotientIs(k + 1, w, k / w, k % w + 1);
    QuotientBelow(k, w, Product(limits[..n]));
    QuotientBelow(k + 1, w, Product(limits[..n]));
    assert Tuple(limits, k)[..n] == Tuple(limits[..n], k / w);
  }

  /** Otherwise the last digit becomes zero and the digits before it count up. */
  lemma Carry(limits: seq<nat>, k: nat)
    requires limits != [] && k < Product(limits) && Tuple(limits, k)[|limits| - 1] >= limits[|limits| - 1]
    ensures var n := |limits| - 1; var q := k / (limits[n] + 1);
      && q < Product(limits[..n]) && Tuple(limits, k)[..n] == Tuple(limits[..n], q)
      && (k + 1 < Product(limits) <==> q + 1 < Product(limits[..n]))
      && Tuple(limits, k + 1) == Tuple(limits[..n], q + 1) + [0]
  {
    var n := |limits| - 1;
    var w := limits[n] + 1;
    QuotientIs(k, w, k / w, k % w);
    assert (k / w + 1) * w == k / w * w + w;
    QuotientIs(k + 1, w, k / w + 1, 0);
    QuotientBelow(k, w, Product(limits[..n]));
    QuotientBelow(k + 1, w, Product(limits[..n]));
    assert Tuple(limits, k)[..n] == Tuple(limits[..n], k / w);
  }

  /**
   In the middle of counting up from the k-th tuple: the digits after `i` have been set to zero, and the ones up to `i`,
   still those of the q-th tuple of their limits, have to count up.
   */
  ghost predicate Carrying(limits: seq<nat>, k: nat, i: int, q: nat, idx: seq<nat>)
  {
    var n := |limits|;
    && |idx| == n > 0 && -1 <= i < n && idx[i + 1..] == Zeros(n - 1 - i)
    && if i < 0 then k + 1 >= Product(limits)
       else
         && q < Product(limits[..i + 1]) && idx[..i + 1] == Tuple(limits[..i + 1], q)
         && Tuple(limits, k + 1) == Tuple(limits[..i + 1], q + 1) + Zeros(n - 1 - i)
         && (k + 1 < Product(limits) <==> q + 1 < Product(limits[..i + 1]))
  }

  lemma CarryStart(limits: seq<nat>, k: nat)
    requires limits != [] && k < Product(limits)
    ensures Carrying(limits, k, |limits| - 1, k, Tuple(limits, k))
  {
    var n := |limits|;
    assert limits[..n] == limits && Tuple(limits, k)[..n] == Tuple(limits, k);
    assert Tuple(limits, k + 1) + Zeros(0) == Tuple(limits, k + 1);
  }

  lemma CarryNext(limits: seq<nat>, k: nat, i: int, q: nat, idx: seq<nat>)
    requires Carrying(limits, k, i, q, idx) && i >= 0 && idx[i] >= limits[i]
    ensures Carrying(limits, k, i - 1, q / (limits[i] + 1), idx[i := 0])
  {
    var n, low, r := |limits|, limits[..i + 1], idx[i := 0];
    assert idx[i] == idx[..i + 1][i] && low[..i] == limits[..i];
    Carry(low, q);
    assert r[i..] == Zeros(n - i);
    if i > 0 {
      assert r[..i] == idx[..i + 1][..i];
      assert Tuple(limits[..i], q / (limits[i] + 1) + 1) + [0] + Zeros(n - 1 - i)
          == Tuple(limits[..i], q / (limits[i] + 1) + 1) + Zeros(n - i);
    } else {
      assert Product(limits[..0]) == 1;
    }
  }

  lemma CarryEnd(limits: seq<nat>, k: nat, i: int, q: nat, idx: seq<nat>)
    requires Carrying(limits, k, i, q, idx) && i >= 0 && idx[i] < limits[i]
    ensures k + 1 < Product(limits) && idx[i := idx[i] + 1] == Tuple(limits, k + 1)
  {
    var low := limits[..i + 1];
    assert idx[i] == idx[..i + 1][i];
    NoCarry(low, q);
    assert idx == idx[..i + 1] + idx[i + 1..];
    assert idx[i := idx[i] + 1] == idx[..i + 1][..i] + [idx[i] + 1] + idx[i + 1..];
  }

  /** The loop that counts up; `over` if there is no next tuple. */
  method CountUp(limits: seq<nat>, indices: array<nat>, ghost k: nat) returns (over: bool)
    requires indices[..] == Tuple(limits, k) && (limits == [] || k < Product(limits))
    modifies indices
    ensures over <==> limits != [] && k + 1 >= Product(limits)
    ensures !over ==> indices[..] == Tuple(limits, k + 1)
  {
    over := false;
    if limits == [] {
      return;
    }
    CarryStart(limits, k);
    over := CarryLoop(limits, indices, k);
  }

  method CarryLoop(limits: seq<nat>, indices: array<nat>, ghost k: nat) returns (over: bool)
    requires Carrying(limits, k, |limits| - 1, k, indices[..])
    modifies indices
    ensures over <==> k + 1 >= Product(limits)
    ensures !over ==> indices[..] == Tuple(limits, k + 1)
  {
    over := false;
    var i := |limits| - 1;
    ghost var q := k;
    while i >= 0
      invariant Carrying(limits, k, i, q, indices[..])
      invariant over <==> i == -1
    {
      var stop, carried := CountDigit(limits, indices, i, k, q);
      if stop {
        return;
      }
      if i == 0 {
        over := true;
      }
      q, i := carried, i - 1;
    }
  }

  /** One digit: it counts up, or goes back to zero and hands the carry on. */
  method CountDigit(limits: seq<nat>, indices: array<nat>, i: nat, ghost k: nat, ghost q: nat)
    returns (stop: bool, ghost carried: nat)
    requires Carrying(limits, k, i, q, indices[..]) && i < indices.Length
    modifies indices
    ensures stop ==> k + 1 < Product(limits) && indices[..] == Tuple(limits, k + 1)
    ensures !stop ==> Carrying(limits, k, i - 1, carried, indices[..])
  {
    ghost var idx := indices[..];
    carried := q / (limits[i] + 1);
    indices[i] := indices[i] + 1;
    stop := indices[i] <= limits[i];
    if stop {
      CarryEnd(limits, k, i, q, idx);
      assert indices[..] == idx[i := idx[i] + 1];
    } else {
      indices[i] := 0;
      CarryNext(limits, k, i, q, idx);
      assert indices[..] == idx[i := 0];
    }
  }

  /** The closure that NextCProduct returns, with the variables it captures. */
  class Enumerator {
    const limits: seq<nat>
    const indices: array<nat>
    const permutations: array<nat>
    var done: bool
    ghost var calls: nat

    ghost predicate Valid()
      reads this, indices
    {
      && indices != permutations && indices.Length == permutations.Length == |limits|
      && (done <==> limits != [] && calls >= Product(limits))
      && (!done ==> indices[..] == Tuple(limits, calls))
    }

    constructor (limits: seq<nat>)
      ensures Valid() && calls == 0 && !done && this.limits == limits
      ensures fresh(indices) && fresh(permutations)
    {
      this.limits := limits;
      permutations := new nat[|limits|](_ => 0);
      indices := new nat[|limits|](_ => 0);
      done, calls := false, 0;
      new;
      FirstTuple(limits);
    }

    /**
     One call: the tuple with the number of the call, always in the same buffer, and nil once all have been handed out.
     Without limits there is no digit whose overflow could end it: the empty tuple is handed out forever.
     */
    method Next() returns (r: array?<nat>)
      requires Valid()
      modifies this, indices, permutations
      ensures Valid() && calls == old(calls) + 1
      ensures r == null <==> limits != [] && old(calls) >= Product(limits)
      ensures r != null ==> r == permutations && r[..] == Tuple(limits, old(calls))
      ensures r == null ==> permutations[..] == old(permutations[..])
    {
      calls := calls + 1;
      if done {
        return null;
      }
      forall i | 0 <= i < |limits| {
        permutations[i] := indices[i];
      }
      var over := CountUp(limits, indices, old(calls));
      if over {
        done := true;
      }
      r := permutations;
    }
  }

  /**
   unpackGridSweep, one result per experiment: the indices into the sweep options, whose numbers of values are given.
   All combinations are made, each once and in order; without sweep options there is no experiment at all.
   */
  method UnpackGridSweep(lengths: seq<nat>) returns (experiments: seq<seq<nat>>)
    requires forall i :: 0 <= i < |lengths| ==> lengths[i] >= 1
    ensures lengths == [] ==> experiments == []
    ensures lengths != [] ==>
      var limits := seq(|lengths|, i requires 0 <= i < |lengths| => lengths[i] - 1);
      |experiments| == Product(limits) && forall k :: 0 <= k < |experiments| ==> experiments[k] == Tuple(limits, k)
  {
    var limits: seq<nat> := seq(|lengths|, i requires 0 <= i < |lengths| => lengths[i] - 1);
    experiments := [];
    var np := new Enumerator(limits);
    var indices := np.Next();
    while indices != null && indices.Length > 0
      invariant np.Valid() && np.limits == limits && fresh(np) && fresh(np.indices) && fresh(np.permutations)
      invariant np.calls == |experiments| + 1
      invariant indices == null <==> limits != [] && |experiments| >= Product(limits)
      invariant indices != null ==> indices == np.permutations && indices[..] == Tuple(limits, |experiments|)
      invariant limits != [] ==> |experiments| <= Product(limits)
      invariant limits == [] ==> experiments == []
      invariant forall k :: 0 <= k < |experiments| ==> experiments[k] == Tuple(limits, k)
      decreases Product(limits) - |experiments|
    {
      experiments := experiments + [indices[..]];
      indices := np.Next();
    }
  }
}
