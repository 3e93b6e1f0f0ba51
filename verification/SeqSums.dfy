/** Sums of a natural-number weight over the elements of a sequence. */
module SeqSums {

  datatype Option<+T> = None | Some(value: T)

  lemma OneLess(a: nat, b: nat)
    requires a > 0
    ensures a * b == (a - 1) * b + b
  {
  }

  /** `k` times `m`, as repeated addition. */
  ghost function Repeated(k: nat, m: nat): nat
  {
    if k == 0 then 0 else Repeated(k - 1, m) + m
  }

  method SomeElement<T>(s: set<T>) returns (x: T)
    requires s != {}
    ensures x in s
  {
    x :| x in s;
  }

  function Zero<T>(x: T): nat { 0 }

  /** The total weight of the elements of `s`. */
  function Sum<T>(s: seq<T>, f: T -> nat): nat
  {
    if s == [] then 0 else Sum(s[..|s| - 1], f) + f(s[|s| - 1])
  }

  lemma SumAppend<T>(s: seq<T>, x: T, f: T -> nat)
    ensures Sum(s + [x], f) == Sum(s, f) + f(x)
  {
    assert (s + [x])[..|s|] == s;
  }

  lemma {:induction false} SumConcat<T>(s: seq<T>, t: seq<T>, f: T -> nat)
    ensures Sum(s + t, f) == Sum(s, f) + Sum(t, f)
  {
    if t == [] {
      assert s + t == s;
    } else {
      var n := |t| - 1;
      SumConcat(s, t[..n], f);
      SumAppend(s + t[..n], t[n], f);
      assert s + t == (s + t[..n]) + [t[n]];
    }
  }

  lemma {:induction false} SumUpdate<T>(s: seq<T>, i: nat, x: T, f: T -> nat)
    requires i < |s|
    ensures Sum(s[i := x], f) + f(s[i]) == Sum(s, f) + f(x)
  {
    var n := |s| - 1;
    if i == n {
      assert s[i := x][..n] == s[..n];
    } else {
      SumUpdate(s[..n], i, x, f);
      assert s[i := x][..n] == s[..n][i := x];
    }
  }

  lemma {:induction false} SumAtLeast<T>(s: seq<T>, i: nat, f: T -> nat)
    requires i < |s|
    ensures f(s[i]) <= Sum(s, f)
  {
    if i < |s| - 1 {
      SumAtLeast(s[..|s| - 1], i, f);
    }
  }

  lemma {:induction false} SumZero<T>(s: seq<T>, f: T -> nat)
    ensures Sum(s, f) == 0 <==> forall x :: x in s ==> f(x) == 0
  {
    if s != [] {
      var n := |s| - 1;
      SumZero(s[..n], f);
      assert s == s[..n] + [s[n]];
    }
  }

  /** If one weight exceeds another by at most `c` everywhere, so do the sums, by `c` per element. */
  lemma {:induction false} SumCompare<T>(s: seq<T>, f: T -> nat, g: T -> nat, c: nat)
    requires forall x :: x in s ==> g(x) <= f(x) + c
    ensures Sum(s, g) <= Sum(s, f) + c * |s|
  {
    if s != [] {
      SumCompare(s[..|s| - 1], f, g, c);
      assert s[|s| - 1] in s;
    }
  }

  lemma {:induction false} SumEqual<T>(s: seq<T>, f: T -> nat, g: T -> nat)
    requires forall x :: x in s ==> g(x) == f(x)
    ensures Sum(s, g) == Sum(s, f)
  {
    if s != [] {
      SumEqual(s[..|s| - 1], f, g);
      assert s[|s| - 1] in s;
    }
  }

  lemma {:induction false} SumMiddle<T>(a: seq<T>, x: T, b: seq<T>, f: T -> nat)
    ensures Sum(a + [x] + b, f) == Sum(a + b, f) + f(x)
  {
    SumConcat(a + [x], b, f);
    SumAppend(a, x, f);
    SumConcat(a, b, f);
  }

  lemma {:induction false} SumTakeOut<T>(s: seq<T>, j: nat, f: T -> nat)
    requires j < |s|
    ensures Sum(s, f) == Sum(s[..j] + s[j + 1..], f) + f(s[j])
  {
    SumMiddle(s[..j], s[j], s[j + 1..], f);
    assert s == s[..j] + [s[j]] + s[j + 1..];
  }

  lemma TakeOut<T>(s: seq<T>, j: nat)
    requires j < |s|
    ensures multiset(s[..j] + s[j + 1..]) == multiset(s) - multiset{s[j]}
    ensures multiset(s) == multiset(s[..j] + s[j + 1..]) + multiset{s[j]}
  {
    assert s == s[..j] + [s[j]] + s[j + 1..];
  }

  lemma FindLast<T>(a: seq<T>, b: seq<T>) returns (j: nat)
    requires multiset(a) == multiset(b) && a != []
    ensures j < |b| && b[j] == a[|a| - 1]
  {
    assert a[|a| - 1] in multiset(b);
    j :| 0 <= j < |b| && b[j] == a[|a| - 1];
  }

  lemma DropBoth<T>(a: seq<T>, b: seq<T>, j: nat)
    requires multiset(a) == multiset(b) && a != [] && j < |b| && b[j] == a[|a| - 1]
    ensures multiset(a[..|a| - 1]) == multiset(b[..j] + b[j + 1..])
  {
    var n := |a| - 1;
    TakeOut(a, n);
    TakeOut(b, j);
    assert a[..n] + a[n + 1..] == a[..n];
  }

  /** A sum does not depend on the order of the elements. */
  lemma {:induction false} SumPermutes<T>(a: seq<T>, b: seq<T>, f: T -> nat)
    requires multiset(a) == multiset(b)
    ensures Sum(a, f) == Sum(b, f)
    decreases |a|
  {
    if a == [] {
      assert |multiset(b)| == 0;
    } else {
      var j := FindLast(a, b);
      DropBoth(a, b, j);
      SumPermutes(a[..|a| - 1], b[..j] + b[j + 1..], f);
      SumTakeOut(b, j, f);
    }
  }

  lemma {:induction false} TwoOnes<T>(s: seq<T>, f: T -> nat)
    requires forall x :: f(x) <= 1
    ensures Sum(s, f) > 1 <==> exists i, j :: 0 <= i < j < |s| && f(s[i]) == 1 && f(s[j]) == 1
  {
    if s != [] {
      var n := |s| - 1;
      TwoOnes(s[..n], f);
      SumZero(s[..n], f);
      if f(s[n]) == 1 && Sum(s[..n], f) > 0 {
        var x :| x in s[..n] && f(x) != 0;
        var i :| 0 <= i < n && s[i] == x;
        assert f(s[i]) == 1 && f(s[n]) == 1;
      }
      if i, j :| 0 <= i < j < |s| && f(s[i]) == 1 && f(s[j]) == 1 {
        assert s[i] in s[..n];
        if j < n {
          assert s[..n][i] == s[i] && s[..n][j] == s[j];
        }
      }
      if i, j :| 0 <= i < j < |s[..n]| && f(s[..n][i]) == 1 && f(s[..n][j]) == 1 {
        assert s[..n][i] == s[i] && s[..n][j] == s[j];
      }
    }
  }
}
