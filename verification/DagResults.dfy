/**
 What a finished workflow looks like: how many nodes each level has, which shape
 `GetDAGShape` reports, and that every function occurs in it exactly once.
 */
module DagResults {
  import opened SeqSums
  import opened DagGenerator
  import opened DagBuilder
  import R = RunAccounting
  import RR = RunResults

  // ---- sums over list numbers ----

  ghost function SumTo(n: nat, h: nat -> nat): nat
  {
    if n == 0 then 0 else SumTo(n - 1, h) + h(n - 1)
  }

  lemma {:induction false} SumToSame(n: nat, g: nat -> nat, h: nat -> nat)
    requires forall b: nat :: b < n ==> g(b) == h(b)
    ensures SumTo(n, g) == SumTo(n, h)
  {
    if n > 0 {
      SumToSame(n - 1, g, h);
    }
  }

  lemma {:induction false} SumToAdd(n: nat, f: nat -> nat, g: nat -> nat, h: nat -> nat)
    requires forall b: nat :: b < n ==> h(b) == f(b) + g(b)
    ensures SumTo(n, h) == SumTo(n, f) + SumTo(n, g)
  {
    if n > 0 {
      SumToAdd(n - 1, f, g, h);
    }
  }

  function Only(m: nat, v: nat): nat -> nat
  {
    (b: nat) => if b == m then v else 0
  }

  lemma {:induction false} SumToOnly(n: nat, m: nat, v: nat)
    ensures SumTo(n, Only(m, v)) == if m < n then v else 0
  {
    if n > 0 {
      SumToOnly(n - 1, m, v);
    }
  }

  // ---- a tree given by parents ----

  ghost predicate SameStep(a: nat -> int, b: nat -> int, q: nat)
  {
    a(q) - a(q + 1) == b(q) - b(q + 1)
  }

  lemma {:induction false} Telescope(n: nat, a: nat -> int, b: nat -> int)
    requires forall q: nat {:trigger SameStep(a, b, q)} :: q < n ==> SameStep(a, b, q)
    requires a(n) == b(n)
    ensures a(0) == b(0)
  {
    if n > 0 {
      assert SameStep(a, b, n - 1);
      Telescope(n - 1, a, b);
    }
  }

  ghost function ChildOf(par: seq<Elem>, t: nat -> nat, l: nat): nat -> nat
  {
    (b: nat) => if 1 <= b < |par| && par[b].list == l then t(b) else 0
  }

  /** Lists from `m` on whose parent is below `m`. */
  ghost function Cut(par: seq<Elem>, t: nat -> nat, m: nat): nat -> nat
  {
    (b: nat) => if 1 <= b < |par| && m <= b && par[b].list < m then t(b) else 0
  }

  /** A list's total is its own share plus the totals of its branches. */
  ghost predicate Splits(par: seq<Elem>, f: nat -> nat, t: nat -> nat, l: nat)
  {
    t(l) == f(l) + SumTo(|par|, ChildOf(par, t, l))
  }

  lemma CutStep(par: seq<Elem>, f: nat -> nat, t: nat -> nat, m: nat)
    requires forall b :: 1 <= b < |par| ==> par[b].list < b
    requires 1 <= m < |par| && Splits(par, f, t, m)
    ensures SumTo(m + 1, f) + SumTo(|par|, Cut(par, t, m + 1)) == SumTo(m, f) + SumTo(|par|, Cut(par, t, m))
  {
    var n := |par|;
    var both := (b: nat) => Cut(par, t, m)(b) + ChildOf(par, t, m)(b);
    SumToAdd(n, Cut(par, t, m), ChildOf(par, t, m), both);
    SumToAdd(n, Cut(par, t, m + 1), Only(m, t(m)), both);
    SumToOnly(n, m, t(m));
  }

  lemma CutBase(par: seq<Elem>, f: nat -> nat, t: nat -> nat)
    requires par != [] && Splits(par, f, t, 0)
    ensures SumTo(1, f) + SumTo(|par|, Cut(par, t, 1)) == t(0)
  {
    assert SumTo(1, f) == f(0) by { assert SumTo(0, f) == 0; }
    forall b: nat | b < |par|
      ensures Cut(par, t, 1)(b) == ChildOf(par, t, 0)(b)
    {
      var e: Elem := par[b];
      assert e.list >= 0;
    }
    SumToSame(|par|, Cut(par, t, 1), ChildOf(par, t, 0));
  }

  ghost function CutTotal(par: seq<Elem>, f: nat -> nat, t: nat -> nat): nat -> int
  {
    (m: nat) => SumTo(m + 1, f) + SumTo(|par|, Cut(par, t, m + 1))
  }

  function Always(v: int): nat -> int
  {
    (_: nat) => v
  }

  lemma CutTotalStep(par: seq<Elem>, f: nat -> nat, t: nat -> nat, m: nat)
    requires forall b :: 1 <= b < |par| ==> par[b].list < b
    requires m + 1 < |par| && Splits(par, f, t, m + 1)
    ensures SameStep(CutTotal(par, f, t), Always(CutTotal(par, f, t)(|par| - 1)), m)
  {
    CutStep(par, f, t, m + 1);
  }

  lemma CutEnd(par: seq<Elem>, f: nat -> nat, t: nat -> nat)
    requires par != []
    ensures CutTotal(par, f, t)(|par| - 1) == SumTo(|par|, f)
  {
    var n := |par|;
    SumToSame(n, Cut(par, t, n), Only(n, 0));
    SumToOnly(n, n, 0);
  }

  /** A total that counts every list's own share plus its branches counts, at the root, every list once. */
  lemma TreeTotal(par: seq<Elem>, f: nat -> nat, t: nat -> nat)
    requires par != [] && forall b :: 1 <= b < |par| ==> par[b].list < b
    requires forall l: nat {:trigger Splits(par, f, t, l)} :: l < |par| ==> Splits(par, f, t, l)
    ensures t(0) == SumTo(|par|, f)
  {
    var a, n := CutTotal(par, f, t), |par| - 1;
    forall m: nat | m < n
      ensures SameStep(a, Always(a(n)), m)
    {
      assert Splits(par, f, t, m + 1);
      CutTotalStep(par, f, t, m);
    }
    Telescope(n, a, Always(a(n)));
    CutEnd(par, f, t);
    assert Splits(par, f, t, 0);
    CutBase(par, f, t);
  }

  // ---- the workflow as a value ----

  /** Branch numbers are larger than the number of the list they hang off. */
  ghost predicate Forest(lists: seq<seq<Cell>>)
  {
    forall l, p :: 0 <= l < |lists| && 0 <= p < |lists[l]| ==>
      lists[l][p].Filled? && forall i :: 0 <= i < |lists[l][p].branches| ==> l < lists[l][p].branches[i] < |lists|
  }

  ghost function ToTree(lists: seq<seq<Cell>>, l: nat, p: nat): seq<R.Node>
    requires Forest(lists) && l < |lists| && p <= |lists[l]|
    decreases |lists| - l, |lists[l]| - p, 1, 0
  {
    if p == |lists[l]| then []
    else [R.Node(lists[l][p].fn, ToBranches(lists, l, p, 0))] + ToTree(lists, l, p + 1)
  }

  ghost function ToBranches(lists: seq<seq<Cell>>, l: nat, p: nat, i: nat): seq<R.Branch>
    requires Forest(lists) && l < |lists| && p < |lists[l]| && i <= |lists[l][p].branches|
    decreases |lists| - l, |lists[l]| - p, 0, |lists[l][p].branches| - i
  {
    var bs := lists[l][p].branches;
    if i == |bs| then [] else [R.Branch(ToTree(lists, bs[i], 0))] + ToBranches(lists, l, p, i + 1)
  }

  /** A total over a DAG: `k` for every list in it and g(id) for every node. */
  ghost function Measure(list: seq<R.Node>, k: nat, g: nat -> nat): nat
    decreases list, 1
  {
    k + NodesMeasure(list, k, g)
  }

  ghost function NodesMeasure(list: seq<R.Node>, k: nat, g: nat -> nat): nat
    decreases list, 0
  {
    if list == [] then 0
    else g(list[0].id) + BranchesMeasure(list[0].branches, k, g) + NodesMeasure(list[1..], k, g)
  }

  ghost function BranchesMeasure(bs: seq<R.Branch>, k: nat, g: nat -> nat): nat
    decreases bs, 0
  {
    if bs == [] then 0 else Measure(bs[0].nodes, k, g) + BranchesMeasure(bs[1..], k, g)
  }

  /** The measure of the DAG below list `l`. */
  ghost function Below(lists: seq<seq<Cell>>, k: nat, g: nat -> nat): nat -> nat
    requires Forest(lists)
  {
    (l: nat) => if l < |lists| then Measure(ToTree(lists, l, 0), k, g) else 0
  }

  /** The share of list `l` itself, from position `p` on. */
  ghost function Weights(lists: seq<seq<Cell>>, g: nat -> nat, l: nat, p: nat): nat
    requires Forest(lists) && l < |lists| && p <= |lists[l]|
    decreases |lists[l]| - p
  {
    if p == |lists[l]| then 0 else g(lists[l][p].fn) + Weights(lists, g, l, p + 1)
  }

  ghost function Own(lists: seq<seq<Cell>>, k: nat, g: nat -> nat): nat -> nat
    requires Forest(lists)
  {
    (l: nat) => if l < |lists| then k + Weights(lists, g, l, 0) else 0
  }

  function Between(lo: nat, hi: nat, t: nat -> nat): nat -> nat
  {
    (b: nat) => if lo <= b < hi then t(b) else 0
  }

  lemma BetweenStep(n: nat, lo: nat, hi: nat, t: nat -> nat)
    requires lo < hi <= n
    ensures SumTo(n, Between(lo, hi, t)) == t(lo) + SumTo(n, Between(lo + 1, hi, t))
  {
    SumToAdd(n, Only(lo, t(lo)), Between(lo + 1, hi, t), Between(lo, hi, t));
    SumToOnly(n, lo, t(lo));
  }

  lemma BetweenNothing(n: nat, hi: nat, t: nat -> nat)
    ensures SumTo(n, Between(hi, hi, t)) == 0
  {
    SumToSame(n, Between(hi, hi, t), Only(n, 0));
    SumToOnly(n, n, 0);
  }

  ghost function BranchesLeft(lists: seq<seq<Cell>>, k: nat, g: nat -> nat, l: nat, p: nat): nat -> int
    requires Forest(lists) && l < |lists| && p < |lists[l]|
  {
    (i: nat) => if i <= |lists[l][p].branches| then BranchesMeasure(ToBranches(lists, l, p, i), k, g) else 0
  }

  ghost function BranchesRight(n: nat, first: nat, count: nat, t: nat -> nat): nat -> int
  {
    (i: nat) => SumTo(n, Between(first + i, first + count, t))
  }

  lemma BranchesStep(lists: seq<seq<Cell>>, k: nat, g: nat -> nat, l: nat, p: nat, i: nat)
    requires Forest(lists) && l < |lists| && p < |lists[l]| && i < |lists[l][p].branches|
    ensures BranchesMeasure(ToBranches(lists, l, p, i), k, g)
         == Below(lists, k, g)(lists[l][p].branches[i]) + BranchesMeasure(ToBranches(lists, l, p, i + 1), k, g)
  {
    assert ToBranches(lists, l, p, i)[1..] == ToBranches(lists, l, p, i + 1);
  }

  lemma BranchesLeftStep(lists: seq<seq<Cell>>, k: nat, g: nat -> nat, l: nat, p: nat, i: nat)
    requires Forest(lists) && l < |lists| && p < |lists[l]| && i < |lists[l][p].branches|
    ensures var a := BranchesLeft(lists, k, g, l, p); a(i) - a(i + 1) == Below(lists, k, g)(lists[l][p].branches[i])
  {
    BranchesStep(lists, k, g, l, p, i);
  }

  lemma BranchesRightStep(n: nat, first: nat, count: nat, t: nat -> nat, i: nat)
    requires i < count && first + count <= n
    ensures var b := BranchesRight(n, first, count, t); b(i) - b(i + 1) == t(first + i)
  {
    BetweenStep(n, first + i, first + count, t);
  }

  lemma BranchesSameStep(lists: seq<seq<Cell>>, k: nat, g: nat -> nat, l: nat, p: nat, first: nat, i: nat)
    requires Forest(lists) && l < |lists| && p < |lists[l]| && i < |lists[l][p].branches|
    requires lists[l][p].branches[i] == first + i && first + |lists[l][p].branches| <= |lists|
    ensures SameStep(BranchesLeft(lists, k, g, l, p),
                     BranchesRight(|lists|, first, |lists[l][p].branches|, Below(lists, k, g)), i)
  {
    BranchesLeftStep(lists, k, g, l, p, i);
    BranchesRightStep(|lists|, first, |lists[l][p].branches|, Below(lists, k, g), i);
  }

  /** The branches of a node are numbered consecutively, so what is below them is a sum over a range of lists. */
  lemma BranchesSum(lists: seq<seq<Cell>>, k: nat, g: nat -> nat, l: nat, p: nat, first: nat)
    requires Forest(lists) && l < |lists| && p < |lists[l]| && first + |lists[l][p].branches| <= |lists|
    requires forall i :: 0 <= i < |lists[l][p].branches| ==> lists[l][p].branches[i] == first + i
    ensures BranchesMeasure(ToBranches(lists, l, p, 0), k, g)
         == SumTo(|lists|, Between(first, first + |lists[l][p].branches|, Below(lists, k, g)))
  {
    var count, t := |lists[l][p].branches|, Below(lists, k, g);
    var a, b := BranchesLeft(lists, k, g, l, p), BranchesRight(|lists|, first, count, t);
    forall i: nat | i < count
      ensures SameStep(a, b, i)
    {
      BranchesSameStep(lists, k, g, l, p, first, i);
    }
    BetweenNothing(|lists|, first + count, t);
    Telescope(count, a, b);
  }

  /** Children of list `l` that hang off position `p` or later. */
  ghost function ChildFrom(par: seq<Elem>, t: nat -> nat, l: nat, p: nat): nat -> nat
  {
    (b: nat) => if 1 <= b < |par| && par[b].list == l && p <= par[b].pos then t(b) else 0
  }

  ghost function ChildAt(par: seq<Elem>, t: nat -> nat, e: Elem): nat -> nat
  {
    (b: nat) => if 1 <= b < |par| && par[b] == e then t(b) else 0
  }

  lemma AllBranches(lists: seq<seq<Cell>>, par: seq<Elem>, k: nat, g: nat -> nat, l: nat, p: nat)
    requires Forest(lists) && |par| == |lists| && l < |lists| && p < |lists[l]|
    requires KidsOf(par, Elem(l, p), lists[l][p].branches)
    ensures BranchesMeasure(ToBranches(lists, l, p, 0), k, g)
         == SumTo(|lists|, ChildAt(par, Below(lists, k, g), Elem(l, p)))
  {
    var bs, n, t := lists[l][p].branches, |lists|, Below(lists, k, g);
    var first := if bs == [] then 0 else bs[0];
    BranchesSum(lists, k, g, l, p, first);
    SumToSame(n, ChildAt(par, t, Elem(l, p)), Between(first, first + |bs|, t));
  }

  ghost predicate KidsAt(lists: seq<seq<Cell>>, par: seq<Elem>, l: nat, p: nat)
    requires Forest(lists) && l < |lists| && p < |lists[l]|
  {
    KidsOf(par, Elem(l, p), lists[l][p].branches)
  }

  lemma NodesStep(lists: seq<seq<Cell>>, k: nat, g: nat -> nat, l: nat, p: nat)
    requires Forest(lists) && l < |lists| && p < |lists[l]|
    ensures NodesMeasure(ToTree(lists, l, p), k, g)
         == g(lists[l][p].fn) + BranchesMeasure(ToBranches(lists, l, p, 0), k, g)
            + NodesMeasure(ToTree(lists, l, p + 1), k, g)
  {
    assert ToTree(lists, l, p)[1..] == ToTree(lists, l, p + 1);
  }

  lemma ChildSplit(par: seq<Elem>, t: nat -> nat, l: nat, p: nat)
    ensures SumTo(|par|, ChildFrom(par, t, l, p))
         == SumTo(|par|, ChildAt(par, t, Elem(l, p))) + SumTo(|par|, ChildFrom(par, t, l, p + 1))
  {
    SumToAdd(|par|, ChildAt(par, t, Elem(l, p)), ChildFrom(par, t, l, p + 1), ChildFrom(par, t, l, p));
  }

  lemma NoChildFrom(par: seq<Elem>, t: nat -> nat, l: nat, p: nat)
    requires forall b :: 1 <= b < |par| && par[b].list == l ==> par[b].pos < p
    ensures SumTo(|par|, ChildFrom(par, t, l, p)) == 0
  {
    SumToSame(|par|, ChildFrom(par, t, l, p), Only(|par|, 0));
    SumToOnly(|par|, |par|, 0);
  }

  lemma ListStep(lists: seq<seq<Cell>>, par: seq<Elem>, k: nat, g: nat -> nat, l: nat, p: nat)
    requires Forest(lists) && |par| == |lists| && l < |lists| && p < |lists[l]| && KidsAt(lists, par, l, p)
    ensures NodesMeasure(ToTree(lists, l, p), k, g) - NodesMeasure(ToTree(lists, l, p + 1), k, g)
         == g(lists[l][p].fn) + SumTo(|lists|, ChildFrom(par, Below(lists, k, g), l, p))
            - SumTo(|lists|, ChildFrom(par, Below(lists, k, g), l, p + 1))
  {
    AllBranches(lists, par, k, g, l, p);
    ChildSplit(par, Below(lists, k, g), l, p);
    NodesStep(lists, k, g, l, p);
  }

  /** What the nodes of list `l` from position `p` on measure, with everything below them. */
  ghost function Left(lists: seq<seq<Cell>>, k: nat, g: nat -> nat, l: nat): nat -> int
    requires Forest(lists) && l < |lists|
  {
    (p: nat) => if p <= |lists[l]| then NodesMeasure(ToTree(lists, l, p), k, g) else 0
  }

  ghost function Right(lists: seq<seq<Cell>>, par: seq<Elem>, k: nat, g: nat -> nat, l: nat): nat -> int
    requires Forest(lists) && l < |lists|
  {
    var t := Below(lists, k, g);
    (p: nat) => if p <= |lists[l]| then Weights(lists, g, l, p) + SumTo(|lists|, ChildFrom(par, t, l, p)) else 0
  }

  lemma ListSameStep(lists: seq<seq<Cell>>, par: seq<Elem>, k: nat, g: nat -> nat, l: nat, p: nat)
    requires Forest(lists) && |par| == |lists| && l < |lists| && p < |lists[l]| && KidsAt(lists, par, l, p)
    ensures SameStep(Left(lists, k, g, l), Right(lists, par, k, g, l), p)
  {
    ListStep(lists, par, k, g, l, p);
  }

  lemma ListEnd(lists: seq<seq<Cell>>, par: seq<Elem>, k: nat, g: nat -> nat, l: nat)
    requires Forest(lists) && |par| == |lists| && l < |lists|
    requires forall b :: 1 <= b < |par| && par[b].list == l ==> par[b].pos < |lists[l]|
    ensures Left(lists, k, g, l)(|lists[l]|) == Right(lists, par, k, g, l)(|lists[l]|)
  {
    NoChildFrom(par, Below(lists, k, g), l, |lists[l]|);
  }

  lemma ListSum(lists: seq<seq<Cell>>, par: seq<Elem>, k: nat, g: nat -> nat, l: nat)
    requires Forest(lists) && |par| == |lists| && l < |lists|
    requires forall q {:trigger KidsAt(lists, par, l, q)} :: 0 <= q < |lists[l]| ==> KidsAt(lists, par, l, q)
    requires forall b :: 1 <= b < |par| && par[b].list == l ==> par[b].pos < |lists[l]|
    ensures NodesMeasure(ToTree(lists, l, 0), k, g)
         == Weights(lists, g, l, 0) + SumTo(|lists|, ChildFrom(par, Below(lists, k, g), l, 0))
  {
    var n, a, b := |lists[l]|, Left(lists, k, g, l), Right(lists, par, k, g, l);
    forall q: nat | q < n
      ensures SameStep(a, b, q)
    {
      assert KidsAt(lists, par, l, q);
      ListSameStep(lists, par, k, g, l, q);
    }
    ListEnd(lists, par, k, g, l);
    Telescope(n, a, b);
  }

  lemma CompleteForest(w: seq<nat>, id0: nat, next: nat, lists: seq<seq<Cell>>, owner: seq<Elem>, par: seq<Elem>)
    requires Complete(w, id0, next, lists, owner, par)
    ensures Forest(lists) && |par| == |lists|
    ensures forall b :: 1 <= b < |par| ==> par[b].list < b && par[b].pos < |lists[par[b].list]|
    ensures forall l, p {:trigger KidsAt(lists, par, l, p)} :: 0 <= l < |lists| && 0 <= p < |lists[l]| ==>
      KidsAt(lists, par, l, p)
  {
    forall b | 1 <= b < |par|
      ensures par[b].list < b && par[b].pos < |lists[par[b].list]|
    {
      assert IsFilled(lists, par[b]);
    }
    forall l, p | 0 <= l < |lists| && 0 <= p < |lists[l]|
      ensures KidsOf(par, Elem(l, p), lists[l][p].branches)
      ensures forall i :: 0 <= i < |lists[l][p].branches| ==> l < lists[l][p].branches[i] < |lists|
    {
      assert IsFilled(lists, Elem(l, p)) && At(lists, Elem(l, p)) == lists[l][p];
      var bs := lists[l][p].branches;
      forall i | 0 <= i < |bs|
        ensures l < bs[i] < |lists|
      {
        assert par[bs[i]] == Elem(l, p);
      }
    }
  }

  /** The measure of a finished workflow counts every list and every node once. */
  lemma WorkflowTotal(w: seq<nat>, id0: nat, next: nat, lists: seq<seq<Cell>>, owner: seq<Elem>, par: seq<Elem>,
      k: nat, g: nat -> nat)
    requires Complete(w, id0, next, lists, owner, par)
    ensures Forest(lists) && Measure(ToTree(lists, 0, 0), k, g) == SumTo(|lists|, Own(lists, k, g))
  {
    CompleteForest(w, id0, next, lists, owner, par);
    var t, n := Below(lists, k, g), |lists|;
    forall l: nat | l < n
      ensures Splits(par, Own(lists, k, g), t, l)
    {
      ListSum(lists, par, k, g, l);
      SumToSame(n, ChildFrom(par, t, l, 0), ChildOf(par, t, l));
    }
    TreeTotal(par, Own(lists, k, g), t);
  }

  // ---- nodes per level ----

  function AtDepth(k: nat): Cell -> nat
  {
    (x: Cell) => if x.Filled? && x.depth == k then 1 else 0
  }

  function InList(k: nat): seq<Cell> -> nat
  {
    (list: seq<Cell>) => Sum(list, AtDepth(k))
  }

  lemma {:induction false} ListLevel(list: seq<Cell>, start: nat, k: nat)
    requires forall p :: 0 <= p < |list| ==> list[p].Filled? && list[p].depth == start + p
    ensures Sum(list, AtDepth(k)) == if start <= k < start + |list| then 1 else 0
  {
    if list != [] {
      ListLevel(list[..|list| - 1], start, k);
    }
  }

  lemma {:induction false} FirstLists(lists: seq<seq<Cell>>, k: nat, wk: nat)
    requires forall l :: 0 <= l < |lists| ==> InList(k)(lists[l]) == if l < wk then 1 else 0
    ensures Sum(lists, InList(k)) == if |lists| < wk then |lists| else wk
  {
    if lists != [] {
      FirstLists(lists[..|lists| - 1], k, wk);
    }
  }

  /** A finished workflow has exactly the drawn number of nodes on every level. */
  lemma LevelWidths(w: seq<nat>, width: nat, id0: nat, next: nat, lists: seq<seq<Cell>>, owner: seq<Elem>,
      par: seq<Elem>, k: nat)
    requires WidthsOk(w, width) && Complete(w, id0, next, lists, owner, par) && k < |w|
    ensures Sum(lists, InList(k)) == w[k]
  {
    forall l | 0 <= l < |lists|
      ensures InList(k)(lists[l]) == if l < w[k] then 1 else 0
    {
      ListLevel(lists[l], StartOf(|w|, lists[l]), k);
    }
    FirstLists(lists, k, w[k]);
  }

  // ---- the shape ----

  lemma {:induction false} OneEach(n: nat, h: nat -> nat)
    requires forall l: nat :: l < n ==> h(l) == 1
    ensures SumTo(n, h) == n
  {
    if n > 0 {
      OneEach(n - 1, h);
    }
  }

  lemma {:induction false} NoWeight(lists: seq<seq<Cell>>, l: nat, p: nat)
    requires Forest(lists) && l < |lists| && p <= |lists[l]|
    ensures Weights(lists, Zero, l, p) == 0
    decreases |lists[l]| - p
  {
    if p < |lists[l]| {
      NoWeight(lists, l, p + 1);
    }
  }

  lemma {:induction false} TreeLength(lists: seq<seq<Cell>>, l: nat, p: nat)
    requires Forest(lists) && l < |lists| && p <= |lists[l]|
    ensures |ToTree(lists, l, p)| == |lists[l]| - p
    decreases |lists[l]| - p
  {
    if p < |lists[l]| {
      TreeLength(lists, l, p + 1);
    }
  }

  /** The DAG of a finished workflow consists of `width` lists, and its root list is as long as the DAG is deep. */
  lemma ShapeOf(w: seq<nat>, width: nat, id0: nat, next: nat, lists: seq<seq<Cell>>, owner: seq<Elem>, par: seq<Elem>)
    requires WidthsOk(w, width) && Complete(w, id0, next, lists, owner, par)
    ensures Forest(lists) && Measure(ToTree(lists, 0, 0), 1, Zero) == width
    ensures |ToTree(lists, 0, 0)| == |w|
  {
    WorkflowTotal(w, id0, next, lists, owner, par, 1, Zero);
    forall l: nat | l < |lists|
      ensures Own(lists, 1, Zero)(l) == 1
    {
      NoWeight(lists, l, 0);
    }
    OneEach(|lists|, Own(lists, 1, Zero));
    TreeLength(lists, 0, 0);
  }

  /** GetDAGShape: adds one to `width` per branch reached; the depth counts the nodes of the list itself. */
  method GetDAGShape(list: seq<R.Node>, width: nat, depth: nat) returns (width': nat, depth': nat)
    ensures width' == width + NodesMeasure(list, 1, Zero) && depth' == depth + |list|
    decreases list
  {
    width', depth' := width, depth;
    for i := 0 to |list|
      invariant width' + NodesMeasure(list[i..], 1, Zero) == width + NodesMeasure(list, 1, Zero)
      invariant depth' == depth + i
    {
      var bs := list[i].branches;
      assert list[i] in list;
      assert list[i..][1..] == list[i + 1..];
      ghost var before := width';
      for j := 0 to |bs|
        invariant width' + BranchesMeasure(bs[j..], 1, Zero) == before + BranchesMeasure(bs, 1, Zero)
      {
        assert bs[j..][1..] == bs[j + 1..];
        var below, _ := GetDAGShape(bs[j].nodes, width' + 1, depth');
        width' := below;
      }
      depth' := depth' + 1;
    }
  }

  // ---- every function once ----

  function IsId(id: nat): nat -> nat
  {
    (x: nat) => if x == id then 1 else 0
  }

  lemma {:induction false} OccMeasure(list: seq<R.Node>, id: nat)
    ensures R.Occ(list, id) == Measure(list, 0, IsId(id))
    decreases list, 0
  {
    if list != [] {
      OccBranchesMeasure(list[0].branches, id);
      OccMeasure(list[1..], id);
    }
  }

  lemma {:induction false} OccBranchesMeasure(bs: seq<R.Branch>, id: nat)
    ensures R.OccBranches(bs, id) == BranchesMeasure(bs, 0, IsId(id))
    decreases bs, 0
  {
    if bs != [] {
      OccMeasure(bs[0].nodes, id);
      OccBranchesMeasure(bs[1..], id);
    }
  }

  lemma {:induction false} WeightOfId(lists: seq<seq<Cell>>, id: nat, e: Elem, l: nat, p: nat)
    requires Forest(lists) && l < |lists| && p <= |lists[l]|
    requires forall q :: 0 <= q < |lists[l]| ==> (lists[l][q].fn == id <==> e == Elem(l, q))
    ensures Weights(lists, IsId(id), l, p) == if e.list == l && p <= e.pos < |lists[l]| then 1 else 0
    decreases |lists[l]| - p
  {
    if p < |lists[l]| {
      WeightOfId(lists, id, e, l, p + 1);
    }
  }

  /** Every id given out occurs exactly once in the DAG, and no other id occurs. */
  lemma EachFunctionOnce(w: seq<nat>, id0: nat, next: nat, lists: seq<seq<Cell>>, owner: seq<Elem>, par: seq<Elem>,
      id: nat)
    requires Complete(w, id0, next, lists, owner, par)
    ensures Forest(lists) && R.Occ(ToTree(lists, 0, 0), id) == if id0 <= id < next then 1 else 0
  {
    OccurrenceSum(w, id0, next, lists, owner, par, id);
    var n := |lists|;
    var e := if id0 <= id < next then owner[id - id0] else Elem(n, 0);
    forall l: nat | l < n
      ensures Own(lists, 0, IsId(id))(l) == Only(e.list, 1)(l)
    {
      OwnId(id0, next, lists, owner, id, e, l);
      WeightOfId(lists, id, e, l, 0);
    }
    SumToSame(n, Own(lists, 0, IsId(id)), Only(e.list, 1));
    SumToOnly(n, e.list, 1);
    if id0 <= id < next {
      assert IdAt(id0, lists, owner[id - id0], id - id0);
    }
  }

  lemma OccurrenceSum(w: seq<nat>, id0: nat, next: nat, lists: seq<seq<Cell>>, owner: seq<Elem>, par: seq<Elem>,
      id: nat)
    requires Complete(w, id0, next, lists, owner, par)
    ensures Forest(lists) && R.Occ(ToTree(lists, 0, 0), id) == SumTo(|lists|, Own(lists, 0, IsId(id)))
  {
    WorkflowTotal(w, id0, next, lists, owner, par, 0, IsId(id));
    OccMeasure(ToTree(lists, 0, 0), id);
  }

  lemma OwnId(id0: nat, next: nat, lists: seq<seq<Cell>>, owner: seq<Elem>, id: nat, e: Elem, l: nat)
    requires Forest(lists) && IdsOk(id0, lists, next, owner) && l < |lists|
    requires e == if id0 <= id < next then owner[id - id0] else Elem(|lists|, 0)
    ensures forall q :: 0 <= q < |lists[l]| ==> (lists[l][q].fn == id <==> e == Elem(l, q))
    ensures e.list == l ==> e.pos < |lists[l]|
  {
    if id0 <= id < next {
      assert IdAt(id0, lists, owner[id - id0], id - id0);
    }
    forall q | 0 <= q < |lists[l]|
      ensures lists[l][q].fn == id <==> e == Elem(l, q)
    {
      assert IsFilled(lists, Elem(l, q)) && At(lists, Elem(l, q)) == lists[l][q];
    }
  }

  // ---- all DAGs of a run ----

  datatype Dag = Dag(lists: seq<seq<Cell>>, first: nat, next: nat, width: nat, depth: nat)

  /**
   A finished DAG of its width and depth that uses the functions from `first` up to `next`; one equation, carried as
   a unit.
   */
  ghost predicate GoodDag(g: Dag)
  {
    true == (
      && g.depth >= 1 && g.first < g.next
      && if g.depth == 1 then g.lists == [[Filled(g.first, 0, [])]] && g.next == g.first + 1
         else exists w, owner, par ::
           |w| == g.depth && WidthsOk(w, g.width) && Complete(w, g.first, g.next, g.lists, owner, par))
  }

  /** The DAGs take the functions one after another, starting with the first function. */
  ghost predicate Consecutive(dags: seq<Dag>)
  {
    && (forall i :: 0 <= i < |dags| ==> GoodDag(dags[i]))
    && (forall i :: 0 <= i < |dags| ==> dags[i].first == if i == 0 then 0 else dags[i - 1].next)
  }

  function NextFree(dags: seq<Dag>): nat
  {
    if dags == [] then 0 else dags[|dags| - 1].next
  }

  /** The k-th lookup in the dataset's table: some width and some depth, zero where the table has no entry. */
  type Table = nat -> (int, int)

  ghost predicate Sizes(table: Table)
  {
    forall k: nat :: table(k).0 >= 1 && table(k).1 >= 1
  }

  predicate Fits(size: (int, int), functions: int)
  {
    size.0 * (size.1 - 1) + 1 <= functions
  }

  /** Lookup `k` ends a search that began with lookup `from`: the first that fits, or the eleventh. */
  ghost predicate SearchEnds(table: Table, functions: nat, from: nat, k: nat)
  {
    && from <= k <= from + 10
    && (forall j :: from <= j < k ==> !Fits(table(j), functions))
    && (Fits(table(k), functions) || k == from + 10)
  }

  /** The size a search has found when lookup `k` ends it: a single chain of all functions where nothing fits. */
  ghost function Found(table: Table, functions: nat, k: nat): (int, int)
  {
    if Fits(table(k), functions) then table(k) else (1, functions)
  }

  /**
   getDAGStats: the table gives some width and depth; after ten further tries that do not fit, a single chain of all
   functions is taken.  The size found always fits.  `k` counts the lookups.
   */
  method GetDAGStats(table: Table, k: nat, maxSize: nat, numberOfTries: nat) returns (width: int, depth: int, k': nat)
    requires numberOfTries <= 10
    ensures Fits((width, depth), maxSize) && k < k' <= k + 11 - numberOfTries
    ensures if Fits(table(k' - 1), maxSize) then (width, depth) == table(k' - 1)
            else width == 1 && depth == maxSize && k' == k + 11 - numberOfTries
    ensures forall j :: k <= j < k' - 1 ==> !Fits(table(j), maxSize)
    decreases 10 - numberOfTries
  {
    width, depth := table(k).0, table(k).1;
    k' := k + 1;
    if maxSize < width * (depth - 1) + 1 {
      if numberOfTries == 10 {
        return 1, maxSize, k';
      }
      width, depth, k' := GetDAGStats(table, k + 1, maxSize, numberOfTries + 1);
    }
  }

  lemma AddDag(dags: seq<Dag>, dag: Dag)
    requires Consecutive(dags) && GoodDag(dag) && dag.first == NextFree(dags)
    ensures Consecutive(dags + [dag]) && NextFree(dags + [dag]) == dag.next
  {
    var more := dags + [dag];
    forall i | 0 <= i < |more|
      ensures GoodDag(more[i])
    {
      assert more[i] == if i < |dags| then dags[i] else dag;
    }
  }

  /** Fatal: log.Fatal on an invalid configured size; Panic: an index out of range or a nil element. */
  datatype Outcome = Fatal | Panic | Built(dags: seq<Dag>)

  /** createDAGWorkflow for any size that passed the check; None stands for a panic. */
  method BuildDag(functions: nat, first: nat, width: int, depth: int) returns (dag: Option<Dag>)
    requires (depth - 1) * width + 1 <= functions - first
    ensures dag.None? <==> Breaks(functions - first, width, depth)
    ensures dag.Some? ==> GoodDag(dag.value) && dag.value.first == first < dag.value.next <= functions
    ensures dag.Some? ==> dag.value.depth == depth && dag.value.width == if width < 1 then 1 else width
  {
    var ok, wf, next, widths := CreateDAGWorkflow(functions, first, width, depth);
    dag := if ok then Some(Dag(wf.lists, first, next, if width < 1 then 1 else width, depth)) else None;
  }

  /** The size of a DAG: found by the search that begins with lookup `k`, or the configured one, if that is valid. */
  ghost predicate SizeFor(dataset: bool, table: Table, functions: nat, width: int, depth: int, k: nat, size: (int, int),
                          k': nat)
  {
    if dataset then k < k' && SearchEnds(table, functions, k, k' - 1) && size == Found(table, functions, k' - 1)
    else size == (width, depth) && width >= 1 && depth >= 1
  }

  /** The size of the next DAG: configured, or looked up in the dataset's table; None stands for log.Fatal. */
  method NextSize(functions: nat, dataset: bool, table: Table, k: nat, width: int, depth: int)
    returns (size: Option<(int, int)>, k': nat)
    ensures size.None? <==> !dataset && (width < 1 || depth < 1)
    ensures size.Some? ==> SizeFor(dataset, table, functions, width, depth, k, size.value, k')
  {
    k' := k;
    if dataset {
      var w, d;
      w, d, k' := GetDAGStats(table, k, functions, 0);
      return Some((w, d)), k';
    }
    if width < 1 || depth < 1 {
      return None, k';
    }
    size := Some((width, depth));
  }

  /** A size is proper if it was configured, or if the table's entries are and there are functions at all. */
  lemma ProperSize(dataset: bool, table: Table, functions: nat, width: int, depth: int, k: nat, size: (int, int),
                   k': nat)
    requires SizeFor(dataset, table, functions, width, depth, k, size, k')
    requires dataset ==> Sizes(table) && functions > 0
    ensures size.0 >= 1 && size.1 >= 1
  {
  }

  lemma NoNegativeProduct(x: int, y: int)
    ensures x >= 0 && y >= 0 ==> x * y >= 0
  {
  }

  lemma PanicCause(dataset: bool, table: Table, functions: nat, width: int, depth: int, k: nat, size: (int, int),
                   k': nat, left: int)
    requires SizeFor(dataset, table, functions, width, depth, k, size, k')
    requires (size.1 - 1) * size.0 + 1 <= left && Breaks(left, size.0, size.1)
    ensures dataset && (functions == 0 || !Sizes(table))
  {
    if !dataset || (functions > 0 && Sizes(table)) {
      NoNegativeProduct(size.1 - 1, size.0);
      ProperSize(dataset, table, functions, width, depth, k, size, k');
    }
  }

  lemma Unbuilt(table: Table, functions: nat, width: int, depth: int, k: nat, size: (int, int), k': nat, left: int)
    requires SizeFor(true, table, functions, width, depth, k, size, k')
    requires left < (size.1 - 1) * size.0 + 1 && 0 <= left <= functions
    ensures Sizes(table) ==> functions != 0
    ensures !Fits(size, left)
  {
    if functions == 0 && Sizes(table) {
      NothingToBuild(table, k, size, k');
    }
  }

  /** Without any functions the search ends with a chain of depth zero, for which there is no first function. */
  lemma NothingToBuild(table: Table, k: nat, size: (int, int), k': nat)
    requires SizeFor(true, table, 0, 0, 0, k, size, k') && Sizes(table)
    ensures size == (1, 0)
  {
    var t := table(k' - 1);
    assert t.0 >= 1 && t.1 >= 1;
    assert t.0 * (t.1 - 1) >= 0;
  }

  /** One search of the table after another: each begins with the lookup after the one that ended the search before. */
  ghost predicate Searches(table: Table, functions: nat, ends: seq<nat>)
  {
    forall i :: 0 <= i < |ends| ==> SearchEnds(table, functions, if i == 0 then 0 else ends[i - 1] + 1, ends[i])
  }

  /** The DAGs have the sizes found by the searches; a width below one has the effect of width one. */
  ghost predicate SizedBy(table: Table, functions: nat, dags: seq<Dag>, ends: seq<nat>)
    requires |dags| <= |ends|
  {
    forall i :: 0 <= i < |dags| ==>
      var size := Found(table, functions, ends[i]);
      dags[i].depth == size.1 && dags[i].width == if size.0 < 1 then 1 else size.0
  }

  /** Every DAG has the size found by its search of the table, and the size found last needs too many functions. */
  ghost predicate FromTable(table: Table, functions: nat, dags: seq<Dag>)
  {
    exists ends: seq<nat> ::
      && |ends| == |dags| + 1 && Searches(table, functions, ends) && SizedBy(table, functions, dags, ends)
      && !Fits(Found(table, functions, ends[|dags|]), functions - NextFree(dags))
  }

  /** The DAGs built so far; with the dataset's table, `ends` are the lookups that found their sizes. */
  ghost predicate Underway(dataset: bool, table: Table, functions: nat, width: int, depth: int, dags: seq<Dag>,
                           ends: seq<nat>, k: nat)
  {
    true == (
      && Consecutive(dags) && NextFree(dags) <= functions && |ends| == |dags|
      && if dataset then
           && k == (if ends == [] then 0 else ends[|ends| - 1] + 1)
           && Searches(table, functions, ends) && SizedBy(table, functions, dags, ends)
         else forall g :: g in dags ==> g.width == width && g.depth == depth)
  }

  lemma OneMoreSearch(table: Table, functions: nat, ends: seq<nat>, k: nat)
    requires Searches(table, functions, ends)
    requires SearchEnds(table, functions, if ends == [] then 0 else ends[|ends| - 1] + 1, k)
    ensures Searches(table, functions, ends + [k])
  {
    var more := ends + [k];
    forall i | 0 <= i < |more|
      ensures SearchEnds(table, functions, if i == 0 then 0 else more[i - 1] + 1, more[i])
    {
      if i < |ends| {
        assert SearchEnds(table, functions, if i == 0 then 0 else ends[i - 1] + 1, ends[i]);
      }
    }
  }

  lemma DagAdded(dataset: bool, table: Table, functions: nat, width: int, depth: int, dags: seq<Dag>, ends: seq<nat>,
                 k: nat, size: (int, int), k': nat, dag: Dag)
    requires Underway(dataset, table, functions, width, depth, dags, ends, k)
    requires SizeFor(dataset, table, functions, width, depth, k, size, k')
    requires GoodDag(dag) && dag.first == NextFree(dags) && dag.next <= functions
    requires dag.depth == size.1 && dag.width == if size.0 < 1 then 1 else size.0
    ensures Underway(dataset, table, functions, width, depth, dags + [dag],
      ends + [if dataset then k' - 1 else 0], k')
    ensures NextFree(dags + [dag]) == dag.next
  {
    AddDag(dags, dag);
    if dataset {
      OneMoreSearch(table, functions, ends, k' - 1);
    }
  }

  lemma AllBuilt(table: Table, functions: nat, width: int, depth: int, dags: seq<Dag>, ends: seq<nat>, k: nat,
                 size: (int, int), k': nat)
    requires Underway(true, table, functions, width, depth, dags, ends, k)
    requires SizeFor(true, table, functions, width, depth, k, size, k')
    requires !Fits(size, functions - NextFree(dags))
    ensures FromTable(table, functions, dags)
  {
    var all := ends + [k' - 1];
    OneMoreSearch(table, functions, ends, k' - 1);
    assert |all| == |dags| + 1 && Searches(table, functions, all) && SizedBy(table, functions, dags, all);
    assert all[|dags|] == k' - 1;
  }

  /** GenerateDAGs: build DAGs until the remaining functions are too few. */
  method GenerateDAGs(functions: nat, dataset: bool, table: Table, width: int, depth: int) returns (r: Outcome)
    ensures r.Fatal? <==> !dataset && (width < 1 || depth < 1)
    ensures r.Panic? ==> dataset && (functions == 0 || !Sizes(table))
    ensures dataset && Sizes(table) ==> (r.Panic? <==> functions == 0)
    ensures r.Built? ==> Consecutive(r.dags) && NextFree(r.dags) <= functions
    ensures r.Built? && !dataset ==> functions - NextFree(r.dags) < (depth - 1) * width + 1
    ensures r.Built? && !dataset ==> forall g :: g in r.dags ==> g.width == width && g.depth == depth
    ensures r.Built? && dataset ==> FromTable(table, functions, r.dags)
  {
    var dags: seq<Dag> := [];
    var functionIndex, k := 0, 0;
    ghost var ends: seq<nat> := [];
    while true
      invariant Underway(dataset, table, functions, width, depth, dags, ends, k)
      invariant functionIndex == NextFree(dags) <= functions
      invariant functionIndex > 0 ==> dataset || (width >= 1 && depth >= 1)
      decreases functions - functionIndex
    {
      var size, k' := NextSize(functions, dataset, table, k, width, depth);
      if size.None? {
        return Fatal;
      }
      var w, d := size.value.0, size.value.1;
      if functions - functionIndex < (d - 1) * w + 1 {
        if dataset {
          Unbuilt(table, functions, width, depth, k, size.value, k', functions - functionIndex);
          AllBuilt(table, functions, width, depth, dags, ends, k, size.value, k');
        }
        return Built(dags);
      }
      var dag := BuildDag(functions, functionIndex, w, d);
      if dag.None? {
        PanicCause(dataset, table, functions, width, depth, k, size.value, k', functions - functionIndex);
        return Panic;
      }
      DagAdded(dataset, table, functions, width, depth, dags, ends, k, size.value, k', dag.value);
      ends := ends + [if dataset then k' - 1 else 0];
      dags := dags + [dag.value];
      functionIndex, k := dag.value.next, k';
    }
  }

  /** Within one generated DAG every function of its range occurs once and no other function occurs. */
  lemma GoodDagOnce(g: Dag, id: nat)
    requires GoodDag(g)
    ensures Forest(g.lists) && g.lists != [] &&
      R.Occ(ToTree(g.lists, 0, 0), id) == if g.first <= id < g.next then 1 else 0
  {
    if g.depth == 1 {
      SingleNode(g);
      assert [R.Node(g.first, [])][1..] == [];
    } else {
      var w, owner, par :| |w| == g.depth && WidthsOk(w, g.width) && Complete(w, g.first, g.next, g.lists, owner, par);
      EachFunctionOnce(w, g.first, g.next, g.lists, owner, par, id);
    }
  }

  lemma {:induction false} RangesOrdered(dags: seq<Dag>, i: nat, j: nat)
    requires Consecutive(dags) && i < j < |dags|
    ensures dags[i].next <= dags[j].first
    decreases j
  {
    if i < j - 1 {
      RangesOrdered(dags, i, j - 1);
      assert GoodDag(dags[j - 1]);
    }
  }

  /** No function occurs in two generated DAGs. */
  lemma DagsDisjoint(dags: seq<Dag>, i: nat, j: nat, id: nat)
    requires Consecutive(dags) && i < j < |dags|
    ensures Forest(dags[i].lists) && Forest(dags[j].lists) && dags[i].lists != [] && dags[j].lists != []
    ensures R.Occ(ToTree(dags[i].lists, 0, 0), id) + R.Occ(ToTree(dags[j].lists, 0, 0), id) <= 1
  {
    GoodDagOnce(dags[i], id);
    GoodDagOnce(dags[j], id);
    RangesOrdered(dags, i, j);
  }

  /**
   The shape reported for a generated DAG is the requested one, except that a DAG of depth 1 is a single node
   whatever width was asked for.
   */
  method ReportShape(g: Dag, tree: seq<R.Node>) returns (width: nat, depth: nat)
    requires GoodDag(g)
    requires Forest(g.lists) && g.lists != [] && tree == ToTree(g.lists, 0, 0)
    ensures depth == g.depth && width == if g.depth == 1 then 1 else g.width
  {
    if g.depth > 1 {
      ghost var w, owner, par :| |w| == g.depth && WidthsOk(w, g.width) &&
        Complete(w, g.first, g.next, g.lists, owner, par);
      ShapeOf(w, g.width, g.first, g.next, g.lists, owner, par);
    } else {
      SingleNode(g);
    }
    width, depth := GetDAGShape(tree, 1, 0);
  }

  lemma SingleNode(g: Dag)
    requires GoodDag(g) && g.depth == 1
    ensures Forest(g.lists) && g.lists != [] && ToTree(g.lists, 0, 0) == [R.Node(g.first, [])]
    ensures NodesMeasure(ToTree(g.lists, 0, 0), 1, Zero) == 0
  {
    assert ToBranches(g.lists, 0, 0, 0) == [];
    assert ToTree(g.lists, 0, 1) == [];
    assert ToTree(g.lists, 0, 0) == [R.Node(g.first, [])];
    assert ToTree(g.lists, 0, 0)[1..] == [];
  }

  /**
   Driving a generated DAG, every function of it yields at most one record per invocation, and exactly one if nothing
   fails.
   */
  lemma GeneratedDagRecordedOnce(g: Dag, c: R.Config, run: seq<R.Action>, k: R.Key)
    requires GoodDag(g) && g.first <= k.node < g.next
    requires R.Legal(c, R.Init(c), run) && k.driver < |c.drivers|
    requires Forest(g.lists) && g.lists != [] && c.drivers[k.driver].root == ToTree(g.lists, 0, 0)
    ensures var s := R.Exec(c, R.Init(c), run);
      && Sum(s.log, R.RecordOf(k)) <= 1
      && (s.main.Ended? && k.inv < c.drivers[k.driver].count && Sum(s.log, R.FailureOf(k)) == 0 ==>
            Sum(s.log, R.RecordOf(k)) == 1)
  {
    GoodDagOnce(g, k.node);
    RR.NodeRecordedOnce(c, run, k);
  }
}
