/**
 The breadth-first DAG builder.  A workflow is a set of linked lists of nodes; the first list
 is the root chain, every other list is a branch of some node.  Lists are created full of
 placeholders and filled in place, level by level, against a budget of nodes per level.
 A list element is addressed by its list and its position in it.
 */
module DagGenerator {
  import opened SeqSums

  datatype Cell = Placeholder | Filled(fn: nat, depth: nat, branches: seq<nat>)

  datatype Elem = Elem(list: nat, pos: nat)

  /**
   The lists, the remaining width budget per level, the FIFO queue of elements to expand and
   the next function id; then three histories: how many cells of each list are filled, which
   element got each id, and which element each list branches off.
   */
  datatype State = State(
    lists: seq<seq<Cell>>, budget: seq<int>, queue: seq<Elem>, next: nat,
    fill: seq<nat>, owner: seq<Elem>, par: seq<Elem>)

  // ---- widths per level ----

  /** The drawn widths: one node at the top, never shrinking, `width` nodes at the bottom. */
  ghost predicate WidthsOk(w: seq<nat>, width: nat)
  {
    && |w| >= 2 && w[0] == 1 && w[|w| - 1] == width
    && forall i, j :: 0 <= i <= j < |w| ==> w[i] <= w[j]
  }

  function Id(x: nat): nat { x }

  /** Number of nodes on the first `k` levels. */
  ghost function NodesAbove(w: seq<nat>, k: nat): nat
    requires k <= |w|
  {
    Sum(w[..k], Id)
  }

  lemma NodesAboveStep(w: seq<nat>, k: nat)
    requires k < |w|
    ensures NodesAbove(w, k + 1) == NodesAbove(w, k) + w[k]
  {
    SumAppend(w[..k], w[k], Id);
    assert w[..k + 1] == w[..k] + [w[k]];
  }

  lemma {:induction false} NodesAboveMono(w: seq<nat>, j: nat, k: nat)
    requires j <= k <= |w|
    ensures NodesAbove(w, j) <= NodesAbove(w, k)
    decreases k
  {
    if j < k {
      NodesAboveMono(w, j, k - 1);
      NodesAboveStep(w, k - 1);
    }
  }

  lemma {:induction false} SizeBound(w: seq<nat>, width: nat, k: nat)
    requires WidthsOk(w, width) && 1 <= k <= |w|
    ensures NodesAbove(w, k) <= (k - 1) * width + 1
  {
    NodesAboveStep(w, k - 1);
    if k == 1 {
      assert w[..0] == [];
    } else {
      SizeBound(w, width, k - 1);
      OneLess(k - 1, width);
    }
  }

  // ---- the invariant, piece by piece ----

  /** The level a list starts on: every list reaches down to the last level. */
  function StartOf(d: nat, l: seq<Cell>): int { d - |l| }

  ghost predicate ListsOk(d: nat, lists: seq<seq<Cell>>, fill: seq<nat>)
  {
    && |lists| == |fill| > 0 && |lists[0]| == d
    && forall l :: 0 <= l < |lists| ==> 1 <= fill[l] <= |lists[l]| <= d
  }

  /** Each list is filled from the front, with the depth of every node correct. */
  ghost predicate CellsOk(d: nat, lists: seq<seq<Cell>>, fill: seq<nat>)
    requires ListsOk(d, lists, fill)
  {
    forall l, p :: 0 <= l < |lists| && 0 <= p < |lists[l]| ==>
      && (lists[l][p].Filled? <==> p < fill[l])
      && (lists[l][p].Filled? ==> lists[l][p].depth == StartOf(d, lists[l]) + p)
  }

  /** The depth of the last filled node of a list. */
  ghost function Reached(d: nat, lists: seq<seq<Cell>>, fill: seq<nat>, l: nat): int
    requires l < |lists| == |fill|
  {
    StartOf(d, lists[l]) + fill[l] - 1
  }

  /** A slot of the queue that holds an element of list `l`. */
  ghost function Slot(queue: seq<Elem>, l: nat): (k: nat)
    requires exists k: nat :: k < |queue| && queue[k].list == l
    ensures k < |queue| && queue[k].list == l
  {
    var k: nat :| k < |queue| && queue[k].list == l;
    k
  }

  ghost predicate OncePerList(queue: seq<Elem>)
  {
    forall k {:trigger queue[k]} :: 0 <= k < |queue| ==> Slot(queue, queue[k].list) == k
  }

  /** The queue holds one element per list, its last filled one: first `a` of depth `c`, then of depth `c + 1`. */
  ghost predicate QueueOk(d: nat, c: nat, a: nat, s: State)
    requires |s.lists| == |s.fill|
  {
    && a <= |s.queue| && c < d
    && (forall k :: 0 <= k < |s.queue| ==>
          && s.queue[k].list < |s.lists| && s.queue[k].pos + 1 == s.fill[s.queue[k].list]
          && Reached(d, s.lists, s.fill, s.queue[k].list) == if k < a then c else c + 1)
    && OncePerList(s.queue)
    && (if c < d - 1 then |s.queue| == |s.lists| else a == |s.queue|)
  }

  ghost predicate Queued(queue: seq<Elem>, a: nat, l: nat)
    requires a <= |queue|
  {
    exists k :: 0 <= k < a && queue[k].list == l
  }

  /** Every list has reached the current level or the next; the ones that have not moved on are queued. */
  ghost predicate LevelOk(d: nat, c: nat, a: nat, s: State)
    requires |s.lists| == |s.fill| && a <= |s.queue|
  {
    forall l {:trigger Reached(d, s.lists, s.fill, l)} :: 0 <= l < |s.lists| ==>
      && c <= Reached(d, s.lists, s.fill, l) <= c + 1
      && (c < d - 1 && Reached(d, s.lists, s.fill, l) == c ==> Queued(s.queue, a, l))
  }

  /** Below the current level the budget is what the drawn widths leave after the lists made (and promised) so far. */
  ghost predicate BudgetOk(w: seq<nat>, c: nat, n: nat, budget: seq<int>, owed: nat)
  {
    && |budget| == |w| && c < |w|
    && (forall i :: 0 <= i < |w| ==> budget[i] == if i <= c then 0 else w[i] - n - owed)
    && (forall k :: 0 <= k <= c ==> w[k] <= n) && (if c + 1 < |w| then n + owed <= w[c + 1] else n == w[c])
  }

  /** Lists are numbered by the level they start on: the first w[k] of them start at level k or above. */
  ghost predicate StartsOk(w: seq<nat>, c: nat, lists: seq<seq<Cell>>)
  {
    && c < |w|
    && (forall l :: 0 <= l < |lists| ==> StartOf(|w|, lists[l]) <= c + 1)
    && forall l, k :: 0 <= l < |lists| && 0 <= k <= c ==> (StartOf(|w|, lists[l]) <= k <==> l < w[k])
  }

  ghost predicate IsFilled(lists: seq<seq<Cell>>, e: Elem)
  {
    e.list < |lists| && e.pos < |lists[e.list]| && lists[e.list][e.pos].Filled?
  }

  ghost function At(lists: seq<seq<Cell>>, e: Elem): Cell
    requires IsFilled(lists, e)
  {
    lists[e.list][e.pos]
  }

  ghost predicate IdAt(id0: nat, lists: seq<seq<Cell>>, e: Elem, i: nat)
  {
    IsFilled(lists, e) && At(lists, e).fn == id0 + i
  }

  /** Ids id0, id0 + 1, ... are given to distinct nodes, one each. */
  ghost predicate IdsOk(id0: nat, lists: seq<seq<Cell>>, next: nat, owner: seq<Elem>)
  {
    && next == id0 + |owner|
    && (forall i {:trigger IdAt(id0, lists, owner[i], i)} :: 0 <= i < |owner| ==> IdAt(id0, lists, owner[i], i))
    && (forall e {:trigger IsFilled(lists, e)} :: IsFilled(lists, e) ==>
          id0 <= At(lists, e).fn < next && owner[At(lists, e).fn - id0] == e)
  }

  /** `bs` lists exactly the lists whose parent is `e`, which are numbered consecutively. */
  ghost predicate KidsOf(par: seq<Elem>, e: Elem, bs: seq<nat>)
  {
    && (forall i :: 0 <= i < |bs| ==> bs[i] == bs[0] + i)
    && (bs != [] ==> 1 <= bs[0] && bs[0] + |bs| <= |par|)
    && (forall b :: 1 <= b < |par| ==> (par[b] == e <==> bs != [] && bs[0] <= b < bs[0] + |bs|))
  }

  /**
   Every list but the first is a branch of one filled node of an earlier list; `kids` are those of `cur` not stored
   yet.
   */
  ghost predicate TreeOk(lists: seq<seq<Cell>>, par: seq<Elem>, cur: Option<Elem>, kids: seq<nat>)
  {
    && |par| == |lists| && (kids != [] ==> kids[0] + |kids| == |par|)
    && (forall b :: 1 <= b < |par| ==> par[b].list < b && IsFilled(lists, par[b]))
    && (forall e {:trigger IsFilled(lists, e)} :: IsFilled(lists, e) ==>
          if cur == Some(e) then At(lists, e).branches == [] && KidsOf(par, e, kids)
          else KidsOf(par, e, At(lists, e).branches))
  }

  /** Queued nodes have no branches yet. */
  ghost predicate FreshOk(lists: seq<seq<Cell>>, queue: seq<Elem>)
  {
    forall e :: e in queue ==> IsFilled(lists, e) && At(lists, e).branches == []
  }

  /** How many ids have been given out, level by level. */
  ghost predicate CountOk(w: seq<nat>, id0: nat, c: nat, a: nat, s: State)
    requires c < |w| && a <= |s.queue|
  {
    if c + 1 < |w| then s.next == id0 + NodesAbove(w, c + 1) + (|s.queue| - a)
    else s.next == id0 + NodesAbove(w, |w|)
  }

  /** All of the above; written as one equation so that the verifier carries it as a unit. */
  ghost predicate Inv(w: seq<nat>, id0: nat, c: nat, a: nat, s: State, cur: Option<Elem>, kids: seq<nat>, owed: nat)
  {
    true == (
      && ListsOk(|w|, s.lists, s.fill) && CellsOk(|w|, s.lists, s.fill)
      && QueueOk(|w|, c, a, s) && LevelOk(|w|, c, a, s)
      && BudgetOk(w, c, |s.lists|, s.budget, owed) && StartsOk(w, c, s.lists)
      && IdsOk(id0, s.lists, s.next, s.owner) && TreeOk(s.lists, s.par, cur, kids)
      && FreshOk(s.lists, s.queue) && CountOk(w, id0, c, a, s))
  }

  /** Below the current level the budget left is never negative and never shrinks from one level to the next. */
  lemma BudgetOrdered(w: seq<nat>, width: nat, id0: nat, c: nat, a: nat, s: State, cur: Option<Elem>, kids: seq<nat>,
      owed: nat)
    requires WidthsOk(w, width) && Inv(w, id0, c, a, s, cur, kids, owed)
    ensures |s.budget| == |w| && forall i, j :: c < i <= j < |w| ==> 0 <= s.budget[i] <= s.budget[j]
  {
  }

  // ---- the operations on the state ----

  /** Take the front element and fill its successor. */
  function Descend(s: State, depth: nat): State
    requires s.queue != [] && s.queue[0].list < |s.lists| == |s.fill|
    requires s.queue[0].pos + 1 < |s.lists[s.queue[0].list]|
  {
    var e := s.queue[0];
    var e' := Elem(e.list, e.pos + 1);
    s.(lists := s.lists[e.list := s.lists[e.list][e.pos + 1 := Filled(s.next, depth, [])]],
       queue := s.queue[1..] + [e'], next := s.next + 1,
       fill := s.fill[e.list := s.fill[e.list] + 1], owner := s.owner + [e'])
  }

  /** A list of `len` cells, the first filled. */
  function NewBranch(len: nat, fn: nat, depth: nat): seq<Cell>
    requires len > 0
  {
    [Filled(fn, depth, [])] + seq(len - 1, _ => Placeholder)
  }

  /** Add one branch of `e`. */
  function Branch(s: State, e: Elem, len: nat, depth: nat): State
    requires len > 0
  {
    var e' := Elem(|s.lists|, 0);
    s.(lists := s.lists + [NewBranch(len, s.next, depth)], queue := s.queue + [e'], next := s.next + 1,
       fill := s.fill + [1], owner := s.owner + [e'], par := s.par + [e])
  }

  /** Store the branches made. */
  function SetBranches(lists: seq<seq<Cell>>, e: Elem, bs: seq<nat>): seq<seq<Cell>>
    requires e.list < |lists| && e.pos < |lists[e.list]| && lists[e.list][e.pos].Filled?
  {
    lists[e.list := lists[e.list][e.pos := lists[e.list][e.pos].(branches := bs)]]
  }

  // ---- Descend ----

  lemma DescendLists(w: seq<nat>, id0: nat, c: nat, a: nat, s: State)
    requires Inv(w, id0, c, a, s, None, [], 0) && c + 1 < |w| && a > 0
    ensures var e := s.queue[0];
      && IsFilled(s.lists, e) && At(s.lists, e).depth == c && e.pos + 1 < |s.lists[e.list]|
      && s.fill[e.list] == e.pos + 1 && s.lists[e.list][e.pos + 1].Placeholder?
      && var r := Descend(s, c + 1);
         ListsOk(|w|, r.lists, r.fill) && CellsOk(|w|, r.lists, r.fill)
  {
    assert s.queue[0].list < |s.lists|;
    assert Reached(|w|, s.lists, s.fill, s.queue[0].list) == c;
  }

  lemma OnceRotated(queue: seq<Elem>, x: Elem)
    requires queue != [] && OncePerList(queue) && x.list == queue[0].list
    ensures OncePerList(queue[1..] + [x])
  {
    var r := queue[1..] + [x];
    forall k | 0 <= k < |r|
      ensures Slot(r, r[k].list) == k
    {
      var j := Slot(r, r[k].list);
      assert r[k].list == queue[if k + 1 < |r| then k + 1 else 0].list;
      assert r[j].list == queue[if j + 1 < |r| then j + 1 else 0].list;
    }
  }

  lemma OnceAppended(queue: seq<Elem>, x: Elem)
    requires OncePerList(queue) && forall k :: 0 <= k < |queue| ==> queue[k].list != x.list
    ensures OncePerList(queue + [x])
  {
    var r := queue + [x];
    forall k | 0 <= k < |r|
      ensures Slot(r, r[k].list) == k
    {
      var j := Slot(r, r[k].list);
      if j < |queue| && k < |queue| {
        assert queue[j].list == queue[k].list;
      }
    }
  }

  lemma OnceTail(queue: seq<Elem>)
    requires queue != [] && OncePerList(queue)
    ensures OncePerList(queue[1..])
  {
    var r := queue[1..];
    forall k | 0 <= k < |r|
      ensures Slot(r, r[k].list) == k
    {
      var j := Slot(r, r[k].list);
      assert queue[j + 1].list == queue[k + 1].list;
    }
  }

  lemma DescendQueue(w: seq<nat>, id0: nat, c: nat, a: nat, s: State)
    requires Inv(w, id0, c, a, s, None, [], 0) && c + 1 < |w| && a > 0
    requires s.queue[0].list < |s.lists| && s.queue[0].pos + 1 < |s.lists[s.queue[0].list]|
    ensures QueueOk(|w|, c, a - 1, Descend(s, c + 1))
  {
    var e, r := s.queue[0], Descend(s, c + 1);
    OnceRotated(s.queue, Elem(e.list, e.pos + 1));
    forall k | 0 <= k < |r.queue|
      ensures r.queue[k].list < |r.lists| && r.queue[k].pos + 1 == r.fill[r.queue[k].list]
      ensures Reached(|w|, r.lists, r.fill, r.queue[k].list) == if k < a - 1 then c else c + 1
    {
      if k < |r.queue| - 1 {
        assert r.queue[k] == s.queue[k + 1];
      }
    }
  }

  lemma DescendLevel(w: seq<nat>, id0: nat, c: nat, a: nat, s: State)
    requires Inv(w, id0, c, a, s, None, [], 0) && c + 1 < |w| && a > 0
    requires s.queue[0].list < |s.lists| && s.queue[0].pos + 1 < |s.lists[s.queue[0].list]|
    ensures LevelOk(|w|, c, a - 1, Descend(s, c + 1))
  {
    var e, r := s.queue[0], Descend(s, c + 1);
    forall l | 0 <= l < |r.lists|
      ensures c <= Reached(|w|, r.lists, r.fill, l) <= c + 1
      ensures Reached(|w|, r.lists, r.fill, l) == c ==> Queued(r.queue, a - 1, l)
    {
      assert c <= Reached(|w|, s.lists, s.fill, l) <= c + 1;
      if l == e.list {
        assert Reached(|w|, s.lists, s.fill, l) == c;
      } else if Reached(|w|, r.lists, r.fill, l) == c {
        var k :| 0 <= k < a && s.queue[k].list == l;
        assert r.queue[k - 1] == s.queue[k];
      }
    }
  }

  /** `r` is `lists` with one more filled element, `e`. */
  ghost predicate Extends(lists: seq<seq<Cell>>, r: seq<seq<Cell>>, e: Elem)
  {
    && !IsFilled(lists, e) && IsFilled(r, e)
    && (forall f {:trigger IsFilled(r, f)} :: IsFilled(r, f) <==> f == e || IsFilled(lists, f))
    && (forall f {:trigger At(r, f)} {:trigger At(lists, f)} :: IsFilled(lists, f) && IsFilled(r, f) ==>
      At(r, f) == At(lists, f))
  }

  lemma IdsExtend(id0: nat, lists: seq<seq<Cell>>, r: seq<seq<Cell>>, next: nat, owner: seq<Elem>, e: Elem)
    requires IdsOk(id0, lists, next, owner) && Extends(lists, r, e) && At(r, e).fn == next
    ensures IdsOk(id0, r, next + 1, owner + [e])
  {
    var owner' := owner + [e];
    forall i | 0 <= i < |owner'|
      ensures IdAt(id0, r, owner'[i], i)
    {
      if i < |owner| {
        assert IdAt(id0, lists, owner[i], i);
      }
    }
    forall f | IsFilled(r, f)
      ensures id0 <= At(r, f).fn < next + 1 && owner'[At(r, f).fn - id0] == f
    {
      if f != e {
        assert At(r, f) == At(lists, f);
      }
    }
  }

  lemma DescendExtends(s: State, depth: nat)
    requires s.queue != [] && s.queue[0].list < |s.lists| == |s.fill|
    requires s.queue[0].pos + 1 < |s.lists[s.queue[0].list]| &&
      s.lists[s.queue[0].list][s.queue[0].pos + 1].Placeholder?
    ensures Extends(s.lists, Descend(s, depth).lists, Elem(s.queue[0].list, s.queue[0].pos + 1))
  {
  }

  lemma DescendTree(lists: seq<seq<Cell>>, r: seq<seq<Cell>>, par: seq<Elem>, e: Elem, e': Elem)
    requires TreeOk(lists, par, None, []) && IsFilled(lists, e) && At(lists, e).branches == []
    requires Extends(lists, r, e') && At(r, e').branches == [] && |r| == |lists|
    ensures TreeOk(r, par, Some(e), [])
  {
    forall b | 1 <= b < |par|
      ensures par[b].list < b && IsFilled(r, par[b])
    {
      assert IsFilled(lists, par[b]);
    }
    forall f | IsFilled(r, f)
      ensures if Some(e) == Some(f) then At(r, f).branches == [] && KidsOf(par, f, [])
              else KidsOf(par, f, At(r, f).branches)
    {
      if f != e' {
        assert At(r, f) == At(lists, f);
      }
    }
  }

  lemma DescendFresh(s: State, depth: nat)
    requires s.queue != [] && s.queue[0].list < |s.lists| == |s.fill|
    requires s.queue[0].pos + 1 < |s.lists[s.queue[0].list]| &&
      s.lists[s.queue[0].list][s.queue[0].pos + 1].Placeholder?
    requires FreshOk(s.lists, s.queue)
    ensures FreshOk(Descend(s, depth).lists, Descend(s, depth).queue)
  {
    DescendExtends(s, depth);
    var r := Descend(s, depth);
    forall e | e in r.queue
      ensures IsFilled(r.lists, e) && At(r.lists, e).branches == []
    {
      if e in s.queue {
        assert At(r.lists, e) == At(s.lists, e);
      }
    }
  }

  /** Filling the successor of the front element keeps the invariant. */
  lemma DescendInv(w: seq<nat>, id0: nat, c: nat, a: nat, s: State)
    requires Inv(w, id0, c, a, s, None, [], 0) && c + 1 < |w| && a > 0
    ensures var e := s.queue[0];
      && IsFilled(s.lists, e) && At(s.lists, e).depth == c && e.pos + 1 < |s.lists[e.list]|
      && Inv(w, id0, c, a - 1, Descend(s, c + 1), Some(e), [], 0)
  {
    DescendLists(w, id0, c, a, s);
    var e, r := s.queue[0], Descend(s, c + 1);
    var e' := Elem(e.list, e.pos + 1);
    assert e in s.queue;
    DescendQueue(w, id0, c, a, s);
    DescendLevel(w, id0, c, a, s);
    DescendExtends(s, c + 1);
    IdsExtend(id0, s.lists, r.lists, s.next, s.owner, e');
    DescendTree(s.lists, r.lists, s.par, e, e');
    DescendFresh(s, c + 1);
  }

  // ---- Branch ----

  lemma BranchShape(w: seq<nat>, c: nat, s: State, e: Elem)
    requires c + 1 < |w| && forall k :: 0 <= k <= c ==> w[k] <= |s.lists|
    requires ListsOk(|w|, s.lists, s.fill) && CellsOk(|w|, s.lists, s.fill) && StartsOk(w, c, s.lists)
    ensures var r := Branch(s, e, |w| - c - 1, c + 1);
      ListsOk(|w|, r.lists, r.fill) && CellsOk(|w|, r.lists, r.fill) && StartsOk(w, c, r.lists)
  {
  }

  lemma BranchQueue(d: nat, c: nat, a: nat, s: State, e: Elem)
    requires c + 1 < d && |s.lists| == |s.fill| && QueueOk(d, c, a, s) && LevelOk(d, c, a, s)
    ensures var r := Branch(s, e, d - c - 1, c + 1);
      QueueOk(d, c, a, r) && LevelOk(d, c, a, r)
  {
    var r := Branch(s, e, d - c - 1, c + 1);
    var n := |s.lists|;
    OnceAppended(s.queue, Elem(n, 0));
    assert forall l :: 0 <= l < n ==> Reached(d, r.lists, r.fill, l) == Reached(d, s.lists, s.fill, l);
    forall l | 0 <= l < |r.lists|
      ensures c <= Reached(d, r.lists, r.fill, l) <= c + 1
      ensures Reached(d, r.lists, r.fill, l) == c ==> Queued(r.queue, a, l)
    {
      if l < n && Reached(d, r.lists, r.fill, l) == c {
        var k :| 0 <= k < a && s.queue[k].list == l;
        assert r.queue[k] == s.queue[k];
      }
    }
  }

  lemma BranchExtends(s: State, e: Elem, len: nat, depth: nat)
    requires len > 0
    ensures Extends(s.lists, Branch(s, e, len, depth).lists, Elem(|s.lists|, 0))
    ensures At(Branch(s, e, len, depth).lists, Elem(|s.lists|, 0)) == Filled(s.next, depth, [])
  {
    var r := Branch(s, e, len, depth);
    assert forall l :: 0 <= l < |s.lists| ==> r.lists[l] == s.lists[l];
  }

  lemma KidsGrow(par: seq<Elem>, f: Elem, bs: seq<nat>, e: Elem)
    requires KidsOf(par, f, bs) && |par| > 0 && (f == e && bs != [] ==> bs[0] + |bs| == |par|)
    ensures KidsOf(par + [e], f, if f == e then bs + [|par|] else bs)
  {
  }

  lemma BranchTree(lists: seq<seq<Cell>>, r: seq<seq<Cell>>, par: seq<Elem>, e: Elem, kids: seq<nat>)
    requires TreeOk(lists, par, Some(e), kids) && |lists| > 0 && IsFilled(lists, e)
    requires Extends(lists, r, Elem(|lists|, 0)) && At(r, Elem(|lists|, 0)).branches == [] && |r| == |lists| + 1
    ensures TreeOk(r, par + [e], Some(e), kids + [|lists|])
  {
    var par', n := par + [e], |lists|;
    forall b | 1 <= b < |par'|
      ensures par'[b].list < b && IsFilled(r, par'[b])
    {
      if b < n {
        assert par'[b] == par[b] && IsFilled(lists, par[b]);
      }
    }
    forall f | IsFilled(r, f)
      ensures if Some(e) == Some(f) then At(r, f).branches == [] && KidsOf(par', f, kids + [n])
              else KidsOf(par', f, At(r, f).branches)
    {
      if f == Elem(n, 0) {
        NoKids(lists, par, e, n);
      } else {
        assert At(r, f) == At(lists, f);
        KidsGrow(par, f, if f == e then kids else At(lists, f).branches, e);
      }
    }
  }

  lemma NoKids(lists: seq<seq<Cell>>, par: seq<Elem>, e: Elem, n: nat)
    requires n == |lists| == |par| && e.list < n && forall b :: 1 <= b < |par| ==> par[b].list < b
    ensures KidsOf(par + [e], Elem(n, 0), [])
  {
  }

  lemma BranchFresh(s: State, e: Elem, len: nat, depth: nat)
    requires len > 0 && FreshOk(s.lists, s.queue)
    ensures FreshOk(Branch(s, e, len, depth).lists, Branch(s, e, len, depth).queue)
  {
    BranchExtends(s, e, len, depth);
    var r := Branch(s, e, len, depth);
    forall f | f in r.queue
      ensures IsFilled(r.lists, f) && At(r.lists, f).branches == []
    {
      if f in s.queue {
        assert At(r.lists, f) == At(s.lists, f);
      }
    }
  }

  /** One of the promised branches is made. */
  lemma BranchInv(w: seq<nat>, id0: nat, c: nat, a: nat, s: State, e: Elem, kids: seq<nat>, owed: nat)
    requires Inv(w, id0, c, a, s, Some(e), kids, owed) && IsFilled(s.lists, e)
    requires c + 1 < |w| && owed > 0
    ensures var r := Branch(s, e, |w| - c - 1, c + 1);
      Inv(w, id0, c, a, r, Some(e), kids + [|s.lists|], owed - 1) && IsFilled(r.lists, e)
  {
    var r := Branch(s, e, |w| - c - 1, c + 1);
    BranchShape(w, c, s, e);
    BranchQueue(|w|, c, a, s, e);
    BranchExtends(s, e, |w| - c - 1, c + 1);
    IdsExtend(id0, s.lists, r.lists, s.next, s.owner, Elem(|s.lists|, 0));
    BranchTree(s.lists, r.lists, s.par, e, kids);
    BranchFresh(s, e, |w| - c - 1, c + 1);
  }

  /** Charging the budget for `x` branches that will be made. */
  lemma ChargeInv(w: seq<nat>, id0: nat, c: nat, a: nat, s: State, e: Elem, budget: seq<int>, x: nat)
    requires Inv(w, id0, c, a, s, Some(e), [], 0) && c + 1 < |w| && x <= s.budget[c + 1]
    requires |budget| == |w| && forall k :: 0 <= k < |w| ==> budget[k] == s.budget[k] - if c < k then x else 0
    ensures Inv(w, id0, c, a, s.(budget := budget), Some(e), [], x)
  {
  }

  // ---- storing the branches, popping, changing level ----

  lemma StoreSame(lists: seq<seq<Cell>>, e: Elem, bs: seq<nat>)
    requires IsFilled(lists, e)
    ensures var r := SetBranches(lists, e, bs);
      && |r| == |lists| && (forall l :: 0 <= l < |r| ==> |r[l]| == |lists[l]|)
      && (forall f {:trigger IsFilled(r, f)} :: IsFilled(r, f) <==> IsFilled(lists, f))
      && (forall f {:trigger At(r, f)} :: IsFilled(lists, f) && IsFilled(r, f) ==>
            At(r, f) == if f == e then At(lists, e).(branches := bs) else At(lists, f))
  {
  }

  lemma StoreTree(lists: seq<seq<Cell>>, par: seq<Elem>, e: Elem, kids: seq<nat>)
    requires TreeOk(lists, par, Some(e), kids) && IsFilled(lists, e)
    ensures TreeOk(SetBranches(lists, e, kids), par, None, [])
  {
    StoreSame(lists, e, kids);
    var r := SetBranches(lists, e, kids);
    forall f | IsFilled(r, f)
      ensures KidsOf(par, f, At(r, f).branches)
    {
      assert IsFilled(lists, f);
    }
  }

  /** Only the branches of a node change: the same nodes are filled with the same functions. */
  ghost predicate SameNodes(lists: seq<seq<Cell>>, r: seq<seq<Cell>>)
  {
    && (forall f {:trigger IsFilled(r, f)} {:trigger IsFilled(lists, f)} :: IsFilled(r, f) <==> IsFilled(lists, f))
    && (forall f {:trigger At(r, f)} {:trigger At(lists, f)} :: IsFilled(lists, f) && IsFilled(r, f) ==>
      At(r, f).fn == At(lists, f).fn)
  }

  lemma StoreIds(id0: nat, lists: seq<seq<Cell>>, r: seq<seq<Cell>>, next: nat, owner: seq<Elem>)
    requires IdsOk(id0, lists, next, owner) && SameNodes(lists, r)
    ensures IdsOk(id0, r, next, owner)
  {
    forall i | 0 <= i < |owner|
      ensures IdAt(id0, r, owner[i], i)
    {
      assert IdAt(id0, lists, owner[i], i);
    }
    forall f | IsFilled(r, f)
      ensures id0 <= At(r, f).fn < next && owner[At(r, f).fn - id0] == f
    {
      assert At(r, f).fn == At(lists, f).fn;
    }
  }

  lemma StoreShape(w: seq<nat>, c: nat, a: nat, s: State, e: Elem, kids: seq<nat>)
    requires IsFilled(s.lists, e) && ListsOk(|w|, s.lists, s.fill) && CellsOk(|w|, s.lists, s.fill)
    requires QueueOk(|w|, c, a, s) && LevelOk(|w|, c, a, s) && StartsOk(w, c, s.lists)
    ensures var r := s.(lists := SetBranches(s.lists, e, kids));
      && ListsOk(|w|, r.lists, r.fill) && CellsOk(|w|, r.lists, r.fill)
      && QueueOk(|w|, c, a, r) && LevelOk(|w|, c, a, r) && StartsOk(w, c, r.lists)
  {
    var r := s.(lists := SetBranches(s.lists, e, kids));
    assert forall l :: 0 <= l < |s.lists| ==> |r.lists[l]| == |s.lists[l]|;
    assert forall l :: 0 <= l < |s.lists| ==> Reached(|w|, r.lists, r.fill, l) == Reached(|w|, s.lists, s.fill, l);
  }

  lemma StoreFresh(s: State, e: Elem, kids: seq<nat>)
    requires FreshOk(s.lists, s.queue) && e !in s.queue && IsFilled(s.lists, e)
    ensures FreshOk(SetBranches(s.lists, e, kids), s.queue)
  {
    StoreSame(s.lists, e, kids);
  }

  lemma StoreInv(w: seq<nat>, id0: nat, c: nat, a: nat, s: State, e: Elem, kids: seq<nat>)
    requires Inv(w, id0, c, a, s, Some(e), kids, 0) && IsFilled(s.lists, e) && e !in s.queue
    ensures Inv(w, id0, c, a, s.(lists := SetBranches(s.lists, e, kids)), None, [], 0)
  {
    StoreShape(w, c, a, s, e, kids);
    StoreSame(s.lists, e, kids);
    StoreIds(id0, s.lists, SetBranches(s.lists, e, kids), s.next, s.owner);
    StoreTree(s.lists, s.par, e, kids);
    StoreFresh(s, e, kids);
  }

  /** When the last node of a level has been expanded and its budget used up, the next level begins. */
  lemma NextLevel(w: seq<nat>, id0: nat, c: nat, s: State)
    requires Inv(w, id0, c, 0, s, None, [], 0) && c + 1 < |w| && |s.lists| == w[c + 1]
    requires c + 2 < |w| ==> w[c + 1] <= w[c + 2]
    ensures Inv(w, id0, c + 1, |s.queue|, s, None, [], 0)
  {
    NodesAboveStep(w, c + 1);
    forall l | 0 <= l < |s.lists|
      ensures Reached(|w|, s.lists, s.fill, l) == c + 1 && Queued(s.queue, |s.queue|, l)
    {
      assert c <= Reached(|w|, s.lists, s.fill, l) <= c + 1;
      AllQueued(s.queue, |s.lists|, l);
    }
  }

  /** n distinct list numbers below n: every one occurs. */
  lemma AllQueued(queue: seq<Elem>, n: nat, l: nat)
    requires |queue| == n && l < n
    requires OncePerList(queue) && forall k :: 0 <= k < n ==> queue[k].list < n
    ensures Queued(queue, n, l)
  {
    ListSetSize(queue);
    SubsetSize(ListSet(queue), Range(n));
    assert l in ListSet(queue);
  }

  ghost function ListSet(queue: seq<Elem>): set<nat>
  {
    set k | 0 <= k < |queue| :: queue[k].list
  }

  lemma OnceFront(queue: seq<Elem>)
    requires queue != [] && OncePerList(queue)
    ensures OncePerList(queue[..|queue| - 1]) && queue[|queue| - 1].list !in ListSet(queue[..|queue| - 1])
  {
    var r := queue[..|queue| - 1];
    forall k | 0 <= k < |r|
      ensures Slot(r, r[k].list) == k && r[k].list != queue[|r|].list
    {
      var j := Slot(r, r[k].list);
      assert queue[j].list == queue[k].list;
    }
  }

  lemma {:induction false} ListSetSize(queue: seq<Elem>)
    requires OncePerList(queue)
    ensures |ListSet(queue)| == |queue|
  {
    if queue != [] {
      var n := |queue| - 1;
      OnceFront(queue);
      ListSetSize(queue[..n]);
      assert ListSet(queue) == ListSet(queue[..n]) + {queue[n].list};
    }
  }

  ghost function Range(n: nat): (r: set<nat>)
    ensures |r| == n && forall i: nat :: i in r <==> i < n
  {
    if n == 0 then {} else Range(n - 1) + {n - 1}
  }

  lemma SubsetSize<T>(a: set<T>, b: set<T>)
    requires a <= b && |a| == |b|
    ensures a == b
  {
    assert b == a + (b - a);
  }

  /** On the last level the queue is only emptied. */
  lemma PopInv(w: seq<nat>, id0: nat, c: nat, s: State)
    requires Inv(w, id0, c, |s.queue|, s, None, [], 0) && c + 1 == |w| && s.queue != []
    ensures Inv(w, id0, c, |s.queue| - 1, s.(queue := s.queue[1..]), None, [], 0)
  {
    var r := s.(queue := s.queue[1..]);
    OnceTail(s.queue);
    assert forall l :: 0 <= l < |s.lists| ==> Reached(|w|, r.lists, r.fill, l) == Reached(|w|, s.lists, s.fill, l);
    forall e | e in r.queue
      ensures e in s.queue
    {
    }
  }

  // ---- one turn of the loop ----

  /** The budget with `x` taken off every level from `from` on. */
  ghost function Charged(budget: seq<int>, from: nat, x: int): seq<int>
  {
    seq(|budget|, k requires 0 <= k < |budget| => budget[k] - if from <= k then x else 0)
  }

  /** The list numbers n, n + 1, ..., n + x - 1. */
  ghost function Numbers(n: nat, x: nat): seq<nat>
  {
    seq(x, i => n + i)
  }

  ghost function BranchMany(s: State, e: Elem, len: nat, depth: nat, x: nat): State
    requires len > 0
  {
    if x == 0 then s else Branch(BranchMany(s, e, len, depth, x - 1), e, len, depth)
  }

  lemma {:induction false} BranchManyKeeps(s: State, e: Elem, len: nat, depth: nat, x: nat)
    requires len > 0 && IsFilled(s.lists, e)
    ensures var r := BranchMany(s, e, len, depth, x);
      && IsFilled(r.lists, e) && At(r.lists, e) == At(s.lists, e) && (e !in s.queue ==> e !in r.queue)
      && |r.lists| == |s.lists| + x && |r.queue| == |s.queue| + x && r.next == s.next + x && r.budget == s.budget
    decreases x
  {
    if x > 0 {
      BranchManyKeeps(s, e, len, depth, x - 1);
    }
  }

  /** The queue is not empty and all nodes in it are in place. */
  ghost predicate Ready(s: State)
  {
    s.queue != [] && |s.lists| == |s.fill| && forall k :: 0 <= k < |s.queue| ==> IsFilled(s.lists, s.queue[k])
  }

  /** The front element has a successor, and there is a next level. */
  ghost predicate Expandable(s: State, depth: nat)
  {
    Ready(s) && s.queue[0].pos + 1 < |s.lists[s.queue[0].list]| && depth + 1 < |s.budget|
  }

  /** The state after expanding the front node of level `depth` with `x` branches. */
  ghost function ExpandBy(s: State, depth: nat, x: nat): State
    requires Expandable(s, depth)
  {
    var e := s.queue[0];
    var s1 := Descend(s, depth + 1);
    var s2 := s1.(budget := Charged(s.budget, depth + 1, x));
    var s3 := BranchMany(s2, e, |s.budget| - depth - 1, depth + 1, x);
    BranchManyKeeps(s2, e, |s.budget| - depth - 1, depth + 1, x);
    s3.(lists := SetBranches(s3.lists, e, Numbers(|s.lists|, x)))
  }

  /** `x` branches of `e`, numbered from `n` on, have been made and `owed` are still promised; carried as a unit. */
  ghost predicate Owing(w: seq<nat>, id0: nat, c: nat, a: nat, s: State, e: Elem, n: nat, x: nat, owed: nat)
  {
    true == (
      && Inv(w, id0, c, a, s, Some(e), Numbers(n, x), owed)
      && IsFilled(s.lists, e) && c + 1 < |w| && |s.lists| == n + x)
  }

  lemma BranchNext(w: seq<nat>, id0: nat, c: nat, a: nat, s: State, e: Elem, n: nat, x: nat, owed: nat)
    requires Owing(w, id0, c, a, s, e, n, x, owed + 1)
    ensures Owing(w, id0, c, a, Branch(s, e, |w| - c - 1, c + 1), e, n, x + 1, owed)
  {
    BranchInv(w, id0, c, a, s, e, Numbers(n, x), owed + 1);
    assert Numbers(n, x + 1) == Numbers(n, x) + [n + x];
  }

  /** After `i` of `x` promised branches, `x - i` are still owed. */
  lemma {:induction false} SomeBranches(w: seq<nat>, id0: nat, c: nat, a: nat, s: State, e: Elem, x: nat, i: nat)
    requires c + 1 < |w| && Owing(w, id0, c, a, s, e, |s.lists|, 0, x) && i <= x
    ensures Owing(w, id0, c, a, BranchMany(s, e, |w| - c - 1, c + 1, i), e, |s.lists|, i, x - i)
    decreases i
  {
    if i > 0 {
      SomeBranches(w, id0, c, a, s, e, x, i - 1);
      BranchNext(w, id0, c, a, BranchMany(s, e, |w| - c - 1, c + 1, i - 1), e, |s.lists|, i - 1, x - i);
    }
  }

  lemma NoBranch(w: seq<nat>, id0: nat, c: nat, a: nat, s: State, e: Elem, owed: nat)
    requires Inv(w, id0, c, a, s, Some(e), [], owed) && IsFilled(s.lists, e) && c + 1 < |w|
    ensures Owing(w, id0, c, a, s, e, |s.lists|, 0, owed)
  {
    assert Numbers(|s.lists|, 0) == [];
  }

  lemma BranchManyInv(w: seq<nat>, id0: nat, c: nat, a: nat, s: State, e: Elem, x: nat)
    requires Inv(w, id0, c, a, s, Some(e), [], x) && IsFilled(s.lists, e)
    requires c + 1 < |w|
    ensures Inv(w, id0, c, a, BranchMany(s, e, |w| - c - 1, c + 1, x), Some(e), Numbers(|s.lists|, x), 0)
  {
    NoBranch(w, id0, c, a, s, e, x);
    SomeBranches(w, id0, c, a, s, e, x, x);
  }

  lemma CanExpand(w: seq<nat>, id0: nat, c: nat, a: nat, s: State)
    requires Inv(w, id0, c, a, s, None, [], 0) && c + 1 < |w| && a > 0
    ensures Expandable(s, c) && s.budget[c + 1] >= 0
    ensures s.next + 1 + s.budget[c + 1] <= id0 + NodesAbove(w, |w|)
    ensures a == 1 && |s.queue| > 1 ==> At(s.lists, s.queue[1]).depth == c + 1
  {
    DescendLists(w, id0, c, a, s);
    NodesAboveStep(w, c + 1);
    NodesAboveMono(w, c + 2, |w|);
    forall k | 0 <= k < |s.queue|
      ensures IsFilled(s.lists, s.queue[k]) && At(s.lists, s.queue[k]).depth == if k < a then c else c + 1
    {
      assert s.queue[k].list < |s.lists|;
    }
  }

  lemma ExpandChild(w: seq<nat>, id0: nat, c: nat, a: nat, s: State, x: nat)
    requires Inv(w, id0, c, a, s, None, [], 0) && c + 1 < |w| && a > 0 && x <= s.budget[c + 1]
    requires Expandable(s, c)
    ensures var s2 := Descend(s, c + 1).(budget := Charged(s.budget, c + 1, x));
      && Inv(w, id0, c, a - 1, s2, Some(s.queue[0]), [], x)
      && IsFilled(s2.lists, s.queue[0]) && s.queue[0] !in s2.queue
  {
    DescendInv(w, id0, c, a, s);
    FrontGone(w, id0, c, a, s);
    ChargeInv(w, id0, c, a - 1, Descend(s, c + 1), s.queue[0], Charged(s.budget, c + 1, x), x);
  }

  lemma ExpandRest(w: seq<nat>, id0: nat, c: nat, a: nat, s: State, e: Elem, x: nat)
    requires Inv(w, id0, c, a, s, Some(e), [], x) && c + 1 < |w| && IsFilled(s.lists, e) && e !in s.queue
    ensures var r := BranchMany(s, e, |w| - c - 1, c + 1, x);
      && IsFilled(r.lists, e)
      && Inv(w, id0, c, a, r.(lists := SetBranches(r.lists, e, Numbers(|s.lists|, x))), None, [], 0)
  {
    var r := BranchMany(s, e, |w| - c - 1, c + 1, x);
    BranchManyKeeps(s, e, |w| - c - 1, c + 1, x);
    assert Inv(w, id0, c, a, r, Some(e), Numbers(|s.lists|, x), 0) by {
      BranchManyInv(w, id0, c, a, s, e, x);
    }
    StoreInv(w, id0, c, a, r, e, Numbers(|s.lists|, x));
  }

  /** A turn of the loop keeps the invariant, whatever number of branches within the budget is chosen. */
  lemma ExpandInv(w: seq<nat>, id0: nat, c: nat, a: nat, s: State, x: nat)
    requires Inv(w, id0, c, a, s, None, [], 0) && c + 1 < |w| && a > 0 && x <= s.budget[c + 1]
    requires Expandable(s, c)
    ensures Inv(w, id0, c, a - 1, ExpandBy(s, c, x), None, [], 0)
  {
    var e, s2 := s.queue[0], Descend(s, c + 1).(budget := Charged(s.budget, c + 1, x));
    ExpandChild(w, id0, c, a, s, x);
    ExpandRest(w, id0, c, a - 1, s2, e, x);
    assert |s.budget| == |w| && |s2.lists| == |s.lists|;
    var r := BranchMany(s2, e, |w| - c - 1, c + 1, x);
    assert ExpandBy(s, c, x) == r.(lists := SetBranches(r.lists, e, Numbers(|s2.lists|, x)));
  }

  lemma ExpandSizes(s: State, depth: nat, x: nat)
    requires Expandable(s, depth)
    ensures var r := ExpandBy(s, depth, x);
      |r.lists| == |s.lists| + x && |r.queue| == |s.queue| + x && r.next == s.next + 1 + x
  {
    var s2 := Descend(s, depth + 1).(budget := Charged(s.budget, depth + 1, x));
    BranchManyKeeps(s2, s.queue[0], |s.budget| - depth - 1, depth + 1, x);
  }

  lemma FrontNode(w: seq<nat>, id0: nat, c: nat, a: nat, s: State)
    requires Inv(w, id0, c, a, s, None, [], 0) && s.queue != [] && a > 0
    ensures IsFilled(s.lists, s.queue[0]) && At(s.lists, s.queue[0]).depth == c
    ensures c + 1 <= |w| == |s.budget| && (c + 1 == |w| ==> a == |s.queue|)
  {
    assert s.queue[0].list < |s.lists|;
  }

  /** The last node of a level uses up what is left of the next level's budget. */
  lemma LevelFull(w: seq<nat>, id0: nat, c: nat, s: State, x: nat)
    requires Inv(w, id0, c, 1, s, None, [], 0) && c + 1 < |w| && Expandable(s, c) && x == s.budget[c + 1]
    ensures |ExpandBy(s, c, x).lists| == w[c + 1]
  {
    ExpandSizes(s, c, x);
  }

  /** A turn of the loop, with the change of level after the last node of a level. */
  lemma Turn(w: seq<nat>, width: nat, id0: nat, c: nat, a: nat, s: State, x: nat) returns (c': nat, a': nat)
    requires WidthsOk(w, width) && Inv(w, id0, c, a, s, None, [], 0) && c + 1 < |w| && a > 0
    requires Expandable(s, c) && x <= s.budget[c + 1] && (a == 1 ==> x == s.budget[c + 1])
    ensures var r := ExpandBy(s, c, x);
      && Inv(w, id0, c', a', r, None, [], 0) && a' > 0
      && r.next <= id0 + NodesAbove(w, |w|)
      && |r.queue| == |s.queue| + x && r.next == s.next + 1 + x
  {
    var r := ExpandBy(s, c, x);
    ExpandSizes(s, c, x);
    ExpandInv(w, id0, c, a, s, x);
    c', a' := c, a - 1;
    WithinSize(w, id0, c, a', r, None, [], 0);
    if a == 1 {
      LevelFull(w, id0, c, s, x);
      NextLevel(w, id0, c, r);
      c', a' := c + 1, |r.queue|;
    }
  }

  // ---- the builder ----

  /** A finished workflow: no placeholder, every list reaches the last level, ids and branches as they should be. */
  ghost predicate Complete(w: seq<nat>, id0: nat, next: nat, lists: seq<seq<Cell>>, owner: seq<Elem>, par: seq<Elem>)
  {
    && |w| > 0 && |lists| == w[|w| - 1] > 0 && |lists[0]| == |w|
    && (forall l :: 0 <= l < |lists| ==> 1 <= |lists[l]| <= |w|)
    && (forall l, p :: 0 <= l < |lists| && 0 <= p < |lists[l]| ==>
          lists[l][p].Filled? && lists[l][p].depth == StartOf(|w|, lists[l]) + p)
    && (forall l, k :: 0 <= l < |lists| && 0 <= k < |w| ==> (StartOf(|w|, lists[l]) <= k <==> l < w[k]))
    && next == id0 + NodesAbove(w, |w|)
    && IdsOk(id0, lists, next, owner) && TreeOk(lists, par, None, [])
  }

  /** When the queue has run empty, the workflow is finished. */
  lemma Done(w: seq<nat>, id0: nat, c: nat, a: nat, s: State)
    requires Inv(w, id0, c, a, s, None, [], 0) && s.queue == []
    ensures Complete(w, id0, s.next, s.lists, s.owner, s.par)
    ensures forall i :: 0 <= i < |s.budget| ==> s.budget[i] == 0
  {
    assert c + 1 == |w|;
    forall l | 0 <= l < |s.lists|
      ensures s.fill[l] == |s.lists[l]|
    {
      assert c <= Reached(|w|, s.lists, s.fill, l) <= c + 1;
    }
  }

  /** At any time no more ids have been given out than the workflow will have nodes. */
  lemma WithinSize(w: seq<nat>, id0: nat, c: nat, a: nat, s: State, cur: Option<Elem>, kids: seq<nat>, owed: nat)
    requires Inv(w, id0, c, a, s, cur, kids, owed)
    ensures s.next <= id0 + NodesAbove(w, |w|)
    ensures c + 1 < |w| ==> s.next + a + owed <= id0 + NodesAbove(w, |w|)
  {
    if c + 1 < |w| {
      NodesAboveStep(w, c + 1);
      NodesAboveMono(w, c + 2, |w|);
    }
  }

  lemma FrontGone(w: seq<nat>, id0: nat, c: nat, a: nat, s: State)
    requires Inv(w, id0, c, a, s, None, [], 0) && c + 1 < |w| && a > 0
    requires s.queue[0].list < |s.lists| && s.queue[0].pos + 1 < |s.lists[s.queue[0].list]|
    ensures s.queue[0] !in Descend(s, c + 1).queue
  {
    var e, q := s.queue[0], Descend(s, c + 1).queue;
    forall k | 0 <= k < |q|
      ensures q[k] != e
    {
      if k < |q| - 1 {
        assert q[k] == s.queue[k + 1];
      }
    }
  }

  lemma StartInv(w: seq<nat>, width: nat, id0: nat, s: State)
    requires WidthsOk(w, width)
    requires s.lists == [NewBranch(|w|, id0, 0)] && s.queue == [Elem(0, 0)] && s.next == id0 + 1
    requires |s.budget| == |w| && forall i :: 0 <= i < |w| ==> s.budget[i] == w[i] - 1
    requires s.fill == [1] && s.owner == [Elem(0, 0)] && s.par == [Elem(0, 0)]
    ensures Inv(w, id0, 0, 1, s, None, [], 0)
  {
    assert IdAt(id0, s.lists, Elem(0, 0), 0);
    NodesAboveStep(w, 0);
    assert Reached(|w|, s.lists, s.fill, 0) == 0;
    assert s.queue[0].list == 0;
  }
}
