/**
 The breadth-first builder itself, in place and for any width and depth whatever: where the code would index out of
 range, draw from an empty range or go past the end of a list, a method returns not ok.
 */
module DagBuilder {
  import opened Arithmetic
  import opened SeqSums
  import opened DagGenerator

  /** The number of nodes per level; None stands for a draw from an empty range. */
  method GenerateNodeDistribution(maxWidth: int, maxDepth: int) returns (r: Option<seq<int>>, ghost w: seq<nat>)
    ensures r.None? <==> maxDepth >= 3 && maxWidth < 1
    ensures maxWidth >= 1 && maxDepth >= 2 ==> r.value == w && |w| == maxDepth && WidthsOk(w, maxWidth)
    ensures r.Some? && (maxWidth < 1 || maxDepth < 2) ==> r.value == [1, maxWidth]
  {
    var widthList: seq<int> := [1];
    var i := 1;
    while i < maxDepth - 1
      invariant i == |widthList| && widthList[0] == 1 && (i > 1 ==> i < maxDepth && maxWidth >= 1)
      invariant maxWidth >= 1 ==> forall j :: 0 <= j < i ==> 1 <= widthList[j] <= maxWidth
      invariant forall j, k :: 0 <= j <= k < i ==> widthList[j] <= widthList[k]
      decreases maxDepth - i
    {
      if maxWidth - widthList[i - 1] + 1 <= 0 {
        return None, [];
      }
      var draw: nat :| draw <= maxWidth - widthList[i - 1];
      widthList := widthList + [draw + widthList[i - 1]];
      i := i + 1;
    }
    widthList := widthList + [maxWidth];
    r, w := Some(widthList), if maxWidth >= 1 then widthList else [];
  }

  /** Take `x` off the budget of every level from `from` on. */
  method Charge(widthList: array<int>, from: nat, x: int)
    requires from <= widthList.Length
    modifies widthList
    ensures widthList[..] == Charged(old(widthList[..]), from, x)
  {
    for i := from to widthList.Length
      invariant forall k :: 0 <= k < widthList.Length ==>
        widthList[k] == old(widthList[k]) - if from <= k < i then x else 0
    {
      widthList[i] := widthList[i] - x;
    }
  }

  /** The lists of one workflow, filled in place. */
  class Workflow {
    var lists: seq<seq<Cell>>
    ghost var fill: seq<nat>
    ghost var owner: seq<Elem>
    ghost var par: seq<Elem>

    ghost function View(budget: seq<int>, queue: seq<Elem>, next: nat): State
      reads this
    {
      State(lists, budget, queue, next, fill, owner, par)
    }

    /** A list of `length` nodes, the first holding function `functionID`, the others placeholders. */
    constructor (functionID: nat, length: nat)
      requires length > 0
      ensures lists == [NewBranch(length, functionID, 0)]
      ensures fill == [1] && owner == [Elem(0, 0)] && par == [Elem(0, 0)]
    {
      lists := [NewBranch(length, functionID, 0)];
      fill, owner, par := [1], [Elem(0, 0)], [Elem(0, 0)];
    }

    /** createNewBranch: a list from the next level down to the last, with its first node in place. */
    method CreateNewBranch(depth: nat, maxDepth: nat, functionID: nat, functions: nat, ghost e: Elem)
      returns (ok: bool, branch: nat)
      requires depth + 1 < maxDepth
      modifies this
      ensures ok <==> functionID < functions
      ensures ok ==>
        branch == |old(lists)| && lists == old(lists) + [NewBranch(maxDepth - depth - 1, functionID, depth + 1)]
      ensures ok ==> fill == old(fill) + [1] && owner == old(owner) + [Elem(branch, 0)] && par == old(par) + [e]
    {
      var list: seq<Cell> := [];
      for i := depth + 1 to maxDepth
        invariant list == seq(i - depth - 1, _ => Placeholder)
      {
        list := list + [Placeholder];
      }
      branch := |lists|;
      ok := functionID < functions;
      if ok {
        list := list[0 := Filled(functionID, depth + 1, [])];
        assert list == NewBranch(maxDepth - depth - 1, functionID, depth + 1);
        lists := lists + [list];
        fill, owner, par := fill + [1], owner + [Elem(branch, 0)], par + [e];
      }
    }

    /** Create and queue `additional` branches of `e`. */
    method MakeBranches(nodeQueue: seq<Elem>, e: Elem, depth: nat, maxDepth: nat, functionID: nat, functions: nat,
        additional: nat, ghost budget: seq<int>)
      returns (ok: bool, nodeList: seq<nat>, queue: seq<Elem>)
      requires depth + 1 < maxDepth
      modifies this
      ensures ok <==> additional == 0 || functionID + additional <= functions
      ensures ok ==> nodeList == Numbers(|old(lists)|, additional)
      ensures ok ==>
        View(budget, queue, functionID + additional)
        == BranchMany(old(View(budget, nodeQueue, functionID)), e, maxDepth - depth - 1, depth + 1, additional)
    {
      ghost var s := View(budget, nodeQueue, functionID);
      nodeList, queue := [], nodeQueue;
      while |nodeList| < additional
        invariant |nodeList| <= additional && nodeList == Numbers(|s.lists|, |nodeList|)
        invariant |lists| == |s.lists| + |nodeList| && (nodeList != [] ==> functionID + |nodeList| <= functions)
        invariant View(budget, queue, functionID + |nodeList|)
               == BranchMany(s, e, maxDepth - depth - 1, depth + 1, |nodeList|)
      {
        var made, newBranch := CreateNewBranch(depth, maxDepth, functionID + |nodeList|, functions, e);
        if !made {
          return false, nodeList, queue;
        }
        nodeList := nodeList + [newBranch];
        queue := queue + [Elem(newBranch, 0)];
      }
      ok := true;
    }

    /** addBranches: choose how many branches to add below `e`, charge the budget, create and queue them. */
    method AddBranches(nodeQueue: seq<Elem>, widthList: array<int>, e: Elem, depth: nat, functionID: nat,
        functions: nat)
      returns (ok: bool, nodeList: seq<nat>, queue: seq<Elem>)
      requires depth + 1 < widthList.Length && 0 < widthList[depth + 1]
      requires nodeQueue != [] ==> nodeQueue[0].list < |lists| && nodeQueue[0].pos < |lists[nodeQueue[0].list]|
      modifies this, widthList
      ensures !ok ==> functionID + old(widthList[depth + 1]) > functions
      ensures ok ==> |nodeList| <= old(widthList[depth + 1]) && nodeList == Numbers(|old(lists)|, |nodeList|)
      ensures ok && (nodeQueue == [] || old(DepthOf(nodeQueue[0])) > depth) ==> |nodeList| == old(widthList[depth + 1])
      ensures ok ==> nodeList == [] || functionID + |nodeList| <= functions
      ensures ok ==> widthList[..] == Charged(old(widthList[..]), depth + 1, |nodeList|)
      ensures ok ==>
        View(widthList[..], queue, functionID + |nodeList|)
        == BranchMany(old(View(widthList[..], nodeQueue, functionID)).(budget := widthList[..]),
                      e, widthList.Length - depth - 1, depth + 1, |nodeList|)
    {
      var additionalBranches: nat;
      if |nodeQueue| < 1 || DepthOf(nodeQueue[0]) > depth {
        additionalBranches := widthList[depth + 1];
      } else {
        additionalBranches :| 0 <= additionalBranches <= widthList[depth + 1];
      }
      Charge(widthList, depth + 1, additionalBranches);
      ok, nodeList, queue := MakeBranches(nodeQueue, e, depth, widthList.Length, functionID, functions,
        additionalBranches, widthList[..]);
    }

    /** The depth of a filled node, -1 for a placeholder. */
    function DepthOf(e: Elem): int
      requires e.list < |lists| && e.pos < |lists[e.list]|
      reads this
    {
      if lists[e.list][e.pos].Filled? then lists[e.list][e.pos].depth else -1
    }
  }

  /**
   What a turn on a node of level `depth` may do: so many branches, and all that are left after the level's last
   node.
   */
  ghost predicate Allowed(s: State, depth: nat, x: nat)
    requires Expandable(s, depth)
  {
    && x <= Max(0, s.budget[depth + 1])
    && (|s.queue| == 1 || At(s.lists, s.queue[1]).depth > depth ==> x == Max(0, s.budget[depth + 1]))
  }

  /** The front element leaves the queue, its successor gets the next function and is queued. */
  method FillNext(wf: Workflow, nodeQueue: seq<Elem>, depth: nat, functionID: nat, ghost budget: seq<int>)
    returns (queue: seq<Elem>)
    requires nodeQueue != [] && nodeQueue[0].list < |wf.lists| == |wf.fill|
    requires nodeQueue[0].pos + 1 < |wf.lists[nodeQueue[0].list]|
    modifies wf
    ensures wf.View(budget, queue, functionID + 1) == Descend(old(wf.View(budget, nodeQueue, functionID)), depth + 1)
  {
    var e := nodeQueue[0];
    wf.lists := wf.lists[e.list := wf.lists[e.list][e.pos + 1 := Filled(functionID, depth + 1, [])]];
    wf.fill := wf.fill[e.list := wf.fill[e.list] + 1];
    wf.owner := wf.owner + [Elem(e.list, e.pos + 1)];
    queue := nodeQueue[1..] + [Elem(e.list, e.pos + 1)];
  }

  /** One turn of the breadth-first loop on a node that is not on the last level. */
  method Expand(wf: Workflow, nodeQueue: seq<Elem>, widthList: array<int>, depth: nat, functionID: nat, functions: nat)
    returns (ok: bool, queue: seq<Elem>, next: nat)
    requires Ready(wf.View(widthList[..], nodeQueue, functionID))
    modifies wf, widthList
    ensures var s := old(wf.View(widthList[..], nodeQueue, functionID));
      !ok ==> !Expandable(s, depth) || functionID + 1 + Max(0, s.budget[depth + 1]) > functions
    ensures var s := old(wf.View(widthList[..], nodeQueue, functionID));
      ok ==>
        && Expandable(s, depth) && functionID < next <= functions && Allowed(s, depth, next - functionID - 1)
        && wf.View(widthList[..], queue, next) == ExpandBy(s, depth, next - functionID - 1)
  {
    ghost var s := wf.View(widthList[..], nodeQueue, functionID);
    var e := nodeQueue[0];
    ok, queue, next := false, nodeQueue, functionID;
    assert IsFilled(s.lists, e);
    if functionID >= functions || e.pos + 1 >= |wf.lists[e.list]| || depth + 1 >= widthList.Length {
      return;
    }
    queue := FillNext(wf, nodeQueue, depth, functionID, widthList[..]);
    next := functionID + 1;
    ghost var s1 := wf.View(widthList[..], queue, next);
    SecondDepth(s, depth);
    var nodeList := [];
    if widthList[depth + 1] > 0 {
      ok, nodeList, queue := wf.AddBranches(queue, widthList, e, depth, next, functions);
      if !ok {
        return;
      }
      next := next + |nodeList|;
    } else {
      assert widthList[..] == Charged(s.budget, depth + 1, 0);
      assert nodeList == Numbers(|s1.lists|, 0);
    }
    BranchManyKeeps(s1.(budget := widthList[..]), e, widthList.Length - depth - 1, depth + 1, |nodeList|);
    wf.lists := SetBranches(wf.lists, e, nodeList);
    ok := true;
  }

  /** The node that comes next is below the level if it was so before, or is the one just filled. */
  lemma SecondDepth(s: State, depth: nat)
    requires Expandable(s, depth)
    ensures var r := Descend(s, depth + 1);
      && IsFilled(r.lists, r.queue[0])
      && (|s.queue| == 1 || At(s.lists, s.queue[1]).depth > depth ==> At(r.lists, r.queue[0]).depth > depth)
  {
    assert |s.queue| > 1 ==> IsFilled(s.lists, s.queue[1]);
  }

  /**
   The result of a turn on a node of level `depth`: a failure, or an allowed expansion; one equation, carried as a
   unit.
   */
  ghost predicate Expanded(s: State, depth: nat, functions: nat, ok: bool, r: State)
  {
    true == (
      && (!ok ==> !Expandable(s, depth) || s.next + 1 + Max(0, s.budget[depth + 1]) > functions)
      && (ok ==>
            && Expandable(s, depth) && s.next < r.next <= functions && Allowed(s, depth, r.next - s.next - 1)
            && r == ExpandBy(s, depth, r.next - s.next - 1)))
  }

  /** The result of a turn of the loop: a node of the last level is dropped, any other one expanded. */
  ghost predicate Visited(s: State, functions: nat, maxDepth: int, ok: bool, r: State)
    requires Ready(s)
  {
    assert IsFilled(s.lists, s.queue[0]);
    var depth := At(s.lists, s.queue[0]).depth;
    if depth == maxDepth - 1 then ok && r == s.(queue := s.queue[1..]) else Expanded(s, depth, functions, ok, r)
  }

  /** One turn of the loop. */
  method Visit(wf: Workflow, nodeQueue: seq<Elem>, widthList: array<int>, functionID: nat, functions: nat,
      maxDepth: int)
    returns (ok: bool, queue: seq<Elem>, next: nat)
    requires Ready(wf.View(widthList[..], nodeQueue, functionID))
    modifies wf, widthList
    ensures Visited(old(wf.View(widthList[..], nodeQueue, functionID)), functions, maxDepth, ok,
                    wf.View(widthList[..], queue, next))
  {
    ghost var s := wf.View(widthList[..], nodeQueue, functionID);
    assert IsFilled(s.lists, nodeQueue[0]);
    var node := wf.lists[nodeQueue[0].list][nodeQueue[0].pos];
    if node.depth == maxDepth - 1 {
      return true, nodeQueue[1..], functionID;
    }
    ok, queue, next := Expand(wf, nodeQueue, widthList, node.depth, functionID, functions);
  }

  // ---- sizes that can be built ----

  lemma {:induction false} BranchManyBudget(s: State, b: seq<int>, e: Elem, len: nat, depth: nat, x: nat)
    requires len > 0
    ensures BranchMany(s.(budget := b), e, len, depth, x) == BranchMany(s, e, len, depth, x).(budget := b)
    decreases x
  {
    if x > 0 {
      BranchManyBudget(s, b, e, len, depth, x - 1);
    }
  }

  /** A turn: fill the successor, make the branches, charge the budget and store the branches. */
  lemma ExpandIs(s: State, depth: nat, x: nat, all: State)
    requires Expandable(s, depth)
    requires all == BranchMany(Descend(s, depth + 1), s.queue[0], |s.budget| - depth - 1, depth + 1, x)
    ensures IsFilled(all.lists, s.queue[0])
    ensures ExpandBy(s, depth, x) == all.(budget := Charged(s.budget, depth + 1, x),
                                          lists := SetBranches(all.lists, s.queue[0], Numbers(|s.lists|, x)))
  {
    var s1, e, len := Descend(s, depth + 1), s.queue[0], |s.budget| - depth - 1;
    BranchManyKeeps(s1, e, len, depth + 1, x);
    BranchManyBudget(s1, Charged(s.budget, depth + 1, x), e, len, depth + 1, x);
  }

  /** Another budget only changes the budget of the result. */
  lemma BudgetAside(s: State, b: seq<int>, depth: nat, x: nat)
    requires Expandable(s, depth) && |b| == |s.budget|
    ensures Expandable(s.(budget := b), depth)
    ensures ExpandBy(s.(budget := b), depth, x) == ExpandBy(s, depth, x).(budget := Charged(b, depth + 1, x))
    ensures ExpandBy(s, depth, x).budget == Charged(s.budget, depth + 1, x)
  {
    var s1, e, len := Descend(s, depth + 1), s.queue[0], |b| - depth - 1;
    var all := BranchMany(s1, e, len, depth + 1, x);
    assert Descend(s.(budget := b), depth + 1) == s1.(budget := b);
    BranchManyBudget(s1, b, e, len, depth + 1, x);
    ExpandIs(s, depth, x, all);
    ExpandIs(s.(budget := b), depth, x, all.(budget := b));
  }

  /** The budget is the one of the widths, or both are used up: then a width below one makes no difference. */
  ghost predicate Backed(w: seq<nat>, g: seq<int>, b: seq<int>)
  {
    g == b || (w == [1, 1] && g == [0, 0] && |b| == 2 && b[0] <= 0 && b[1] <= 0)
  }

  lemma BackedAfter(w: seq<nat>, g: seq<int>, b: seq<int>, from: nat, x: nat)
    requires Backed(w, g, b) && |g| == |b| && from < |b| && (g != b ==> x == 0)
    ensures Backed(w, Charged(g, from, x), Charged(b, from, x))
  {
    if g != b {
      assert Charged(g, from, 0) == g && Charged(b, from, 0) == b;
    }
  }

  /** With enough functions the front node can be expanded. */
  lemma MustExpand(w: seq<nat>, id0: nat, c: nat, a: nat, g: seq<int>, s: State, functions: nat)
    requires id0 + NodesAbove(w, |w|) <= functions && c + 1 < |w| && a > 0
    requires Inv(w, id0, c, a, s.(budget := g), None, [], 0) && Backed(w, g, s.budget)
    ensures Expandable(s, c) && |g| == |s.budget| == |w| && Max(0, s.budget[c + 1]) == g[c + 1]
    ensures s.next + 1 + g[c + 1] <= functions
    ensures a == 1 && |s.queue| > 1 ==> At(s.lists, s.queue[1]).depth > c
  {
    CanExpand(w, id0, c, a, s.(budget := g));
  }

  /** So a turn succeeds, with an admissible number of branches. */
  lemma MustSucceed(c: nat, a: nat, g: seq<int>, s: State, functions: nat, ok: bool, r: State)
    requires Expandable(s, c) && |g| == |s.budget| && Max(0, s.budget[c + 1]) == g[c + 1]
    requires s.next + 1 + g[c + 1] <= functions && Expanded(s, c, functions, ok, r)
    requires a == 1 && |s.queue| > 1 ==> At(s.lists, s.queue[1]).depth > c
    requires a == 1 ==> |s.queue| > 0
    ensures ok && s.next < r.next && r == ExpandBy(s, c, r.next - s.next - 1)
    ensures var x := r.next - s.next - 1; x <= g[c + 1] && (a == 1 ==> x == g[c + 1])
  {
  }

  lemma ProperTurn(w: seq<nat>, width: nat, id0: nat, c: nat, a: nat, g: seq<int>, s: State, x: nat, r: State)
      returns (c': nat, a': nat, g': seq<int>)
    requires WidthsOk(w, width) && c + 1 < |w| && a > 0 && Backed(w, g, s.budget)
    requires Inv(w, id0, c, a, s.(budget := g), None, [], 0) && Expandable(s, c) && |g| == |s.budget| == |w|
    requires x <= g[c + 1] && (a == 1 ==> x == g[c + 1]) && r == ExpandBy(s, c, x)
    ensures Inv(w, id0, c', a', r.(budget := g'), None, [], 0) && Backed(w, g', r.budget) && a' > 0
    ensures |r.queue| == |s.queue| + x && r.next == s.next + 1 + x
  {
    BudgetAside(s, g, c, x);
    c', a' := Turn(w, width, id0, c, a, s.(budget := g), x);
    g' := Charged(g, c + 1, x);
    BackedAfter(w, g, s.budget, c + 1, x);
  }

  /** Expanding a node with enough functions succeeds, keeps the invariant and gives out at least one function. */
  lemma ProperExpand(w: seq<nat>, width: nat, id0: nat, c: nat, a: nat, g: seq<int>, s: State, functions: nat, ok: bool,
      r: State)
      returns (c': nat, a': nat, g': seq<int>)
    requires WidthsOk(w, width) && id0 + NodesAbove(w, |w|) <= functions && c + 1 < |w| && a > 0 && s.queue != []
    requires Inv(w, id0, c, a, s.(budget := g), None, [], 0) && Backed(w, g, s.budget)
    requires Expanded(s, c, functions, ok, r)
    ensures ok && Inv(w, id0, c', a', r.(budget := g'), None, [], 0) && Backed(w, g', r.budget) && a' > 0
    ensures s.next < r.next && 2 * s.next + |r.queue| < 2 * r.next + |s.queue|
  {
    MustExpand(w, id0, c, a, g, s, functions);
    MustSucceed(c, a, g, s, functions, ok, r);
    c', a', g' := ProperTurn(w, width, id0, c, a, g, s, r.next - s.next - 1, r);
  }

  /** On the last level a node is dropped. */
  lemma ProperPop(w: seq<nat>, id0: nat, c: nat, a: nat, g: seq<int>, s: State)
    requires Inv(w, id0, c, a, s.(budget := g), None, [], 0) && c + 1 == |w| && s.queue != [] && a == |s.queue|
    ensures Inv(w, id0, c, a - 1, s.(queue := s.queue[1..]).(budget := g), None, [], 0)
  {
    PopInv(w, id0, c, s.(budget := g));
  }

  lemma FrontDepth(w: seq<nat>, id0: nat, c: nat, a: nat, g: seq<int>, s: State)
    requires Inv(w, id0, c, a, s.(budget := g), None, [], 0) && s.queue != [] && a > 0
    ensures IsFilled(s.lists, s.queue[0]) && At(s.lists, s.queue[0]).depth == c
    ensures c + 1 <= |w| && (c + 1 == |w| ==> a == |s.queue|)
  {
    FrontNode(w, id0, c, a, s.(budget := g));
  }

  // ---- sizes that cannot ----

  lemma {:induction false} BranchManyReady(s: State, e: Elem, len: nat, depth: nat, x: nat)
    requires len > 0 && |s.lists| == |s.fill|
    ensures var r := BranchMany(s, e, len, depth, x);
      && |r.lists| == |r.fill| == |s.lists| + x && |r.queue| == |s.queue| + x
      && (forall l :: 0 <= l < |s.lists| ==> r.lists[l] == s.lists[l])
      && (forall k :: 0 <= k < |s.queue| ==> r.queue[k] == s.queue[k])
      && (forall k :: |s.queue| <= k < |r.queue| ==> IsFilled(r.lists, r.queue[k]))
    decreases x
  {
    if x > 0 {
      BranchManyReady(s, e, len, depth, x - 1);
    }
  }

  /** After a turn the queue is ready again, and goes on with the nodes that were in it and the one just filled. */
  lemma ExpandReady(s: State, depth: nat, x: nat)
    requires Expandable(s, depth)
    ensures var r, e := ExpandBy(s, depth, x), s.queue[0];
      && Ready(r) && |r.queue| >= |s.queue| && r.queue[..|s.queue|] == s.queue[1..] + [Elem(e.list, e.pos + 1)]
      && |r.lists| >= |s.lists| && |r.lists[e.list]| == |s.lists[e.list]|
      && IsFilled(r.lists, Elem(e.list, e.pos + 1)) && At(r.lists, Elem(e.list, e.pos + 1)).depth == depth + 1
  {
    var s2 := Descend(s, depth + 1).(budget := Charged(s.budget, depth + 1, x));
    BranchManyReady(s2, s.queue[0], |s.budget| - depth - 1, depth + 1, x);
    forall k | 0 <= k < |s2.queue|
      ensures IsFilled(s2.lists, s2.queue[k])
    {
      assert k + 1 < |s.queue| ==> s2.queue[k] == s.queue[k + 1] && IsFilled(s.lists, s.queue[k + 1]);
    }
  }

  /** The root list has two elements, and the front node is one of them; the node after the second does not exist. */
  ghost predicate Failing(s: State, functions: nat, maxDepth: int)
  {
    && Ready(s) && s.lists != [] && |s.lists[0]| == 2 && maxDepth != 1
    && (maxDepth <= 0 || s.next >= functions)
    && (s.queue == [Elem(0, 0)] || (maxDepth <= 0 && s.queue[0] == Elem(0, 1)))
    && (maxDepth > 0 ==> At(s.lists, s.queue[0]).depth != maxDepth - 1)
  }

  /** Such a run goes on at most from the first to the second element. */
  lemma FailingVisit(s: State, functions: nat, maxDepth: int, ok: bool, r: State)
    requires Failing(s, functions, maxDepth) && Visited(s, functions, maxDepth, ok, r) && ok
    ensures s.queue == [Elem(0, 0)] && Failing(r, functions, maxDepth) && r.queue[0] == Elem(0, 1)
  {
    var depth := At(s.lists, s.queue[0]).depth;
    ExpandReady(s, depth, r.next - s.next - 1);
    assert r.queue[..1] == [Elem(0, 1)];
  }

  // ---- the loop ----

  /** Where the loop stands on its way to a finished workflow; `g` is the budget that the widths account for. */
  ghost predicate Growing(w: seq<nat>, width: nat, id0: nat, c: nat, a: nat, g: seq<int>, s: State, functions: nat)
  {
    && WidthsOk(w, width) && id0 + NodesAbove(w, |w|) <= functions
    && Inv(w, id0, c, a, s.(budget := g), None, [], 0) && Backed(w, g, s.budget)
    && (s.queue != [] ==> a > 0)
  }

  lemma GrowingReady(w: seq<nat>, width: nat, id0: nat, c: nat, a: nat, g: seq<int>, s: State, functions: nat)
    requires Growing(w, width, id0, c, a, g, s, functions) && s.queue != []
    ensures Ready(s) && s.next <= id0 + NodesAbove(w, |w|)
  {
    WithinSize(w, id0, c, a, s.(budget := g), None, [], 0);
    forall k | 0 <= k < |s.queue|
      ensures IsFilled(s.lists, s.queue[k])
    {
      assert s.queue[k].list < |s.lists|;
    }
  }

  lemma GrowingVisit(w: seq<nat>, width: nat, id0: nat, c: nat, a: nat, g: seq<int>, s: State, functions: nat, ok: bool,
      r: State)
      returns (c': nat, a': nat, g': seq<int>)
    requires Growing(w, width, id0, c, a, g, s, functions) && Ready(s) && Visited(s, functions, |w|, ok, r)
    ensures ok && Growing(w, width, id0, c', a', g', r, functions)
    ensures s.next <= r.next && 2 * s.next + |r.queue| < 2 * r.next + |s.queue|
  {
    FrontDepth(w, id0, c, a, g, s);
    if c + 1 == |w| {
      ProperPop(w, id0, c, a, g, s);
      c', a', g' := c, a - 1, g;
    } else {
      c', a', g' := ProperExpand(w, width, id0, c, a, g, s, functions, ok, r);
    }
  }

  lemma GrowingWithin(w: seq<nat>, width: nat, id0: nat, c: nat, a: nat, g: seq<int>, s: State, functions: nat)
    requires Growing(w, width, id0, c, a, g, s, functions)
    ensures s.next <= id0 + NodesAbove(w, |w|)
  {
    WithinSize(w, id0, c, a, s.(budget := g), None, [], 0);
  }

  lemma Grown(w: seq<nat>, width: nat, id0: nat, c: nat, a: nat, g: seq<int>, s: State, functions: nat)
    requires Growing(w, width, id0, c, a, g, s, functions) && s.queue == []
    ensures Complete(w, id0, s.next, s.lists, s.owner, s.par)
    ensures forall i :: 0 <= i < |s.budget| ==> s.budget[i] <= 0
  {
    Done(w, id0, c, a, s.(budget := g));
  }

  /** How far a run that must fail can still go. */
  ghost function Stage(queue: seq<Elem>): nat
  {
    if queue == [Elem(0, 0)] then 1 else 0
  }

  /** The loop, up to the point where the queue is empty or it fails. */
  method Grow(wf: Workflow, widthList: array<int>, functionID: nat, functions: nat, maxDepth: int,
      ghost w: seq<nat>, ghost width: nat, ghost id0: nat, ghost g0: seq<int>, ghost proper: bool)
    returns (ok: bool, next: nat)
    requires var s := wf.View(widthList[..], [Elem(0, 0)], functionID);
      if proper then |w| == maxDepth && Growing(w, width, id0, 0, 1, g0, s, functions)
      else Failing(s, functions, maxDepth)
    modifies wf, widthList
    ensures ok <==> proper
    ensures ok ==> Complete(w, id0, next, wf.lists, wf.owner, wf.par)
    ensures ok ==> forall i :: 0 <= i < widthList.Length ==> widthList[i] <= 0
  {
    var nodeQueue := [Elem(0, 0)];
    next := functionID;
    ghost var c: nat, a: nat, g := 0, 1, g0;
    if proper {
      GrowingWithin(w, width, id0, c, a, g, wf.View(widthList[..], nodeQueue, next), functions);
    }
    while |nodeQueue| > 0
      invariant proper ==> Growing(w, width, id0, c, a, g, wf.View(widthList[..], nodeQueue, next), functions)
      invariant proper ==> next <= id0 + NodesAbove(w, |w|)
      invariant !proper ==> Failing(wf.View(widthList[..], nodeQueue, next), functions, maxDepth)
      decreases if proper then 2 * (id0 + NodesAbove(w, |w|) - next) + |nodeQueue| else Stage(nodeQueue)
    {
      ghost var s := wf.View(widthList[..], nodeQueue, next);
      if proper {
        GrowingReady(w, width, id0, c, a, g, s, functions);
      }
      ok, nodeQueue, next := Visit(wf, nodeQueue, widthList, next, functions, maxDepth);
      ghost var r := wf.View(widthList[..], nodeQueue, next);
      if proper {
        c, a, g := GrowingVisit(w, width, id0, c, a, g, s, functions, ok, r);
        GrowingWithin(w, width, id0, c, a, g, r, functions);
      } else if ok {
        FailingVisit(s, functions, maxDepth, ok, r);
      }
      if !ok {
        return;
      }
    }
    ok := true;
    if proper {
      Grown(w, width, id0, c, a, g, wf.View(widthList[..], nodeQueue, next), functions);
    }
  }

  /** The sizes that pass the caller's check against the `left` functions and make the builder fail all the same. */
  predicate Breaks(left: int, width: int, depth: int)
  {
    left <= 0 || depth < 1 || (depth == 2 && width < 1 && left < 2) || (depth > 2 && width < 1)
  }

  lemma StartGrowing(w: seq<nat>, width: nat, id0: nat, g: seq<int>, s: State, functions: nat)
    requires WidthsOk(w, width) && id0 + NodesAbove(w, |w|) <= functions && Backed(w, g, s.budget)
    requires s.lists == [NewBranch(|w|, id0, 0)] && s.queue == [Elem(0, 0)] && s.next == id0 + 1
    requires |g| == |w| && forall i :: 0 <= i < |w| ==> g[i] == w[i] - 1
    requires s.fill == [1] && s.owner == [Elem(0, 0)] && s.par == [Elem(0, 0)]
    ensures Growing(w, width, id0, 0, 1, g, s, functions)
  {
    StartInv(w, width, id0, s.(budget := g));
  }

  /** A chain of two is what a depth of two leaves of a width below one. */
  lemma ChainOfTwo(id0: nat)
    ensures WidthsOk([1, 1], 1) && NodesAbove([1, 1], 2) == 2
  {
    NodesAboveStep([1, 1], 0);
    NodesAboveStep([1, 1], 1);
  }

  lemma StartFailing(s: State, id0: nat, functions: nat, maxDepth: int)
    requires s.lists == [NewBranch(2, id0, 0)] && s.queue == [Elem(0, 0)] && s.fill == [1]
    requires maxDepth <= 0 || (maxDepth > 1 && s.next >= functions)
    ensures Failing(s, functions, maxDepth)
  {
    assert IsFilled(s.lists, Elem(0, 0)) && At(s.lists, Elem(0, 0)) == Filled(id0, 0, []);
  }

  /** createDAGWorkflow, for every width and depth that passed the caller's check. */
  method CreateDAGWorkflow(functions: nat, functionID: nat, maxWidth: int, maxDepth: int)
    returns (ok: bool, wf: Workflow, next: nat, ghost w: seq<nat>)
    requires (maxDepth - 1) * maxWidth + 1 <= functions - functionID
    ensures fresh(wf)
    ensures ok <==> !Breaks(functions - functionID, maxWidth, maxDepth)
    ensures ok ==> functionID < next <= functions
    ensures ok && maxWidth >= 1 ==> next <= functionID + (maxDepth - 1) * maxWidth + 1
    ensures ok && maxDepth == 1 ==> wf.lists == [[Filled(functionID, 0, [])]] && next == functionID + 1
    ensures ok && maxDepth > 1 ==> |w| == maxDepth && WidthsOk(w, if maxWidth < 1 then 1 else maxWidth)
    ensures ok && maxDepth > 1 ==> Complete(w, functionID, next, wf.lists, wf.owner, wf.par)
  {
    wf := new Workflow(functionID, 1);
    ok, next, w := false, functionID + 1, [];
    if functionID >= functions {
      return;
    }
    if maxDepth == 1 {
      assert NewBranch(1, functionID, 0) == [Filled(functionID, 0, [])];
      return true, wf, next, w;
    }
    var widths, w0 := GenerateNodeDistribution(maxWidth, maxDepth);
    if widths.None? {
      return;
    }
    var drawn := widths.value;
    var widthList := new int[|drawn|](i requires 0 <= i < |drawn| => drawn[i]);
    wf := new Workflow(functionID, |drawn|);
    Charge(widthList, 0, 1);
    ghost var s, proper := wf.View(widthList[..], [Elem(0, 0)], next), !Breaks(functions - functionID, maxWidth,
      maxDepth);
    ghost var width, g := 1, [0, 0];
    if proper && maxWidth >= 1 {
      w, width, g := w0, maxWidth, widthList[..];
      SizeBound(w, maxWidth, maxDepth);
      StartGrowing(w, width, functionID, g, s, functions);
    } else if proper {
      w := [1, 1];
      ChainOfTwo(functionID);
      StartGrowing(w, width, functionID, g, s, functions);
    } else {
      StartFailing(s, functionID, functions, maxDepth);
    }
    ok, next := Grow(wf, widthList, next, functions, maxDepth, w, width, functionID, g, proper);
  }
}
