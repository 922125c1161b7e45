/**
 * What the tree rewrites keep (packages/shared/src/layout-tree.ts:63-196): well-formedness, and the panes
 * in their left-to-right order.
 */
module LayoutShape {
  import opened Prelude
  import opened Shares
  import opened LayoutTree

  // ---- Panes in order ---------------------------------------------------------------------------

  lemma {:induction false} PanesOfConcat(a: seq<Node>, b: seq<Node>)
    ensures PanesOf(a + b) == PanesOf(a) + PanesOf(b)
  {
    if a == [] {
      assert a + b == b;
    } else {
      assert (a + b)[1..] == a[1..] + b;
      PanesOfConcat(a[1..], b);
      Associate(Panes(a[0]), PanesOf(a[1..]), PanesOf(b));
    }
  }

  lemma PanesOfOne(node: Node)
    ensures PanesOf([node]) == Panes(node)
  {
    assert [node][1..] == [];
  }

  /** Looking for a session finds it exactly when its pane is in the list. */
  lemma {:induction false} HasIsListed(node: Node, session: int)
    ensures Has(node, session) <==> session in Panes(node)
    decreases node
  {
    if node.Split? {
      HasAnyIsListed(node.children, session);
    }
  }

  lemma {:induction false} HasAnyIsListed(children: seq<Node>, session: int)
    ensures (exists i :: 0 <= i < |children| && Has(children[i], session)) <==> session in PanesOf(children)
    decreases children
  {
    if children != [] {
      HasIsListed(children[0], session);
      HasAnyIsListed(children[1..], session);
      assert forall i :: 1 <= i < |children| ==> children[i] == children[1..][i - 1];
      assert (exists i :: 0 <= i < |children| && Has(children[i], session))
         <==> Has(children[0], session) || (exists i :: 0 <= i < |children[1..]| && Has(children[1..][i], session)) by {
        if i :| 0 <= i < |children[1..]| && Has(children[1..][i], session) {
          assert Has(children[i + 1], session);
        }
      }
    }
  }

  lemma PanesOfSplice(children: seq<Node>, at: nat, session: int)
    requires at <= |children|
    ensures PanesOf(Splice(children, at, Pane(session)))
         == PanesOf(children[..at]) + [session] + PanesOf(children[at..])
  {
    PanesOfOne(Pane(session));
    PanesOfConcat(children[..at], [Pane(session)]);
    PanesOfConcat(children[..at] + [Pane(session)], children[at..]);
  }

  lemma InsertListsLast(root: Node, session: int, axis: Axis)
    requires session > 0 && !Has(root, session) && WellFormed(root)
    ensures Panes(InsertPane(root, session, axis))
         == if root == EMPTY_PANE then [session] else Panes(root) + [session]
  {
    match root
    case Pane(held) =>
      PanesOfOne(Pane(session));
      assert [Pane(held), Pane(session)][1..] == [Pane(session)];
    case Split(a, children, sizes) =>
      PanesOfSplice(children, |children|, session);
      assert children[..|children|] == children && PanesOf(children[|children|..]) == [];
  }

  // ---- Splitting puts the new pane beside its target --------------------------------------------

  function Pair(p: Placement): seq<int> {
    if p.before then [p.session, p.target] else [p.target, p.session]
  }

  /** The list with the new session on the asked side of its target. */
  function Beside(panes: seq<int>, p: Placement): seq<int> {
    if panes == [] then []
    else (if panes[0] == p.target then Pair(p) else [panes[0]]) + Beside(panes[1..], p)
  }

  lemma {:induction false} BesideConcat(a: seq<int>, b: seq<int>, p: Placement)
    ensures Beside(a + b, p) == Beside(a, p) + Beside(b, p)
  {
    if a == [] {
      assert a + b == b;
    } else {
      assert (a + b)[1..] == a[1..] + b;
      BesideConcat(a[1..], b, p);
    }
  }

  lemma {:induction false} BesideAbsent(panes: seq<int>, p: Placement)
    requires p.target !in panes
    ensures Beside(panes, p) == panes
  {
    if panes != [] {
      BesideAbsent(panes[1..], p);
    }
  }

  lemma {:induction false} BesideElements(panes: seq<int>, p: Placement, x: int)
    ensures x in Beside(panes, p) <==> x in panes || (x == p.session && p.target in panes)
  {
    if panes != [] {
      BesideElements(panes[1..], p, x);
    }
  }

  lemma DistinctParts(a: seq<int>, b: seq<int>)
    requires Distinct(a + b)
    ensures Distinct(a) && Distinct(b)
    ensures forall x :: x in a ==> x !in b
  {
    var ab := a + b;
    assert forall i :: 0 <= i < |a| ==> ab[i] == a[i];
    assert forall i :: 0 <= i < |b| ==> ab[|a| + i] == b[i];
  }

  lemma DistinctJoin(a: seq<int>, b: seq<int>)
    requires Distinct(a) && Distinct(b)
    requires forall x :: x in a ==> x !in b
    ensures Distinct(a + b)
  {
    forall i, j | 0 <= i < |a| <= j < |a + b| ensures (a + b)[i] != (a + b)[j] {
      assert a[i] in a && b[j - |a|] in b;
    }
  }

  lemma {:induction false} BesideKeepsDistinct(panes: seq<int>, p: Placement)
    requires Distinct(panes) && p.session !in panes
    ensures Distinct(Beside(panes, p))
  {
    if panes != [] {
      var head := if panes[0] == p.target then Pair(p) else [panes[0]];
      assert panes == [panes[0]] + panes[1..];
      DistinctParts([panes[0]], panes[1..]);
      assert panes[0] in [panes[0]];
      BesideKeepsDistinct(panes[1..], p);
      forall x | x in head ensures x !in Beside(panes[1..], p) {
        BesideElements(panes[1..], p, x);
      }
      assert p.session != panes[0];
      DistinctJoin(head, Beside(panes[1..], p));
    }
  }

  lemma HalveListsBeside(p: Placement)
    ensures Panes(Halve(Pane(p.target), p)) == Pair(p)
  {
    PanesOfOne(Pane(p.target));
    PanesOfOne(Pane(p.session));
    assert [Pane(p.target), Pane(p.session)] == [Pane(p.target)] + [Pane(p.session)];
    assert [Pane(p.session), Pane(p.target)] == [Pane(p.session)] + [Pane(p.target)];
    PanesOfConcat([Pane(p.target)], [Pane(p.session)]);
    PanesOfConcat([Pane(p.session)], [Pane(p.target)]);
  }

  lemma JoinListsBeside(node: Node, index: nat, p: Placement)
    requires node.Split? && index < |node.children| && node.children[index] == Pane(p.target)
    requires Distinct(Panes(node))
    ensures Panes(Join(node, index, p)) == Beside(Panes(node), p)
  {
    hide Beside, Panes, Distinct;
    var a, b := node.children[..index], node.children[index + 1..];
    var at := if p.before then index else index + 1;
    PanesOfOne(Pane(p.target));
    assert node.children == a + [Pane(p.target)] + b;
    PanesOfConcat(a, [Pane(p.target)]);
    PanesOfConcat(a + [Pane(p.target)], b);
    PanesOfSplice(node.children, at, p.session);
    assert node.children[..index + 1] == a + [Pane(p.target)];
    assert node.children[index..] == [Pane(p.target)] + b;
    PanesOfConcat([Pane(p.target)], b);
    PanesOfTarget(p.target);
    PanesOfNode(node);
    JoinPanes(node, index, p);
    ListBeside(PanesOf(a), PanesOf(b), p);
    SidesOfPair(PanesOf(a), PanesOf(b), p);
  }

  lemma SidesOfPair(a: seq<int>, b: seq<int>, p: Placement)
    ensures a + Pair(p) + b
         == if p.before then a + [p.session] + ([p.target] + b) else a + [p.target] + [p.session] + b
  {
  }

  lemma PanesOfNode(node: Node)
    requires node.Split?
    ensures Panes(node) == PanesOf(node.children)
  {
  }

  lemma PanesOfTarget(session: int)
    ensures Panes(Pane(session)) == [session]
  {
  }

  lemma JoinPanes(node: Node, index: nat, p: Placement)
    requires node.Split? && index < |node.children|
    ensures Panes(Join(node, index, p))
         == PanesOf(Splice(node.children, if p.before then index else index + 1, Pane(p.session)))
  {
  }

  lemma ListBeside(a: seq<int>, b: seq<int>, p: Placement)
    requires Distinct(a + [p.target] + b)
    ensures Beside(a + [p.target] + b, p) == a + Pair(p) + b
  {
    DistinctParts(a + [p.target], b);
    DistinctParts(a, [p.target]);
    assert p.target in [p.target] && p.target in a + [p.target];
    BesideAbsent(a, p);
    BesideAbsent(b, p);
    BesideConcat(a + [p.target], b, p);
    BesideConcat(a, [p.target], p);
    assert [p.target][1..] == [];
    assert Beside([p.target], p) == Pair(p);
  }

  lemma {:induction false} RewriteListsBeside(node: Node, p: Placement)
    requires Distinct(Panes(node))
    ensures Panes(Rewrite(node, p)) == Beside(Panes(node), p)
    decreases node
  {
    HasIsListed(node, p.target);
    if !Has(node, p.target) {
      BesideAbsent(Panes(node), p);
    } else if node.Pane? {
      HalveListsBeside(p);
      assert Beside([p.target], p) == Pair(p);
    } else {
      var index := IndexOf(node.children, p.target);
      if node.axis == p.axis && index < |node.children| {
        JoinListsBeside(node, index, p);
      } else {
        RewriteAllListsBeside(node.children, p);
      }
    }
  }

  lemma {:induction false} RewriteAllListsBeside(children: seq<Node>, p: Placement)
    requires Distinct(PanesOf(children))
    ensures PanesOf(RewriteAll(children, p)) == Beside(PanesOf(children), p)
    decreases children
  {
    if children != [] {
      DistinctParts(Panes(children[0]), PanesOf(children[1..]));
      RewriteListsBeside(children[0], p);
      RewriteAllListsBeside(children[1..], p);
      BesideConcat(Panes(children[0]), PanesOf(children[1..]), p);
      assert RewriteAll(children, p)[1..] == RewriteAll(children[1..], p);
    }
  }

  /** A split opens its pane right beside the target and moves nobody else in the order. */
  lemma SplitListsBeside(root: Node, p: Placement)
    requires WellFormed(root) && Distinct(Panes(root)) && p.session > 0 && !Has(root, p.session)
    ensures Has(root, p.target) ==> Panes(SplitPane(root, p)) == Beside(Panes(root), p)
    ensures !Has(root, p.target) && root != EMPTY_PANE ==> Panes(SplitPane(root, p)) == Panes(root) + [p.session]
    ensures Distinct(Panes(SplitPane(root, p)))
  {
    HasIsListed(root, p.session);
    if Has(root, p.target) {
      RewriteListsBeside(root, p);
      BesideKeepsDistinct(Panes(root), p);
    } else {
      InsertListsLast(root, p.session, p.axis);
      DistinctJoin(Panes(root), [p.session]);
    }
  }

  // ---- Removing and swapping --------------------------------------------------------------------

  function Without(panes: seq<int>, session: int): seq<int> {
    if panes == [] then []
    else (if panes[0] == session then [] else [panes[0]]) + Without(panes[1..], session)
  }

  lemma {:induction false} WithoutConcat(a: seq<int>, b: seq<int>, session: int)
    ensures Without(a + b, session) == Without(a, session) + Without(b, session)
  {
    if a == [] {
      assert a + b == b;
    } else {
      assert (a + b)[1..] == a[1..] + b;
      WithoutConcat(a[1..], b, session);
    }
  }

  lemma {:induction false} WithoutAbsent(panes: seq<int>, session: int)
    requires session !in panes
    ensures Without(panes, session) == panes
  {
    if panes != [] {
      WithoutAbsent(panes[1..], session);
    }
  }

  lemma {:induction false} WithoutElements(panes: seq<int>, session: int, x: int)
    ensures x in Without(panes, session) <==> x in panes && x != session
  {
    if panes != [] {
      WithoutElements(panes[1..], session, x);
    }
  }

  lemma {:induction false} WithoutKeepsDistinct(panes: seq<int>, session: int)
    requires Distinct(panes)
    ensures Distinct(Without(panes, session))
  {
    if panes != [] {
      assert panes == [panes[0]] + panes[1..];
      DistinctParts([panes[0]], panes[1..]);
      assert panes[0] in [panes[0]];
      WithoutKeepsDistinct(panes[1..], session);
      WithoutElements(panes[1..], session, panes[0]);
      var head := if panes[0] == session then [] else [panes[0]];
      DistinctJoin(head, Without(panes[1..], session));
    }
  }

  function PanesIn(node: Option<Node>): seq<int> {
    if node.None? then [] else Panes(node.value)
  }

  lemma {:induction false} PruneLists(node: Node, session: int)
    ensures PanesIn(Prune(node, session)) == Without(Panes(node), session)
    decreases node
  {
    HasIsListed(node, session);
    if !Has(node, session) {
      WithoutAbsent(Panes(node), session);
      PruneOther(node, session);
    } else if node.Split? {
      AlignLength(node.sizes, |node.children|);
      var sizes := Align(node.sizes, |node.children|);
      KeepLists(node.children, sizes, session);
      PruneCases(node, session, Keep(node.children, sizes, session));
    }
  }

  lemma PruneCases(node: Node, session: int, kept: Kept)
    requires node.Split? && Has(node, session)
    requires |Align(node.sizes, |node.children|)| == |node.children|
    requires kept == Keep(node.children, Align(node.sizes, |node.children|), session)
    ensures PanesIn(Prune(node, session)) == PanesOf(kept.children)
  {
    hide Keep;
    if |kept.children| == 1 {
      PanesOfOne(kept.children[0]);
    }
  }

  lemma {:induction false} KeepLists(children: seq<Node>, sizes: seq<real>, session: int)
    requires |sizes| == |children|
    ensures PanesOf(Keep(children, sizes, session).children) == Without(PanesOf(children), session)
    decreases children
  {
    if children != [] {
      PruneLists(children[0], session);
      KeepLists(children[1..], sizes[1..], session);
      WithoutConcat(Panes(children[0]), PanesOf(children[1..]), session);
    }
  }

  /** A removal takes out that session and keeps the order of the others; the last one leaves the placeholder. */
  lemma RemoveLists(root: Node, session: int)
    requires WellFormed(root)
    ensures
      var left := Without(Panes(root), session);
      Panes(RemovePane(root, session)) == if left == [] then [0] else left
  {
    HasIsListed(root, session);
    if Has(root, session) {
      PruneLists(root, session);
      PruneKeepsForm(root, session);
      if Prune(root, session).Some? {
        PanesNotEmpty(Prune(root, session).value);
      }
    } else {
      WithoutAbsent(Panes(root), session);
      PanesNotEmpty(root);
    }
  }

  lemma {:induction false} PanesNotEmpty(node: Node)
    requires WellFormed(node)
    ensures Panes(node) != []
    decreases node
  {
    if node.Split? {
      PanesNotEmpty(node.children[0]);
    }
  }

  function ExchangeAll(panes: seq<int>, a: int, b: int): (r: seq<int>)
    ensures |r| == |panes| && forall i :: 0 <= i < |panes| ==> r[i] == Exchange(panes[i], a, b)
  {
    if panes == [] then [] else [Exchange(panes[0], a, b)] + ExchangeAll(panes[1..], a, b)
  }

  lemma {:induction false} SwapLists(node: Node, a: int, b: int)
    ensures Panes(SwapIn(node, a, b)) == ExchangeAll(Panes(node), a, b)
    decreases node
  {
    if node.Split? {
      SwapAllLists(node.children, a, b);
    }
  }

  lemma ExchangeConcat(x: seq<int>, y: seq<int>, a: int, b: int)
    ensures ExchangeAll(x + y, a, b) == ExchangeAll(x, a, b) + ExchangeAll(y, a, b)
  {
  }

  lemma {:induction false} SwapAllLists(children: seq<Node>, a: int, b: int)
    ensures PanesOf(SwapAll(children, a, b)) == ExchangeAll(PanesOf(children), a, b)
    decreases children
  {
    hide ExchangeAll, Exchange, SwapIn;
    if children != [] {
      SwapLists(children[0], a, b);
      SwapAllLists(children[1..], a, b);
      ExchangeConcat(Panes(children[0]), PanesOf(children[1..]), a, b);
      assert SwapAll(children, a, b)[1..] == SwapAll(children[1..], a, b);
    } else {
      ExchangeConcat([], [], a, b);
    }
  }

  lemma ExchangeKeepsDistinct(panes: seq<int>, a: int, b: int)
    requires Distinct(panes)
    ensures Distinct(ExchangeAll(panes, a, b))
  {
    var r := ExchangeAll(panes, a, b);
    forall i, j | 0 <= i < j < |r| ensures r[i] != r[j] {
      assert panes[i] != panes[j];
    }
  }

  lemma ExchangeHolds(panes: seq<int>, a: int, b: int, i: nat)
    requires i < |panes|
    ensures Exchange(panes[i], a, b) in ExchangeAll(panes, a, b)
  {
    assert ExchangeAll(panes, a, b)[i] == Exchange(panes[i], a, b);
  }

  lemma SwapHas(root: Node, a: int, b: int)
    requires Has(root, a)
    ensures Has(SwapIn(root, a, b), b)
  {
    hide Has, ExchangeAll;
    HasIsListed(root, a);
    SwapLists(root, a, b);
    var i :| 0 <= i < |Panes(root)| && Panes(root)[i] == a;
    ExchangeHolds(Panes(root), a, b, i);
    HasIsListed(SwapIn(root, a, b), b);
  }

  lemma {:induction false} SwapIsSymmetric(node: Node, a: int, b: int)
    ensures SwapIn(node, a, b) == SwapIn(node, b, a)
    decreases node
  {
    if node.Split? {
      forall i | 0 <= i < |node.children|
        ensures SwapAll(node.children, a, b)[i] == SwapAll(node.children, b, a)[i]
      {
        SwapIsSymmetric(node.children[i], a, b);
      }
      assert SwapAll(node.children, a, b) == SwapAll(node.children, b, a);
    }
  }

  /** Swapping trades two places and keeps every other pane where it is. */
  lemma SwapTrades(root: Node, a: int, b: int)
    requires a != b && Has(root, a) && Has(root, b)
    ensures Panes(SwapPanes(root, a, b)) == ExchangeAll(Panes(root), a, b)
    ensures Distinct(Panes(root)) ==> Distinct(Panes(SwapPanes(root, a, b)))
  {
    hide SwapIn, ExchangeAll, Has, Distinct;
    SwapLists(root, a, b);
    if Distinct(Panes(root)) {
      ExchangeKeepsDistinct(Panes(root), a, b);
    }
  }

  lemma SwapUndoesItself(root: Node, a: int, b: int)
    ensures SwapPanes(SwapPanes(root, a, b), a, b) == root
  {
    hide SwapIn, Has;
    if a != b && Has(root, a) && Has(root, b) {
      SwapHas(root, a, b);
      SwapHas(root, b, a);
      SwapIsSymmetric(root, a, b);
      SwapTwice(root, a, b);
    }
  }

  lemma {:induction false} SwapTwice(node: Node, a: int, b: int)
    ensures SwapIn(SwapIn(node, a, b), a, b) == node
    decreases node
  {
    if node.Split? {
      var once := SwapAll(node.children, a, b);
      forall i | 0 <= i < |node.children| ensures SwapAll(once, a, b)[i] == node.children[i] {
        SwapTwice(node.children[i], a, b);
      }
      assert SwapAll(once, a, b) == node.children;
    }
  }

  // ---- Well-formedness --------------------------------------------------------------------------

  lemma FreshIsFormed(axis: Axis, a: Node, b: Node, sizes: seq<real>)
    requires WellFormed(a) && WellFormed(b)
    ensures WellFormed(Fresh(axis, [a, b], sizes))
  {
    AlignMakesShares(sizes, 2);
  }

  lemma PaneIsFormed(session: int)
    requires session >= 0
    ensures WellFormed(Pane(session))
  {
  }

  lemma SpliceIsFormed(children: seq<Node>, at: nat, session: int)
    requires AllWellFormed(children) && at <= |children| && session >= 0
    ensures AllWellFormed(Splice(children, at, Pane(session)))
  {
    hide WellFormed;
    PaneIsFormed(session);
    var more := Splice(children, at, Pane(session));
    forall k | 0 <= k < |more| ensures WellFormed(more[k]) {
      assert more[k] == if k < at then children[k] else if k == at then Pane(session) else children[k - 1];
    }
  }

  lemma JoinedIsFormed(axis: Axis, children: seq<Node>, sizes: seq<real>, at: nat, session: int)
    requires |children| >= 1 && AllWellFormed(children) && at <= |children| && session >= 0
    ensures WellFormed(Joined(axis, children, sizes, at, session))
  {
    hide AllWellFormed, AreShares, Normalize, MakeRoom;
    MakeRoomLength(sizes, |children|);
    NormalizeMakesShares(Splice(MakeRoom(sizes, |children|), at, 1.0 / (|children| + 1) as real));
    SpliceIsFormed(children, at, session);
  }

  lemma HalveIsFormed(held: int, p: Placement)
    requires held >= 0 && p.session >= 0
    ensures WellFormed(Halve(Pane(held), p))
  {
    hide Fresh;
    var r := Bounded(p.ratio);
    FreshIsFormed(p.axis, Pane(held), Pane(p.session), [1.0 - r, r]);
    FreshIsFormed(p.axis, Pane(p.session), Pane(held), [r, 1.0 - r]);
  }

  lemma {:induction false} RewriteKeepsForm(node: Node, p: Placement)
    requires WellFormed(node) && p.session >= 0
    ensures WellFormed(Rewrite(node, p))
    decreases node
  {
    hide Halve, Joined, AreShares;
    match node
    case Pane(held) => HalveIsFormed(held, p);
    case Split(axis, children, sizes) =>
      if Has(node, p.target) {
        JoinedIsFormed(axis, children, sizes, IndexOf(children, p.target), p.session);
        if IndexOf(children, p.target) < |children| {
          JoinedIsFormed(axis, children, sizes, IndexOf(children, p.target) + 1, p.session);
        }
        RewriteAllKeepsForm(children, p);
        AlignMakesShares(sizes, |children|);
      }
  }

  lemma {:induction false} RewriteAllKeepsForm(children: seq<Node>, p: Placement)
    requires AllWellFormed(children) && p.session >= 0
    ensures AllWellFormed(RewriteAll(children, p))
    decreases children
  {
    if children != [] {
      RewriteKeepsForm(children[0], p);
      RewriteAllKeepsForm(children[1..], p);
    }
  }

  lemma {:induction false} PruneKeepsForm(node: Node, session: int)
    requires WellFormed(node)
    ensures Prune(node, session).Some? ==> WellFormed(Prune(node, session).value)
    decreases node
  {
    if node.Split? && Has(node, session) {
      AlignLength(node.sizes, |node.children|);
      var sizes := Align(node.sizes, |node.children|);
      KeepKeepsForm(node.children, sizes, session);
      PruneFormCases(node, session, Keep(node.children, sizes, session));
    }
  }

  lemma PruneFormCases(node: Node, session: int, kept: Kept)
    requires node.Split? && Has(node, session)
    requires |Align(node.sizes, |node.children|)| == |node.children|
    requires kept == Keep(node.children, Align(node.sizes, |node.children|), session)
    requires AllWellFormed(kept.children)
    ensures Prune(node, session).Some? ==> WellFormed(Prune(node, session).value)
  {
    hide Keep, Normalize;
    if |kept.children| >= 2 {
      NormalizeMakesShares(kept.sizes);
    }
  }

  lemma {:induction false} KeepKeepsForm(children: seq<Node>, sizes: seq<real>, session: int)
    requires AllWellFormed(children) && |sizes| == |children|
    ensures AllWellFormed(Keep(children, sizes, session).children)
    decreases children
  {
    if children != [] {
      PruneKeepsForm(children[0], session);
      KeepKeepsForm(children[1..], sizes[1..], session);
    }
  }

  lemma {:induction false} SwapKeepsForm(node: Node, a: int, b: int)
    requires WellFormed(node) && a >= 0 && b >= 0
    ensures WellFormed(SwapIn(node, a, b))
    decreases node
  {
    if node.Split? {
      forall i | 0 <= i < |node.children| ensures WellFormed(SwapAll(node.children, a, b)[i]) {
        SwapKeepsForm(node.children[i], a, b);
      }
    }
  }

  /** Every operation, whatever its arguments, takes a well-formed tree to a well-formed tree. */
  lemma OperationsKeepForm(root: Node, p: Placement, a: nat, b: nat)
    requires WellFormed(root)
    ensures WellFormed(InsertPane(root, p.session, p.axis))
    ensures WellFormed(SplitPane(root, p))
    ensures WellFormed(RemovePane(root, p.session))
    ensures WellFormed(SwapPanes(root, a, b))
  {
    InsertKeepsForm(root, p.session, p.axis);
    if p.session > 0 {
      RewriteKeepsForm(root, p);
    }
    PruneKeepsForm(root, p.session);
    SwapKeepsForm(root, a, b);
  }

  lemma InsertKeepsForm(root: Node, session: int, axis: Axis)
    requires WellFormed(root)
    ensures WellFormed(InsertPane(root, session, axis))
  {
    if session > 0 {
      match root
      case Pane(held) => FreshIsFormed(axis, root, Pane(session), [0.5, 0.5]);
      case Split(a, children, sizes) => JoinedIsFormed(a, children, sizes, |children|, session);
    }
  }
}
