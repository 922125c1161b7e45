/**
 * The pane tree of a workspace and the rewrites that change only the target and its ancestors
 * (packages/shared/src/layout-tree.ts:15-196).
 */
module LayoutTree {
  import opened Prelude
  import opened Shares

  datatype Axis = Row | Col

  /** A pane whose session is 0 is the placeholder of an empty workspace. */
  datatype Node =
    | Pane(session: int)
    | Split(axis: Axis, children: seq<Node>, sizes: seq<real>)

  const EMPTY_PANE := Pane(0)

  // ---- Reading the tree -------------------------------------------------------------------------

  /** Every pane from left to right, the placeholder included. */
  function Panes(node: Node): seq<int>
    decreases node
  {
    match node
    case Pane(session) => [session]
    case Split(_, children, _) => PanesOf(children)
  }

  function PanesOf(children: seq<Node>): seq<int>
    decreases children
  {
    if children == [] then [] else Panes(children[0]) + PanesOf(children[1..])
  }

  predicate Has(node: Node, session: int)
    decreases node
  {
    match node
    case Pane(held) => held == session
    case Split(_, children, _) => exists i :: 0 <= i < |children| && Has(children[i], session)
  }

  /** What the code relies on: a split has at least two children and one share for each. */
  predicate WellFormed(node: Node)
    decreases node
  {
    match node
    case Pane(session) => session >= 0
    case Split(_, children, sizes) =>
      && |children| >= 2
      && AreShares(sizes, |children|)
      && AllWellFormed(children)
  }

  predicate AllWellFormed(children: seq<Node>)
    decreases children
  {
    forall i :: 0 <= i < |children| ==> WellFormed(children[i])
  }

  predicate Distinct<T(==)>(s: seq<T>) {
    forall i, j :: 0 <= i < j < |s| ==> s[i] != s[j]
  }

  // ---- The operations ---------------------------------------------------------------------------

  function Fresh(axis: Axis, children: seq<Node>, sizes: seq<real>): Node {
    Split(axis, children, Align(sizes, |children|))
  }

  /** A row with one more pane at position `at`. */
  function Joined(axis: Axis, children: seq<Node>, sizes: seq<real>, at: nat, session: int): Node
    requires at <= |children|
  {
    MakeRoomLength(sizes, |children|);
    var share := 1.0 / (|children| + 1) as real;
    Split(axis, Splice(children, at, Pane(session)),
          Normalize(Splice(MakeRoom(sizes, |children|), at, share)))
  }

  function InsertPane(root: Node, session: int, axis: Axis): Node {
    if session <= 0 || Has(root, session) then root
    else match root
      case Pane(held) =>
        if held <= 0 then Pane(session) else Fresh(axis, [root, Pane(session)], [0.5, 0.5])
      case Split(a, children, sizes) =>
        Joined(a, children, sizes, |children|, session)
  }

  datatype Placement = Placement(target: int, session: int, axis: Axis, ratio: real, before: bool)

  function Bounded(ratio: real): real {
    var low := if ratio > 0.05 then ratio else 0.05;
    if low < 0.95 then low else 0.95
  }

  function Halve(node: Node, p: Placement): Node {
    var ratio := Bounded(p.ratio);
    if p.before then Fresh(p.axis, [Pane(p.session), node], [ratio, 1.0 - ratio])
    else Fresh(p.axis, [node, Pane(p.session)], [1.0 - ratio, ratio])
  }

  /** Position of the first child that is the pane of `session`; the length when there is none. */
  function IndexOf(children: seq<Node>, session: int): (i: nat)
    ensures i <= |children|
    ensures i < |children| ==> children[i] == Pane(session)
    ensures forall j :: 0 <= j < i ==> children[j] != Pane(session)
  {
    if children == [] then 0
    else if children[0] == Pane(session) then 0
    else 1 + IndexOf(children[1..], session)
  }

  /** The new pane joins the row of its target, and every sibling gives up a proportional share. */
  function Join(node: Node, index: nat, p: Placement): Node
    requires node.Split? && index < |node.children|
  {
    Joined(node.axis, node.children, node.sizes, if p.before then index else index + 1, p.session)
  }

  function Rewrite(node: Node, p: Placement): Node
    decreases node, 1
  {
    match node
    case Pane(held) => if held != p.target then node else Halve(node, p)
    case Split(axis, children, sizes) =>
      if !Has(node, p.target) then node
      else
        var index := IndexOf(children, p.target);
        if axis == p.axis && index < |children| then Join(node, index, p)
        else Nested(node, p)
  }

  /** The target lies deeper: only the children that hold it change. */
  function Nested(node: Node, p: Placement): Node
    requires node.Split?
    decreases node, 0
  {
    Split(node.axis, RewriteAll(node.children, p), Align(node.sizes, |node.children|))
  }

  function RewriteAll(children: seq<Node>, p: Placement): (r: seq<Node>)
    ensures |r| == |children|
    ensures forall i :: 0 <= i < |children| ==> r[i] == Rewrite(children[i], p)
    decreases children
  {
    if children == [] then [] else [Rewrite(children[0], p)] + RewriteAll(children[1..], p)
  }

  function SplitPane(root: Node, p: Placement): Node {
    if p.session <= 0 || Has(root, p.session) then root
    else if !Has(root, p.target) then InsertPane(root, p.session, p.axis)
    else Rewrite(root, p)
  }

  /** The children a removal leaves, each with its share. */
  datatype Kept = Kept(children: seq<Node>, sizes: seq<real>)

  function Prune(node: Node, session: int): Option<Node>
    decreases node
  {
    match node
    case Pane(held) => if held == session then None else Some(node)
    case Split(axis, children, sizes) =>
      if !Has(node, session) then Some(node)
      else
        AlignLength(sizes, |children|);
        var kept := Keep(children, Align(sizes, |children|), session);
        if kept.children == [] then None
        else if |kept.children| == 1 then Some(kept.children[0])
        else Some(Split(axis, kept.children, Normalize(kept.sizes)))
  }

  function Keep(children: seq<Node>, sizes: seq<real>, session: int): (kept: Kept)
    requires |sizes| == |children|
    ensures |kept.sizes| == |kept.children| <= |children|
    decreases children
  {
    if children == [] then Kept([], [])
    else
      var rest := Keep(children[1..], sizes[1..], session);
      match Prune(children[0], session)
      case None => rest
      case Some(next) => Kept([next] + rest.children, [sizes[0]] + rest.sizes)
  }

  function RemovePane(root: Node, session: int): Node {
    if !Has(root, session) then root
    else match Prune(root, session)
      case None => EMPTY_PANE
      case Some(node) => node
  }

  function Exchange(x: int, a: int, b: int): int {
    if x == a then b else if x == b then a else x
  }

  function SwapIn(node: Node, a: int, b: int): Node
    decreases node
  {
    match node
    case Pane(held) => Pane(Exchange(held, a, b))
    case Split(axis, children, sizes) => Split(axis, SwapAll(children, a, b), sizes)
  }

  function SwapAll(children: seq<Node>, a: int, b: int): (r: seq<Node>)
    ensures |r| == |children|
    ensures forall i :: 0 <= i < |children| ==> r[i] == SwapIn(children[i], a, b)
    decreases children
  {
    if children == [] then [] else [SwapIn(children[0], a, b)] + SwapAll(children[1..], a, b)
  }

  function SwapPanes(root: Node, a: int, b: int): Node {
    if a == b || !Has(root, a) || !Has(root, b) then root else SwapIn(root, a, b)
  }

  // ---- Removing what was added ------------------------------------------------------------------

  lemma {:induction false} KeepConcat(a: seq<Node>, b: seq<Node>, y: seq<real>, z: seq<real>, session: int)
    requires |y| == |a| && |z| == |b|
    ensures Keep(a + b, y + z, session).children
         == Keep(a, y, session).children + Keep(b, z, session).children
    ensures Keep(a + b, y + z, session).sizes == Keep(a, y, session).sizes + Keep(b, z, session).sizes
  {
    if a == [] {
      assert a + b == b && y + z == z;
    } else {
      assert (a + b)[1..] == a[1..] + b && (y + z)[1..] == y[1..] + z;
      KeepConcat(a[1..], b, y[1..], z, session);
    }
  }

  lemma {:induction false} KeepAll(children: seq<Node>, back: seq<Node>, sizes: seq<real>, session: int)
    requires |sizes| == |children| == |back|
    requires forall i :: 0 <= i < |children| ==> Prune(children[i], session) == Some(back[i])
    ensures Keep(children, sizes, session) == Kept(back, sizes)
  {
    if children != [] {
      KeepAll(children[1..], back[1..], sizes[1..], session);
      assert back == [back[0]] + back[1..] && sizes == [sizes[0]] + sizes[1..];
    }
  }

  lemma PruneOther(node: Node, session: int)
    requires !Has(node, session)
    ensures Prune(node, session) == Some(node)
  {
  }

  lemma KeepFresh(session: int, share: real)
    ensures Keep([Pane(session)], [share], session) == Kept([], [])
  {
    assert Keep([Pane(session)][1..], [share][1..], session) == Kept([], []);
  }

  lemma KeepAroundFresh(children: seq<Node>, sizes: seq<real>, at: nat, share: real, session: int)
    requires |sizes| == |children| && at <= |children|
    requires forall i :: 0 <= i < |children| ==> !Has(children[i], session)
    ensures Keep(Splice(children, at, Pane(session)), Splice(sizes, at, share), session)
         == Kept(children, sizes)
  {
    hide Keep, Has, Prune;
    var a, b, y, z := children[..at], children[at..], sizes[..at], sizes[at..];
    forall i | 0 <= i < |children| ensures Prune(children[i], session) == Some(children[i]) {
      PruneOther(children[i], session);
    }
    KeepAll(a, a, y, session);
    KeepAll(b, b, z, session);
    KeepFresh(session, share);
    KeepConcat(a, [Pane(session)], y, [share], session);
    KeepConcat(a + [Pane(session)], b, y + [share], z, session);
    assert a + b == children && y + z == sizes;
    assert a + [] == a && y + [] == y;
  }

  /** Pruning a split that keeps two children or more, spelled out. */
  lemma PruneSplit(axis: Axis, children: seq<Node>, sizes: seq<real>, session: int, i: nat, kept: Kept)
    requires AreShares(sizes, |children|) && i < |children| && Has(children[i], session)
    requires Keep(children, sizes, session) == kept && |kept.children| >= 2
    ensures Prune(Split(axis, children, sizes), session)
         == Some(Split(axis, kept.children, Normalize(kept.sizes)))
  {
    hide Keep, Normalize;
    assert Has(Split(axis, children, sizes), session);
    AlignKeepsShares(sizes);
  }

  /** One more pane anywhere in a row, and taken away again: children and shares are what they were. */
  lemma JoinThenPrune(axis: Axis, children: seq<Node>, sizes: seq<real>, at: nat, session: int)
    requires |children| >= 2 && AreShares(sizes, |children|) && at <= |children|
    requires forall i :: 0 <= i < |children| ==> !Has(children[i], session)
    ensures Prune(Joined(axis, children, sizes, at, session), session) == Some(Split(axis, children, sizes))
  {
    hide Keep, Prune, Normalize, MakeRoom, Splice;
    var share := 1.0 / (|children| + 1) as real;
    MakeRoomLength(sizes, |children|);
    var room := MakeRoom(sizes, |children|);
    var more := Splice(children, at, Pane(session));
    SharesOfJoin(sizes, at);
    RoomOfShares(sizes);
    ShareOf(|children|);
    var shares := Splice(room, at, share);
    NormalizeKeepsShares(shares);
    SpliceAt(children, at, Pane(session));
    KeepAroundFresh(children, room, at, share, session);
    PruneSplit(axis, more, shares, session, at, Kept(children, room));
    NormalizeUndoesScaling(sizes, 1.0 - share);
  }

  lemma JoinedHas(axis: Axis, children: seq<Node>, sizes: seq<real>, at: nat, session: int)
    requires at <= |children|
    ensures Has(Joined(axis, children, sizes, at, session), session)
  {
    hide MakeRoom, Normalize;
    assert Joined(axis, children, sizes, at, session).children[at] == Pane(session);
  }

  lemma HalveThenPrune(held: int, p: Placement)
    requires held != p.session
    ensures Prune(Halve(Pane(held), p), p.session) == Some(Pane(held))
    ensures Has(Halve(Pane(held), p), p.session)
  {
    var node := Halve(Pane(held), p);
    var x := if p.before then 0 else 1;
    assert Has(node.children[x], p.session);
    AlignLength(node.sizes, 2);
    var z := Align(node.sizes, 2);
    KeepConcat([node.children[0]], [node.children[1]], [z[0]], [z[1]], p.session);
    assert node.children == [node.children[0]] + [node.children[1]];
    assert z == [z[0]] + [z[1]];
    assert Keep(node.children, z, p.session).children == [Pane(held)];
  }

  /** The heart of the inverse: below any node that holds the target, the rewrite can be pruned away. */
  lemma {:induction false} RewriteThenPrune(node: Node, p: Placement)
    requires WellFormed(node) && !Has(node, p.session)
    ensures Prune(Rewrite(node, p), p.session) == Some(node)
    ensures Has(node, p.target) ==> Has(Rewrite(node, p), p.session)
    decreases node
  {
    match node
    case Pane(held) =>
      if held == p.target {
        HalveThenPrune(held, p);
      }
    case Split(axis, children, sizes) =>
      if !Has(node, p.target) {
        PruneOther(node, p.session);
      } else {
        var index := IndexOf(children, p.target);
        if axis == p.axis && index < |children| {
          JoinedThenPruned(node, index, p);
        } else {
          forall i | 0 <= i < |children|
            ensures Prune(Rewrite(children[i], p), p.session) == Some(children[i])
            ensures Has(children[i], p.target) ==> Has(Rewrite(children[i], p), p.session)
          {
            RewriteThenPrune(children[i], p);
          }
          NestedThenPruned(node, p);
        }
      }
  }

  lemma JoinedThenPruned(node: Node, index: nat, p: Placement)
    requires WellFormed(node) && node.Split? && !Has(node, p.session) && index < |node.children|
    ensures Prune(Join(node, index, p), p.session) == Some(node)
    ensures Has(Join(node, index, p), p.session)
  {
    hide Prune, Joined;
    var at := if p.before then index else index + 1;
    JoinThenPrune(node.axis, node.children, node.sizes, at, p.session);
    JoinedHas(node.axis, node.children, node.sizes, at, p.session);
  }

  lemma NestedThenPruned(node: Node, p: Placement)
    requires WellFormed(node) && node.Split? && Has(node, p.target)
    requires forall i :: 0 <= i < |node.children| ==>
      Prune(Rewrite(node.children[i], p), p.session) == Some(node.children[i])
    requires forall i :: 0 <= i < |node.children| && Has(node.children[i], p.target) ==>
      Has(Rewrite(node.children[i], p), p.session)
    ensures Prune(Nested(node, p), p.session) == Some(node)
    ensures Has(Nested(node, p), p.session)
  {
    var inner := RewriteAll(node.children, p);
    var i :| 0 <= i < |node.children| && Has(node.children[i], p.target);
    NestedPruned(node.axis, node.children, node.sizes, inner, p.session, i) by {
      hide Prune, Rewrite, Keep;
    }
    assert Nested(node, p) == Split(node.axis, inner, node.sizes) by {
      hide Prune, Rewrite, Keep, AreShares, Normalize;
      AlignKeepsShares(node.sizes);
    }
  }

  lemma NestedPruned(axis: Axis, children: seq<Node>, sizes: seq<real>, inner: seq<Node>, session: int, i: nat)
    requires |children| == |inner| >= 2 && AreShares(sizes, |children|) && i < |inner|
    requires forall i :: 0 <= i < |children| ==> Prune(inner[i], session) == Some(children[i])
    requires Has(inner[i], session)
    ensures Prune(Split(axis, inner, sizes), session) == Some(Split(axis, children, sizes))
    ensures Has(Split(axis, inner, sizes), session)
  {
    hide Prune, Keep, Normalize;
    KeepAll(inner, children, sizes, session);
    PruneSplit(axis, inner, sizes, session, i, Kept(children, sizes));
    NormalizeKeepsShares(sizes);
  }

  lemma InsertThenRemove(root: Node, session: int, axis: Axis)
    requires WellFormed(root) && session > 0 && !Has(root, session)
    ensures RemovePane(InsertPane(root, session, axis), session) == root
  {
    hide Prune, Joined, Fresh;
    match root
    case Pane(held) =>
      if held > 0 {
        InsertBesideOne(held, session, axis);
      } else {
        PruneOnly(session);
      }
    case Split(a, children, sizes) =>
      JoinThenPrune(a, children, sizes, |children|, session);
      JoinedHas(a, children, sizes, |children|, session);
  }

  lemma PruneOnly(session: int)
    ensures Prune(Pane(session), session) == None
  {
  }

  lemma InsertBesideOne(held: int, session: int, axis: Axis)
    requires 0 < held != session
    ensures Prune(Fresh(axis, [Pane(held), Pane(session)], [0.5, 0.5]), session) == Some(Pane(held))
    ensures Has(Fresh(axis, [Pane(held), Pane(session)], [0.5, 0.5]), session)
  {
    var p := Placement(held, session, axis, 0.5, false);
    HalveThenPrune(held, p);
    assert Halve(Pane(held), p) == Fresh(axis, [Pane(held), Pane(session)], [0.5, 0.5]);
  }

  /** Closing the pane that a split opened gives the tree from before the split, ratios included. */
  lemma SplitThenRemove(root: Node, p: Placement)
    requires WellFormed(root) && p.session > 0 && !Has(root, p.session)
    ensures RemovePane(SplitPane(root, p), p.session) == root
  {
    if Has(root, p.target) {
      RewriteThenPrune(root, p);
    } else {
      InsertThenRemove(root, p.session, p.axis);
    }
  }
}
