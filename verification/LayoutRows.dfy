/**
 * A split along the axis in a whole tree (packages/shared/src/layout-tree.ts:91-138): one row changes, as if it
 * were alone, and every pane outside it keeps exactly its area and its place.
 */
module LayoutRows {
  import opened Prelude
  import opened Shares
  import opened LayoutTree
  import opened LayoutShape
  import opened LayoutAreas

  /** A row found in a tree: its area, and the cells that come before and after it. */
  datatype Found = Found(row: Node, area: real, before: seq<Cell>, after: seq<Cell>)

  /** The row holds the target itself and runs along the new pane's axis. */
  predicate IsTargetRow(row: Node, p: Placement) {
    row.Split? && row.axis == p.axis && IndexOf(row.children, p.target) < |row.children|
  }

  /** Where the new pane goes in its row. */
  function Position(row: Node, p: Placement): (at: nat)
    requires IsTargetRow(row, p)
    ensures at <= |row.children|
  {
    var index := IndexOf(row.children, p.target);
    if p.before then index else index + 1
  }

  /** The cells of a row that a newcomer has joined: everybody shrinks alike around it. */
  function JoinedCells(row: Node, p: Placement, area: real): seq<Cell>
    requires WellFormed(row) && IsTargetRow(row, p)
  {
    var n, at := |row.children|, Position(row, p);
    Shrink(Before(row.children, row.sizes, at, area), Rest(n))
    + Newcomer(p.session, area, n)
    + Shrink(After(row.children, row.sizes, at, area), Rest(n))
  }

  /** The tree's cells are the row's with others around it, and so are the new tree's. */
  predicate OnlyTheRowChanges(f: Found, cells: seq<Cell>, rewritten: seq<Cell>, p: Placement) {
    && WellFormed(f.row) && IsTargetRow(f.row, p)
    && cells == f.before + Cells(f.row, f.area) + f.after
    && rewritten == f.before + JoinedCells(f.row, p, f.area) + f.after
  }

  lemma {:induction false} JoinsHas(node: Node, p: Placement)
    requires Joins(node, p)
    ensures Has(node, p.target)
    decreases node
  {
    var index := IndexOf(node.children, p.target);
    if index < |node.children| {
      assert Has(node.children[index], p.target);
    } else {
      var i :| 0 <= i < |node.children| && Joins(node.children[i], p);
      JoinsHas(node.children[i], p);
    }
  }

  lemma RowJoins(row: Node, p: Placement, area: real)
    requires WellFormed(row) && IsTargetRow(row, p) && p.session >= 0
    ensures WellFormed(Rewrite(row, p))
    ensures Cells(Rewrite(row, p), area) == JoinedCells(row, p, area)
  {
    var index := IndexOf(row.children, p.target);
    assert Has(row.children[index], p.target);
    hide Cells, WellFormed, Joined;
    JoiningShrinksAlike(row.axis, row.children, row.sizes, Position(row, p), p.session, area);
  }

  lemma NothingAround<T>(s: seq<T>)
    ensures [] + s + [] == s
  {
  }

  lemma MoreBefore<T>(head: seq<T>, a: seq<T>, b: seq<T>, c: seq<T>)
    ensures head + (a + b + c) == (head + a) + b + c
  {
  }

  lemma MoreAfter<T>(a: seq<T>, b: seq<T>, c: seq<T>, tail: seq<T>)
    ensures (a + b + c) + tail == a + b + (c + tail)
  {
  }

  lemma Wider(f: Found, cells: seq<Cell>, rewritten: seq<Cell>, p: Placement, head: seq<Cell>, tail: seq<Cell>)
    returns (g: Found)
    requires OnlyTheRowChanges(f, cells, rewritten, p)
    ensures OnlyTheRowChanges(g, head + cells + tail, head + rewritten + tail, p)
  {
    hide Cells, WellFormed, JoinedCells, IsTargetRow;
    g := Found(f.row, f.area, head + f.before, f.after + tail);
    MoreBefore(head, f.before, Cells(f.row, f.area), f.after);
    MoreAfter(head + f.before, Cells(f.row, f.area), f.after, tail);
    assert IsTargetRow(f.row, p) && WellFormed(f.row);
    MoreBefore(head, f.before, JoinedCells(f.row, p, f.area), f.after);
    MoreAfter(head + f.before, JoinedCells(f.row, p, f.area), f.after, tail);
  }

  lemma {:induction false} RowInTree(node: Node, p: Placement, area: real) returns (f: Found)
    requires WellFormed(node) && Distinct(Panes(node)) && p.session >= 0 && Joins(node, p)
    ensures WellFormed(Rewrite(node, p))
    ensures OnlyTheRowChanges(f, Cells(node, area), Cells(Rewrite(node, p), area), p)
    decreases node
  {
    RewriteKeepsForm(node, p);
    if IsTargetRow(node, p) {
      RowJoins(node, p, area);
      f := Found(node, area, [], []);
      NothingAround(Cells(node, area));
      NothingAround(JoinedCells(node, p, area));
    } else {
      JoinsHas(node, p);
      AlignKeepsShares(node.sizes);
      f := RowInChildren(node.children, node.sizes, p, area);
    }
  }

  lemma {:induction false} Unrewritten(children: seq<Node>, p: Placement)
    requires p.target !in PanesOf(children)
    ensures RewriteAll(children, p) == children
    decreases children
  {
    if children != [] {
      HasIsListed(children[0], p.target);
      Unrewritten(children[1..], p);
    }
  }

  lemma JoinerIsThere(children: seq<Node>, p: Placement)
    requires exists i :: 0 <= i < |children| && Joins(children[i], p)
    ensures p.target in PanesOf(children)
    ensures children != []
  {
    var i :| 0 <= i < |children| && Joins(children[i], p);
    JoinsHas(children[i], p);
    HasAnyIsListed(children, p.target);
  }

  lemma {:induction false} RowInChildren(children: seq<Node>, sizes: seq<real>, p: Placement, area: real) returns (f: Found)
    requires AllWellFormed(children) && |sizes| == |children| && p.session >= 0
    requires Distinct(PanesOf(children)) && exists i :: 0 <= i < |children| && Joins(children[i], p)
    ensures AllWellFormed(RewriteAll(children, p))
    ensures OnlyTheRowChanges(f, CellsOf(children, sizes, area), CellsOf(RewriteAll(children, p), sizes, area), p)
    decreases children
  {
    RewriteAllKeepsForm(children, p);
    JoinerIsThere(children, p);
    DistinctParts(Panes(children[0]), PanesOf(children[1..]));
    HasIsListed(children[0], p.target);
    HeadAndRest(children, sizes, p, area);
    var head, tail := Cells(children[0], Part(area, sizes[0])), CellsOf(children[1..], sizes[1..], area);
    if Has(children[0], p.target) {
      JoinerIsFirst(children, p);
      Unrewritten(children[1..], p);
      f := RowInTree(children[0], p, Part(area, sizes[0]));
      f := Wider(f, head, Cells(Rewrite(children[0], p), Part(area, sizes[0])), p, [], tail);
      assert [] + head == head;
      assert [] + Cells(Rewrite(children[0], p), Part(area, sizes[0])) == Cells(Rewrite(children[0], p), Part(area, sizes[0]));
    } else {
      JoinerIsLater(children, p);
      f := RowInChildren(children[1..], sizes[1..], p, area);
      f := Wider(f, tail, CellsOf(RewriteAll(children[1..], p), sizes[1..], area), p, head, []);
      assert (head + tail) + [] == head + tail;
      var rest := CellsOf(RewriteAll(children[1..], p), sizes[1..], area);
      assert (head + rest) + [] == head + rest;
    }
  }

  lemma HeadAndRest(children: seq<Node>, sizes: seq<real>, p: Placement, area: real)
    requires AllWellFormed(children) && |sizes| == |children| > 0 && AllWellFormed(RewriteAll(children, p))
    ensures WellFormed(Rewrite(children[0], p)) && AllWellFormed(RewriteAll(children[1..], p))
    ensures CellsOf(RewriteAll(children, p), sizes, area)
         == Cells(Rewrite(children[0], p), Part(area, sizes[0])) + CellsOf(RewriteAll(children[1..], p), sizes[1..], area)
    ensures !Has(children[0], p.target) ==> Rewrite(children[0], p) == children[0]
  {
    var all := RewriteAll(children, p);
    assert all[0] == Rewrite(children[0], p) && all[1..] == RewriteAll(children[1..], p);
  }

  lemma JoinerIsFirst(children: seq<Node>, p: Placement)
    requires exists i :: 0 <= i < |children| && Joins(children[i], p)
    requires p.target !in PanesOf(children[1..])
    ensures Joins(children[0], p)
  {
    var i :| 0 <= i < |children| && Joins(children[i], p);
    if i > 0 {
      JoinsHas(children[i], p);
      assert children[1..][i - 1] == children[i];
      HasAnyIsListed(children[1..], p.target);
      assert false;
    }
  }

  lemma JoinerIsLater(children: seq<Node>, p: Placement)
    requires exists i :: 0 <= i < |children| && Joins(children[i], p)
    requires !Has(children[0], p.target)
    ensures exists i :: 0 <= i < |children[1..]| && Joins(children[1..][i], p)
  {
    var i :| 0 <= i < |children| && Joins(children[i], p);
    JoinsHas(children[i], p);
    assert children[1..][i - 1] == children[i];
  }

  /**
   * In any tree, a split along the axis of the target's row changes that row alone: the newcomer takes one
   * part in n + 1, the row's panes shrink by the same factor, and everybody else keeps area and place.
   */
  lemma SplitChangesOneRow(root: Node, p: Placement, area: real) returns (f: Found)
    requires WellFormed(root) && Distinct(Panes(root)) && p.session > 0 && !Has(root, p.session)
    requires Joins(root, p)
    ensures WellFormed(SplitPane(root, p))
    ensures OnlyTheRowChanges(f, Cells(root, area), Cells(SplitPane(root, p), area), p)
  {
    JoinsHas(root, p);
    f := RowInTree(root, p, area);
  }

  /** And when no row can be joined, the target's cell alone is cut, wherever it lies in the tree. */
  lemma SplitCutsTheTarget(root: Node, p: Placement, area: real)
    requires WellFormed(root) && p.session > 0 && !Has(root, p.session) && Has(root, p.target)
    requires !Joins(root, p)
    ensures WellFormed(SplitPane(root, p))
    ensures Cells(SplitPane(root, p), area) == CutAll(Cells(root, area), p)
  {
    NestingCutsTheTarget(root, p, area);
  }
}
