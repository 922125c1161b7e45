/**
 * Where a new member's pane goes (packages/server/src/workspace-store.ts:424, 433-459): beside the one it was
 * split from, on the side and along the axis that the direction says, at the end of the row without one.
 */
module WorkspaceSplits {
  import opened Prelude
  import opened Shares
  import opened LayoutTree
  import opened LayoutShape
  import opened LayoutAreas
  import LayoutRows
  import opened WorkspaceModel
  import opened WorkspaceProofs

  // ---- Order ------------------------------------------------------------------------------------

  /** Right of and below its target the new session follows it, left of and above it precedes it. */
  function Around(panes: seq<int>, i: nat, session: int, direction: Direction): seq<int>
    requires i < |panes|
  {
    match direction
    case ToRight => panes[..i] + [panes[i], session] + panes[i + 1..]
    case ToDown => panes[..i] + [panes[i], session] + panes[i + 1..]
    case ToLeft => panes[..i] + [session, panes[i]] + panes[i + 1..]
    case ToUp => panes[..i] + [session, panes[i]] + panes[i + 1..]
  }

  lemma OnlyOne(panes: seq<int>, i: nat)
    requires Distinct(panes) && i < |panes|
    ensures panes == panes[..i] + [panes[i]] + panes[i + 1..]
    ensures panes[i] !in panes[..i] && panes[i] !in panes[i + 1..]
  {
  }

  lemma BesideOne(target: int, p: Placement)
    requires p.target == target
    ensures Beside([target], p) == Pair(p)
  {
    assert [target][1..] == [] && Pair(p) + [] == Pair(p);
  }

  lemma BesideAt(panes: seq<int>, i: nat, session: int, direction: Direction)
    requires Distinct(panes) && i < |panes|
    ensures Beside(panes, PlacementOf(panes[i], session, direction)) == Around(panes, i, session, direction)
  {
    hide Distinct, Beside;
    var p := PlacementOf(panes[i], session, direction);
    var head, tail := panes[..i], panes[i + 1..];
    OnlyOne(panes, i);
    BesideConcat(head + [panes[i]], tail, p);
    BesideConcat(head, [panes[i]], p);
    BesideAbsent(head, p);
    BesideAbsent(tail, p);
    BesideOne(panes[i], p);
  }

  // ---- Axis -------------------------------------------------------------------------------------

  /** Somewhere in the tree a split along `axis` holds the two panes as neighbours, in this order. */
  predicate Neighbours(node: Node, axis: Axis, first: int, second: int)
    decreases node
  {
    node.Split? && (
      || (node.axis == axis && exists i :: 0 <= i < |node.children| - 1 && Adjoin(node.children, i, first, second))
      || exists i :: 0 <= i < |node.children| && Neighbours(node.children[i], axis, first, second))
  }

  predicate Adjoin(children: seq<Node>, i: nat, first: int, second: int)
    requires i + 1 < |children|
  {
    children[i] == Pane(first) && children[i + 1] == Pane(second)
  }

  lemma JoinedNeighbours(node: Node, index: nat, p: Placement)
    requires node.Split? && index < |node.children| && node.children[index] == Pane(p.target) && node.axis == p.axis
    ensures Neighbours(Join(node, index, p), p.axis, Pair(p)[0], Pair(p)[1])
  {
    var at := if p.before then index else index + 1;
    SpliceAt(node.children, at, Pane(p.session));
    var children := Splice(node.children, at, Pane(p.session));
    assert Adjoin(children, index, Pair(p)[0], Pair(p)[1]);
  }

  lemma {:induction false} RewriteMakesNeighbours(node: Node, p: Placement)
    requires Has(node, p.target)
    ensures Neighbours(Rewrite(node, p), p.axis, Pair(p)[0], Pair(p)[1])
    decreases node
  {
    match node
    case Pane(held) => assert Adjoin(Halve(node, p).children, 0, Pair(p)[0], Pair(p)[1]);
    case Split(axis, children, sizes) =>
      var index := IndexOf(children, p.target);
      if axis == p.axis && index < |children| {
        JoinedNeighbours(node, index, p);
      } else {
        var i :| 0 <= i < |children| && Has(children[i], p.target);
        RewriteMakesNeighbours(children[i], p);
        assert RewriteAll(children, p)[i] == Rewrite(children[i], p);
      }
  }

  /** Side by side for left and right, one above the other for up and down. */
  function AxisOf(direction: Direction): Axis {
    match direction
    case ToRight => Row
    case ToLeft => Row
    case ToDown => Col
    case ToUp => Col
  }

  /** The pair as it stands in the row or column. */
  function InOrder(target: int, session: int, direction: Direction): (int, int) {
    match direction
    case ToRight => (target, session)
    case ToDown => (target, session)
    case ToLeft => (session, target)
    case ToUp => (session, target)
  }

  /**
   * splitRight with a target that the layout shows: the new session stands directly beside it on the side the
   * direction names, in a row for left and right and a column for up and down, and everyone else keeps its order.
   */
  lemma SplitPlaces(ws: Workspace, target: int, request: Request, direction: Direction, now: int)
    requires GoodTree(ws.layout) && Has(ws.layout, target)
    requires request.session > 0 && !Has(ws.layout, request.session)
    ensures
      var layout := WithSplit(ws, Some(target), request, direction, now).layout;
      var (first, second) := InOrder(target, request.session, direction);
      && (exists i :: 0 <= i < |Panes(ws.layout)| && Panes(ws.layout)[i] == target
            && Panes(layout) == Around(Panes(ws.layout), i, request.session, direction))
      && Neighbours(layout, AxisOf(direction), first, second)
  {
    var p := PlacementOf(target, request.session, direction);
    HasIsListed(ws.layout, target);
    var i :| 0 <= i < |Panes(ws.layout)| && Panes(ws.layout)[i] == target;
    SplitListsBeside(ws.layout, p);
    BesideAt(Panes(ws.layout), i, request.session, direction);
    RewriteMakesNeighbours(ws.layout, p);
  }

  /** Without a target, or with one that the layout does not show, it comes last. */
  lemma SplitWithoutTarget(ws: Workspace, target: Option<int>, request: Request, direction: Direction, now: int)
    requires GoodTree(ws.layout) && (target.Some? ==> !Has(ws.layout, target.value))
    requires request.session > 0 && !Has(ws.layout, request.session)
    ensures
      Panes(WithSplit(ws, target, request, direction, now).layout)
      == if ws.layout == EMPTY_PANE then [request.session] else Panes(ws.layout) + [request.session]
  {
    InsertListsLast(ws.layout, request.session, Row);
    InsertListsLast(ws.layout, request.session, Col);
  }

  /** So does an added member that has no pane yet; one that has keeps it. */
  lemma AddPlacesLast(ws: Workspace, request: Request, now: int)
    requires GoodTree(ws.layout) && request.session > 0
    ensures
      var layout := WithMember(ws, request, now).layout;
      if Has(ws.layout, request.session) then layout == ws.layout
      else Panes(layout) == if ws.layout == EMPTY_PANE then [request.session] else Panes(ws.layout) + [request.session]
  {
    if !Has(ws.layout, request.session) {
      InsertListsLast(ws.layout, request.session, Row);
    }
  }

  // ---- Room -------------------------------------------------------------------------------------

  /** The target's cell in two equal parts, every other cell as it was. */
  function Halved(cells: seq<Cell>, target: int, session: int, direction: Direction): seq<Cell> {
    if cells == [] then []
    else
      var half := cells[0].area / 2.0;
      var (first, second) := InOrder(target, session, direction);
      (if cells[0].session == target then [Cell(first, half), Cell(second, half)] else [cells[0]])
      + Halved(cells[1..], target, session, direction)
  }

  lemma {:induction false} CutHalves(cells: seq<Cell>, target: int, session: int, direction: Direction)
    ensures CutAll(cells, PlacementOf(target, session, direction)) == Halved(cells, target, session, direction)
  {
    if cells != [] {
      assert Part(cells[0].area, 0.5) == cells[0].area / 2.0;
      CutHalves(cells[1..], target, session, direction);
    }
  }

  /** When it cannot join the target's row, the new pane takes half of the target's room and nobody else's. */
  lemma SplitHalves(ws: Workspace, target: int, request: Request, direction: Direction, now: int, area: real)
    requires GoodTree(ws.layout) && Has(ws.layout, target)
    requires request.session > 0 && !Has(ws.layout, request.session)
    requires !Joins(ws.layout, PlacementOf(target, request.session, direction))
    ensures
      var layout := WithSplit(ws, Some(target), request, direction, now).layout;
      && WellFormed(layout)
      && Cells(layout, area) == Halved(Cells(ws.layout, area), target, request.session, direction)
  {
    var p := PlacementOf(target, request.session, direction);
    LayoutRows.SplitCutsTheTarget(ws.layout, p, area);
    CutHalves(Cells(ws.layout, area), target, request.session, direction);
  }

  lemma PairShares(held: int, session: int, area: real)
    requires held > 0 && session > 0 && held != session
    ensures WellFormed(InsertPane(Pane(held), session, Row))
    ensures Cells(InsertPane(Pane(held), session, Row), area) == [Cell(held, area / 2.0), Cell(session, area / 2.0)]
  {
    hide Fresh, Cells, WellFormed;
    PairCells(Row, held, session, 0.5, 0.5, area);
    assert Part(area, 0.5) == area / 2.0;
  }

  lemma RowShares(row: Node, session: int, area: real)
    requires row.Split? && WellFormed(row) && session > 0
    ensures
      var n := |row.children|;
      var joined := Joined(row.axis, row.children, row.sizes, n, session);
      && WellFormed(joined)
      && Cells(joined, area) == Shrink(Cells(row, area), Rest(n)) + Newcomer(session, area, n)
  {
    hide Joined, Shrink, Newcomer, Rest, Part, Cells, CellsOf;
    var n := |row.children|;
    JoiningShrinksAlike(row.axis, row.children, row.sizes, n, session, area);
    CellsOfParts(row.axis, row.children, row.sizes, n, area);
    hide WellFormed;
    NothingAfter(row, area);
    EndsHere(Before(row.children, row.sizes, n, area));
    EndsHere(Shrink(Cells(row, area), Rest(n)) + Newcomer(session, area, n));
  }

  /** One part in n + 1 goes to the newcomer, the rest is left to the others. */
  lemma NewcomerTakes(session: int, area: real, n: nat)
    ensures Newcomer(session, area, n) == [Cell(session, Part(area, 1.0 / (n + 1) as real))]
    ensures Rest(n) == 1.0 - 1.0 / (n + 1) as real
  {
  }

  lemma EndsHere(cells: seq<Cell>)
    ensures cells + [] == cells
  {
  }

  lemma JoinedAxis(row: Node, session: int)
    requires row.Split?
    ensures
      var joined := Joined(row.axis, row.children, row.sizes, |row.children|, session);
      joined.Split? && joined.axis == row.axis
  {
  }

  lemma NothingAfter(row: Node, area: real)
    requires row.Split? && WellFormed(row)
    ensures After(row.children, row.sizes, |row.children|, area) == [] && forall k :: Shrink([], k) == []
  {
  }

  /** A member added to a lone pane takes half of it, beside it; one added to an empty workspace takes it all. */
  lemma AddToOnePane(ws: Workspace, request: Request, now: int, area: real)
    requires ws.layout.Pane? && ws.layout.session >= 0 && request.session > 0 && ws.layout.session != request.session
    ensures
      var held, layout := ws.layout.session, WithMember(ws, request, now).layout;
      && WellFormed(layout)
      && (held == 0 ==> layout == Pane(request.session))
      && (held > 0 ==> layout.Split? && layout.axis == Row
                       && Cells(layout, area) == [Cell(held, area / 2.0), Cell(request.session, area / 2.0)])
  {
    hide Cells, WithMember;
    LayoutStays(ws, request, now);
    if ws.layout.session > 0 {
      PairShares(ws.layout.session, request.session, area);
    }
  }

  /** One added to a row or column takes an equal part at its end, and the others shrink alike. */
  lemma AddSharesAlike(ws: Workspace, request: Request, now: int, area: real)
    requires WellFormed(ws.layout) && ws.layout.Split? && request.session > 0 && !Has(ws.layout, request.session)
    ensures
      var n, layout := |ws.layout.children|, WithMember(ws, request, now).layout;
      && WellFormed(layout) && layout.Split? && layout.axis == ws.layout.axis
      && Cells(layout, area) == Shrink(Cells(ws.layout, area), Rest(n)) + Newcomer(request.session, area, n)
  {
    var row := ws.layout;
    var joined := Joined(row.axis, row.children, row.sizes, |row.children|, request.session);
    LayoutStays(ws, request, now);
    InsertJoins(row, request.session);
    hide Joined, Shrink, Part, Newcomer, Rest, WithMember, InsertPane, Cells, WellFormed, Has;
    RowShares(row, request.session, area);
    JoinedAxis(row, request.session);
  }

  lemma InsertJoins(row: Node, session: int)
    requires row.Split? && session > 0 && !Has(row, session)
    ensures InsertPane(row, session, Row) == Joined(row.axis, row.children, row.sizes, |row.children|, session)
  {
    hide Joined;
  }

  lemma LayoutStays(ws: Workspace, request: Request, now: int)
    ensures WithMember(ws, request, now).layout == InsertPane(ws.layout, request.session, Row)
  {
  }
}
