/**
 * How much of the viewport each pane gets, and what a split does to that
 * (packages/shared/src/layout-tree.ts:84-138): across the axis only the target gives up room; along the
 * axis everybody in the row gives up the same fraction.
 */
module LayoutAreas {
  import opened Prelude
  import opened Shares
  import opened LayoutTree
  import LayoutShape

  datatype Cell = Cell(session: int, area: real)

  /** The panes of a tree drawn on an area, each with its part. */
  function Cells(node: Node, area: real): seq<Cell>
    requires WellFormed(node)
    decreases node
  {
    match node
    case Pane(session) => [Cell(session, area)]
    case Split(_, children, sizes) => CellsOf(children, sizes, area)
  }

  function CellsOf(children: seq<Node>, sizes: seq<real>, area: real): seq<Cell>
    requires AllWellFormed(children) && |sizes| == |children|
    decreases children
  {
    if children == [] then []
    else Cells(children[0], Part(area, sizes[0])) + CellsOf(children[1..], sizes[1..], area)
  }

  lemma OneCell(node: Node, share: real, area: real)
    requires WellFormed(node)
    ensures AllWellFormed([node])
    ensures CellsOf([node], [share], area) == Cells(node, Part(area, share))
  {
    assert [node][1..] == [] && [share][1..] == [];
    assert CellsOf([node][1..], [share][1..], area) == [];
  }

  lemma {:induction false} CellsOfConcat(a: seq<Node>, b: seq<Node>, y: seq<real>, z: seq<real>, area: real)
    requires AllWellFormed(a) && AllWellFormed(b) && |y| == |a| && |z| == |b|
    ensures AllWellFormed(a + b)
    ensures CellsOf(a + b, y + z, area) == CellsOf(a, y, area) + CellsOf(b, z, area)
  {
    AllOfConcat(a, b);
    if a == [] {
      assert a + b == b && y + z == z;
    } else {
      assert (a + b)[1..] == a[1..] + b && (y + z)[1..] == y[1..] + z;
      CellsOfConcat(a[1..], b, y[1..], z, area);
      Associate(Cells(a[0], Part(area, y[0])), CellsOf(a[1..], y[1..], area), CellsOf(b, z, area));
    }
  }

  lemma AllOfConcat(a: seq<Node>, b: seq<Node>)
    requires AllWellFormed(a) && AllWellFormed(b)
    ensures AllWellFormed(a + b)
  {
    hide WellFormed;
  }

  function Total(cells: seq<Cell>): real {
    if cells == [] then 0.0 else cells[0].area + Total(cells[1..])
  }

  lemma {:induction false} TotalConcat(a: seq<Cell>, b: seq<Cell>)
    ensures Total(a + b) == Total(a) + Total(b)
  {
    if a == [] {
      assert a + b == b;
    } else {
      assert (a + b)[1..] == a[1..] + b;
      TotalConcat(a[1..], b);
    }
  }

  /** The panes tile the whole area: nothing is left over, nothing is given twice. */
  lemma {:induction false} CellsTile(node: Node, area: real)
    requires WellFormed(node)
    ensures Total(Cells(node, area)) == area
    decreases node
  {
    if node.Split? {
      CellsOfTile(node.children, node.sizes, area);
    }
  }

  lemma {:induction false} CellsOfTile(children: seq<Node>, sizes: seq<real>, area: real)
    requires AllWellFormed(children) && |sizes| == |children|
    ensures Total(CellsOf(children, sizes, area)) == Part(area, Sum(sizes))
    decreases children
  {
    if children != [] {
      CellsTile(children[0], Part(area, sizes[0]));
      CellsOfTile(children[1..], sizes[1..], area);
      TotalConcat(Cells(children[0], Part(area, sizes[0])), CellsOf(children[1..], sizes[1..], area));
      Distribute(area, sizes[0], Sum(sizes[1..]));
    }
  }

  lemma Regroup(x: real, k: real, y: real)
    ensures Part(Part(x, k), y) == Part(Part(x, y), k)
    ensures Part(x, Part(y, k)) == Part(Part(x, k), y)
  {
  }

  lemma Distribute(x: real, a: real, b: real)
    ensures Part(x, a + b) == Part(x, a) + Part(x, b)
  {
  }

  // ---- Across the axis --------------------------------------------------------------------------

  /** Some row along the new pane's axis holds the target itself, so the new pane would join that row. */
  predicate Joins(node: Node, p: Placement)
    decreases node
  {
    node.Split? && (
      || (node.axis == p.axis && IndexOf(node.children, p.target) < |node.children|)
      || exists i :: 0 <= i < |node.children| && Joins(node.children[i], p))
  }

  /** The asked ratio, but neither side gets less than a twentieth. */
  function Clamped(ratio: real): real {
    if ratio < 0.05 then 0.05 else if ratio > 0.95 then 0.95 else ratio
  }

  function Cut(cell: Cell, p: Placement): seq<Cell> {
    var ratio := Clamped(p.ratio);
    var newcomer, rest := Cell(p.session, Part(cell.area, ratio)), Cell(cell.session, Part(cell.area, 1.0 - ratio));
    if cell.session != p.target then [cell] else if p.before then [newcomer, rest] else [rest, newcomer]
  }

  function CutAll(cells: seq<Cell>, p: Placement): seq<Cell> {
    if cells == [] then [] else Cut(cells[0], p) + CutAll(cells[1..], p)
  }

  lemma {:induction false} CutConcat(a: seq<Cell>, b: seq<Cell>, p: Placement)
    ensures CutAll(a + b, p) == CutAll(a, p) + CutAll(b, p)
  {
    if a == [] {
      assert a + b == b;
    } else {
      assert (a + b)[1..] == a[1..] + b;
      CutConcat(a[1..], b, p);
      Associate(Cut(a[0], p), CutAll(a[1..], p), CutAll(b, p));
    }
  }

  lemma CutOne(cell: Cell, p: Placement)
    ensures CutAll([cell], p) == Cut(cell, p)
  {
    assert [cell][1..] == [];
  }

  lemma PairCells(axis: Axis, a: int, b: int, x: real, y: real, area: real)
    requires a >= 0 && b >= 0 && x >= 0.0 && y >= 0.0 && x + y == 1.0
    ensures WellFormed(Fresh(axis, [Pane(a), Pane(b)], [x, y]))
    ensures Cells(Fresh(axis, [Pane(a), Pane(b)], [x, y]), area) == [Cell(a, Part(area, x)), Cell(b, Part(area, y))]
  {
    hide Normalize;
    SumOfTwo(x, y);
    AlignKeepsShares([x, y]);
    OneCell(Pane(a), x, area);
    OneCell(Pane(b), y, area);
    CellsOfConcat([Pane(a)], [Pane(b)], [x], [y], area);
    assert [Pane(a)] + [Pane(b)] == [Pane(a), Pane(b)] && [x] + [y] == [x, y];
  }

  lemma HalveCuts(held: int, p: Placement, area: real)
    requires held >= 0 && p.session >= 0 && held == p.target
    ensures WellFormed(Halve(Pane(held), p))
    ensures Cells(Halve(Pane(held), p), area) == Cut(Cell(held, area), p)
  {
    hide Fresh, Cells, WellFormed;
    var r := Bounded(p.ratio);
    PairCells(p.axis, held, p.session, 1.0 - r, r, area);
    PairCells(p.axis, p.session, held, r, 1.0 - r, area);
  }

  lemma SumOfTwo(x: real, y: real)
    ensures Sum([x, y]) == x + y
  {
    assert [x, y][1..] == [y] && [y][1..] == [];
    assert Sum([y]) == y;
  }

  lemma {:induction false} CutNobody(node: Node, p: Placement, area: real)
    requires WellFormed(node) && !Has(node, p.target)
    ensures CutAll(Cells(node, area), p) == Cells(node, area)
    decreases node
  {
    match node
    case Pane(held) => CutOne(Cell(held, area), p);
    case Split(_, children, sizes) => CutNobodyOf(children, sizes, p, area);
  }

  lemma {:induction false} CutNobodyOf(children: seq<Node>, sizes: seq<real>, p: Placement, area: real)
    requires AllWellFormed(children) && |sizes| == |children|
    requires forall i :: 0 <= i < |children| ==> !Has(children[i], p.target)
    ensures CutAll(CellsOf(children, sizes, area), p) == CellsOf(children, sizes, area)
    decreases children
  {
    if children != [] {
      CutNobody(children[0], p, Part(area, sizes[0]));
      CutNobodyOf(children[1..], sizes[1..], p, area);
      CutConcat(Cells(children[0], Part(area, sizes[0])), CellsOf(children[1..], sizes[1..], area), p);
    }
  }

  /** When the new pane nests, the target alone gives up room; every other pane keeps exactly its own. */
  lemma {:induction false} NestingCutsTheTarget(node: Node, p: Placement, area: real)
    requires WellFormed(node) && p.session >= 0 && !Joins(node, p)
    ensures WellFormed(Rewrite(node, p))
    ensures Cells(Rewrite(node, p), area) == CutAll(Cells(node, area), p)
    decreases node
  {
    if !Has(node, p.target) {
      CutNobody(node, p, area);
    } else if node.Pane? {
      CutOne(Cell(node.session, area), p);
      HalveCuts(node.session, p, area);
    } else {
      AlignKeepsShares(node.sizes);
      NestingCutsTheTargetIn(node.children, node.sizes, p, area);
    }
  }

  lemma {:induction false} NestingCutsTheTargetIn(children: seq<Node>, sizes: seq<real>, p: Placement, area: real)
    requires AllWellFormed(children) && |sizes| == |children| && p.session >= 0
    requires forall i :: 0 <= i < |children| ==> !Joins(children[i], p)
    ensures AllWellFormed(RewriteAll(children, p))
    ensures CellsOf(RewriteAll(children, p), sizes, area) == CutAll(CellsOf(children, sizes, area), p)
    decreases children
  {
    if children != [] {
      NestingCutsTheTarget(children[0], p, Part(area, sizes[0]));
      NestingCutsTheTargetIn(children[1..], sizes[1..], p, area);
      CutConcat(Cells(children[0], Part(area, sizes[0])), CellsOf(children[1..], sizes[1..], area), p);
      assert RewriteAll(children, p)[1..] == RewriteAll(children[1..], p);
    }
  }

  // ---- Along the axis ---------------------------------------------------------------------------

  function Shrink(cells: seq<Cell>, k: real): seq<Cell> {
    if cells == [] then []
    else [Cell(cells[0].session, Part(cells[0].area, k))] + Shrink(cells[1..], k)
  }

  lemma {:induction false} ShrinkConcat(a: seq<Cell>, b: seq<Cell>, k: real)
    ensures Shrink(a + b, k) == Shrink(a, k) + Shrink(b, k)
  {
    if a == [] {
      assert a + b == b;
    } else {
      assert (a + b)[1..] == a[1..] + b;
      ShrinkConcat(a[1..], b, k);
      Associate([Cell(a[0].session, Part(a[0].area, k))], Shrink(a[1..], k), Shrink(b, k));
    }
  }

  lemma {:induction false} CellsOfShrunk(node: Node, area: real, k: real)
    requires WellFormed(node)
    ensures Cells(node, Part(area, k)) == Shrink(Cells(node, area), k)
    decreases node
  {
    if node.Split? {
      CellsOfAllShrunk(node.children, node.sizes, area, k);
    } else {
      assert [Cell(node.session, area)][1..] == [];
      assert Shrink([Cell(node.session, area)], k) == [Cell(node.session, Part(area, k))];
    }
  }

  lemma {:induction false} CellsOfAllShrunk(children: seq<Node>, sizes: seq<real>, area: real, k: real)
    requires AllWellFormed(children) && |sizes| == |children|
    ensures CellsOf(children, sizes, Part(area, k)) == Shrink(CellsOf(children, sizes, area), k)
    decreases children
  {
    if children != [] {
      CellsOfShrunk(children[0], Part(area, sizes[0]), k);
      Regroup(area, k, sizes[0]);
      CellsOfAllShrunk(children[1..], sizes[1..], area, k);
      ShrinkConcat(Cells(children[0], Part(area, sizes[0])), CellsOf(children[1..], sizes[1..], area), k);
    }
  }

  lemma {:induction false} CellsOfScaled(children: seq<Node>, sizes: seq<real>, area: real, k: real)
    requires AllWellFormed(children) && |sizes| == |children|
    ensures CellsOf(children, Scale(sizes, k), area) == CellsOf(children, sizes, Part(area, k))
    decreases children
  {
    if children != [] {
      Regroup(area, k, sizes[0]);
      assert Scale(sizes, k)[1..] == Scale(sizes[1..], k);
      CellsOfScaled(children[1..], sizes[1..], area, k);
    }
  }

  /** The part of a list of cells before position `at` of the row, and the part after it. */
  function Before(children: seq<Node>, sizes: seq<real>, at: nat, area: real): seq<Cell>
    requires AllWellFormed(children) && |sizes| == |children| && at <= |children|
  {
    CellsOf(children[..at], sizes[..at], area)
  }

  function After(children: seq<Node>, sizes: seq<real>, at: nat, area: real): seq<Cell>
    requires AllWellFormed(children) && |sizes| == |children| && at <= |children|
  {
    CellsOf(children[at..], sizes[at..], area)
  }

  function Newcomer(session: int, area: real, count: nat): seq<Cell> {
    [Cell(session, Part(area, 1.0 / (count + 1) as real))]
  }

  /** What is left to the others when one more joins `count` of them. */
  function Rest(count: nat): real {
    1.0 - 1.0 / (count + 1) as real
  }

  lemma PartsAreFormed(children: seq<Node>, at: nat)
    requires AllWellFormed(children) && at <= |children|
    ensures AllWellFormed(children[..at]) && AllWellFormed(children[at..])
  {
    hide WellFormed;
  }

  /** A row cut at any position shows the cells of its two parts. */
  lemma CellsOfParts(axis: Axis, children: seq<Node>, sizes: seq<real>, at: nat, area: real)
    requires WellFormed(Split(axis, children, sizes)) && at <= |children|
    ensures Cells(Split(axis, children, sizes), area)
         == Before(children, sizes, at, area) + After(children, sizes, at, area)
  {
    PartsAreFormed(children, at);
    CellsOfConcat(children[..at], children[at..], sizes[..at], sizes[at..], area);
    assert children[..at] + children[at..] == children && sizes[..at] + sizes[at..] == sizes;
  }

  lemma ShrunkPart(children: seq<Node>, sizes: seq<real>, area: real, k: real)
    requires AllWellFormed(children) && |sizes| == |children|
    ensures CellsOf(children, Scale(sizes, k), area) == Shrink(CellsOf(children, sizes, area), k)
  {
    CellsOfScaled(children, sizes, area, k);
    CellsOfAllShrunk(children, sizes, area, k);
  }

  lemma SplicedCells(children: seq<Node>, room: seq<real>, at: nat, session: nat, area: real)
    requires AllWellFormed(children) && |room| == |children| && at <= |children|
    ensures AllWellFormed(Splice(children, at, Pane(session)))
    ensures
      CellsOf(Splice(children, at, Pane(session)), Splice(room, at, 1.0 / (|children| + 1) as real), area)
      == Before(children, room, at, area) + Newcomer(session, area, |children|) + After(children, room, at, area)
  {
    hide CellsOf, WellFormed;
    var share := 1.0 / (|children| + 1) as real;
    var a, b := children[..at], children[at..];
    PartsAreFormed(children, at);
    NewcomerCell(session, share, area);
    CellsOfConcat(a, [Pane(session)], room[..at], [share], area);
    CellsOfConcat(a + [Pane(session)], b, room[..at] + [share], room[at..], area);
  }

  lemma NewcomerCell(session: nat, share: real, area: real)
    ensures AllWellFormed([Pane(session)])
    ensures CellsOf([Pane(session)], [share], area) == [Cell(session, Part(area, share))]
  {
    OneCell(Pane(session), share, area);
  }

  lemma JoinedShares(axis: Axis, children: seq<Node>, sizes: seq<real>, at: nat, session: nat)
    requires WellFormed(Split(axis, children, sizes)) && at <= |children|
    ensures WellFormed(Joined(axis, children, sizes, at, session))
    ensures Joined(axis, children, sizes, at, session)
         == Split(axis, Splice(children, at, Pane(session)),
                  Splice(Scale(sizes, Rest(|children|)), at, 1.0 / (|children| + 1) as real))
  {
    hide Normalize, Sum, Scale, Splice, AllWellFormed, MakeRoom;
    RoomOfShares(sizes);
    SharesOfJoin(sizes, at);
    NormalizeKeepsShares(Splice(MakeRoom(sizes, |children|), at, 1.0 / (|children| + 1) as real));
    LayoutShape.JoinedIsFormed(axis, children, sizes, at, session);
  }

  /** A newcomer among n takes one part in n + 1, and everybody else shrinks by the same factor. */
  lemma JoiningShrinksAlike(axis: Axis, children: seq<Node>, sizes: seq<real>, at: nat, session: nat, area: real)
    requires WellFormed(Split(axis, children, sizes)) && at <= |children|
    ensures WellFormed(Joined(axis, children, sizes, at, session))
    ensures
      Cells(Joined(axis, children, sizes, at, session), area)
      == Shrink(Before(children, sizes, at, area), Rest(|children|))
         + Newcomer(session, area, |children|)
         + Shrink(After(children, sizes, at, area), Rest(|children|))
  {
    JoinedShares(axis, children, sizes, at, session);
    var k := Rest(|children|);
    var room := Scale(sizes, k);
    SplicedCells(children, room, at, session, area);
    PartsAreFormed(children, at);
    ScaleParts(sizes, at, k);
    ShrunkPart(children[..at], sizes[..at], area, k);
    ShrunkPart(children[at..], sizes[at..], area, k);
  }
}
