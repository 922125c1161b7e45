/**
 * Preset layouts (packages/shared/src/layout-presets.ts:7-64): the panes are put into a fresh tree. Whatever
 * the preset, everyone is shown once, in the order given.
 */
module LayoutPresets {
  import opened Prelude
  import opened Shares
  import opened LayoutTree
  import opened LayoutShape

  datatype Preset = EvenH | EvenV | MainV | Tiled | Auto

  function PanesFor(ids: seq<int>): (r: seq<Node>)
    ensures |r| == |ids| && forall i :: 0 <= i < |ids| ==> r[i] == Pane(ids[i])
  {
    if ids == [] then [] else [Pane(ids[0])] + PanesFor(ids[1..])
  }

  function Even(axis: Axis, ids: seq<int>): Node
    requires ids != []
  {
    if |ids| == 1 then Pane(ids[0]) else Split(axis, PanesFor(ids), Repeat(1.0 / |ids| as real, |ids|))
  }

  function MainFirst(ids: seq<int>): Node
    requires |ids| >= 2
  {
    Split(Row, [Pane(ids[0]), Even(Col, ids[1..])], [0.6, 0.4])
  }

  /** The square root, rounded up. */
  function Columns(n: nat): (c: nat)
    ensures n <= c * c && (c > 0 ==> (c - 1) * (c - 1) < n)
  {
    RootFrom(n, 0)
  }

  function RootFrom(n: nat, c: nat): (r: nat)
    requires c > 0 ==> (c - 1) * (c - 1) < n
    ensures n <= r * r && (r > 0 ==> (r - 1) * (r - 1) < n)
    decreases n - c * c
  {
    if n <= c * c then c else RootFrom(n, c + 1)
  }

  function Rows(ids: seq<int>, columns: nat): (r: seq<seq<int>>)
    requires columns > 0
    ensures forall i :: 0 <= i < |r| ==> r[i] != []
  {
    if ids == [] then []
    else if |ids| <= columns then [ids]
    else [ids[..columns]] + Rows(ids[columns..], columns)
  }

  function RowsOfPanes(rows: seq<seq<int>>): (r: seq<Node>)
    requires forall i :: 0 <= i < |rows| ==> rows[i] != []
    ensures |r| == |rows| && forall i :: 0 <= i < |rows| ==> r[i] == Even(Row, rows[i])
  {
    if rows == [] then [] else [Even(Row, rows[0])] + RowsOfPanes(rows[1..])
  }

  function Grid(rows: seq<seq<int>>): Node
    requires rows != [] && forall i :: 0 <= i < |rows| ==> rows[i] != []
  {
    if |rows| == 1 then Even(Row, rows[0])
    else Split(Col, RowsOfPanes(rows), Repeat(1.0 / |rows| as real, |rows|))
  }

  function PresetLayout(preset: Preset, ids: seq<int>): Node {
    if ids == [] then EMPTY_PANE
    else if |ids| == 1 then Pane(ids[0])
    else match preset
      case EvenH => Even(Row, ids)
      case EvenV => Even(Col, ids)
      case MainV => MainFirst(ids)
      case Tiled => Grid(Rows(ids, Columns(|ids|)))
      case Auto =>
        if |ids| <= 2 then Even(Row, ids)
        else if |ids| <= 5 then MainFirst(ids)
        else Grid(Rows(ids, Columns(|ids|)))
  }

  // ---- Everyone is shown once, in order ---------------------------------------------------------

  lemma {:induction false} PanesForLists(ids: seq<int>)
    ensures PanesOf(PanesFor(ids)) == ids
  {
    if ids != [] {
      PanesForLists(ids[1..]);
    }
  }

  lemma EvenPlaces(axis: Axis, ids: seq<int>)
    requires ids != []
    ensures Panes(Even(axis, ids)) == ids
    ensures (forall i :: 0 <= i < |ids| ==> ids[i] >= 0) ==> WellFormed(Even(axis, ids))
  {
    if |ids| > 1 {
      PanesForLists(ids);
      EvenShares(|ids|);
    }
  }

  lemma {:induction false} RowsOfPanesPlace(rows: seq<seq<int>>)
    requires forall i :: 0 <= i < |rows| ==> rows[i] != []
    ensures PanesOf(RowsOfPanes(rows)) == Flatten(rows)
  {
    if rows != [] {
      EvenPlaces(Row, rows[0]);
      RowsOfPanesPlace(rows[1..]);
    }
  }

  lemma {:induction false} RowsCover(ids: seq<int>, columns: nat)
    requires columns > 0
    ensures Flatten(Rows(ids, columns)) == ids
    ensures forall i, j :: 0 <= i < |Rows(ids, columns)| && 0 <= j < |Rows(ids, columns)[i]| ==>
      Rows(ids, columns)[i][j] in ids
  {
    if ids != [] {
      if |ids| <= columns {
        FlattenSnoc([], ids);
      } else {
        RowsCover(ids[columns..], columns);
        assert ids == ids[..columns] + ids[columns..];
      }
    }
  }

  lemma GridPlaces(rows: seq<seq<int>>)
    requires rows != [] && forall i :: 0 <= i < |rows| ==> rows[i] != []
    ensures Panes(Grid(rows)) == Flatten(rows)
    ensures (forall i, j :: 0 <= i < |rows| && 0 <= j < |rows[i]| ==> rows[i][j] >= 0) ==> WellFormed(Grid(rows))
  {
    forall i | 0 <= i < |rows|
      ensures (forall j :: 0 <= j < |rows[i]| ==> rows[i][j] >= 0) ==> WellFormed(Even(Row, rows[i]))
    {
      EvenPlaces(Row, rows[i]);
    }
    if |rows| == 1 {
      EvenPlaces(Row, rows[0]);
      FlattenSnoc([], rows[0]);
    } else {
      RowsOfPanesPlace(rows);
      EvenShares(|rows|);
    }
  }

  lemma MainFirstPlaces(ids: seq<int>)
    requires |ids| >= 2
    ensures Panes(MainFirst(ids)) == ids
    ensures (forall i :: 0 <= i < |ids| ==> ids[i] >= 0) ==> WellFormed(MainFirst(ids))
  {
    EvenPlaces(Col, ids[1..]);
    PanesOfOne(Pane(ids[0]));
    PanesOfOne(Even(Col, ids[1..]));
    PanesOfConcat([Pane(ids[0])], [Even(Col, ids[1..])]);
    assert Panes(Pane(ids[0])) == [ids[0]] && [ids[0]] + ids[1..] == ids;
    assert Sum([0.6, 0.4]) == 1.0 by {
      assert [0.6, 0.4][1..] == [0.4];
      SumOfOne(0.4);
    }
  }

  lemma TiledPlaces(ids: seq<int>)
    requires |ids| >= 2
    ensures Panes(Grid(Rows(ids, Columns(|ids|)))) == ids
    ensures (forall i :: 0 <= i < |ids| ==> ids[i] >= 0) ==> WellFormed(Grid(Rows(ids, Columns(|ids|))))
  {
    RowsCover(ids, Columns(|ids|));
    GridPlaces(Rows(ids, Columns(|ids|)));
  }

  /** Every preset shows exactly the given sessions, in their order, in a tree of the right form. */
  lemma PresetPlaces(preset: Preset, ids: seq<int>)
    ensures Panes(PresetLayout(preset, ids)) == if ids == [] then [0] else ids
    ensures (forall i :: 0 <= i < |ids| ==> ids[i] >= 0) ==> WellFormed(PresetLayout(preset, ids))
  {
    hide WellFormed, Even, MainFirst, Grid, Rows;
    if |ids| <= 1 {
      FewPlaces(preset, ids);
    } else {
      EvenPlaces(Row, ids);
      EvenPlaces(Col, ids);
      MainFirstPlaces(ids);
      TiledPlaces(ids);
    }
  }

  lemma FewPlaces(preset: Preset, ids: seq<int>)
    requires |ids| <= 1
    ensures Panes(PresetLayout(preset, ids)) == if ids == [] then [0] else ids
    ensures (forall i :: 0 <= i < |ids| ==> ids[i] >= 0) ==> WellFormed(PresetLayout(preset, ids))
  {
  }

  // ---- The tiled grid ---------------------------------------------------------------------------

  lemma {:induction false} RowsCount(ids: seq<int>, columns: nat)
    requires columns > 0
    ensures columns * |Rows(ids, columns)| >= |ids|
    ensures ids != [] ==> columns * (|Rows(ids, columns)| - 1) < |ids|
    ensures forall i :: 0 <= i < |Rows(ids, columns)| - 1 ==> |Rows(ids, columns)[i]| == columns
    ensures ids != [] ==> 0 < |Rows(ids, columns)[|Rows(ids, columns)| - 1]| <= columns
  {
    if |ids| > columns {
      RowsCount(ids[columns..], columns);
    }
  }

  /** The grid is as square as can be: as many rows as columns, or one fewer; every row but the last is full. */
  lemma TiledIsNearlySquare(ids: seq<int>)
    requires ids != []
    ensures
      var columns, rows := Columns(|ids|), Rows(ids, Columns(|ids|));
      && columns - 1 <= |rows| <= columns
      && (forall i :: 0 <= i < |rows| - 1 ==> |rows[i]| == columns)
      && 0 < |rows[|rows| - 1]| <= columns
  {
    var columns, rows := Columns(|ids|), Rows(ids, Columns(|ids|));
    RowsCount(ids, columns);
    RowsBetween(columns, |rows|, |ids|);
  }

  lemma TimesKeepsOrder(columns: nat, a: int, b: int)
    ensures a <= b ==> columns * a <= columns * b
  {
  }

  lemma RowsBetween(columns: nat, rows: nat, n: nat)
    requires columns > 0 && (columns - 1) * (columns - 1) < n <= columns * columns
    requires columns * (rows - 1) < n <= columns * rows
    ensures columns - 1 <= rows <= columns
  {
    TimesKeepsOrder(columns, columns, rows - 1);
    TimesKeepsOrder(columns, rows, columns - 2);
  }

  /** The loop that cuts the rows. */
  method CutRows(ids: seq<int>, columns: nat) returns (rows: seq<seq<int>>)
    requires columns > 0
    ensures rows == Rows(ids, columns)
  {
    rows := [];
    var i := 0;
    while i < |ids|
      invariant 0 <= i
      invariant Rows(ids, columns) == rows + (if i < |ids| then Rows(ids[i..], columns) else [])
    {
      if i + columns < |ids| {
        assert ids[i..][columns..] == ids[i + columns..] && ids[i..][..columns] == ids[i..i + columns];
        Associate(rows, [ids[i..i + columns]], Rows(ids[i + columns..], columns));
      } else {
        assert ids[i..|ids|] == ids[i..];
      }
      rows := rows + [ids[i..Min(i + columns, |ids|)]];
      i := i + columns;
    }
  }
}
