/** What the preset layouts look like (packages/shared/src/layout-presets.ts:11-64): axes, rows and areas. */
module PresetShapes {
  import opened Prelude
  import opened Shares
  import opened LayoutTree
  import opened LayoutShape
  import opened LayoutAreas
  import opened LayoutPresets

  predicate NoneNegative(ids: seq<int>) {
    forall i :: 0 <= i < |ids| ==> ids[i] >= 0
  }

  /** Each of the sessions with the same area. */
  function EachWith(ids: seq<int>, area: real): seq<Cell> {
    if ids == [] then [] else [Cell(ids[0], area)] + EachWith(ids[1..], area)
  }

  lemma {:induction false} PaneCells(ids: seq<int>, share: real, area: real)
    requires NoneNegative(ids)
    ensures AllWellFormed(PanesFor(ids))
    ensures CellsOf(PanesFor(ids), Repeat(share, |ids|), area) == EachWith(ids, Part(area, share))
  {
    if ids != [] {
      var panes, shares := PanesFor(ids), Repeat(share, |ids|);
      PaneCells(ids[1..], share, area);
      assert panes[0] == Pane(ids[0]) && panes[1..] == PanesFor(ids[1..]);
      assert shares[0] == share && shares[1..] == Repeat(share, |ids[1..]|);
      FirstCells(panes, shares, area);
      assert Cells(panes[0], Part(area, share)) == [Cell(ids[0], Part(area, share))];
    }
  }

  lemma FirstCells(children: seq<Node>, sizes: seq<real>, area: real)
    requires children != [] && AllWellFormed(children) && |sizes| == |children|
    ensures WellFormed(children[0]) && AllWellFormed(children[1..])
    ensures CellsOf(children, sizes, area) == Cells(children[0], Part(area, sizes[0])) + CellsOf(children[1..], sizes[1..], area)
  {
  }

  /** A list side by side, or one above the other, in equal parts. */
  lemma EvenCells(axis: Axis, ids: seq<int>, area: real)
    requires |ids| >= 2 && NoneNegative(ids)
    ensures Even(axis, ids).Split? && Even(axis, ids).axis == axis && WellFormed(Even(axis, ids))
    ensures Cells(Even(axis, ids), area) == EachWith(ids, Part(area, 1.0 / |ids| as real))
  {
    hide CellsOf, EachWith, PanesFor, Repeat;
    EvenPlaces(axis, ids);
    PaneCells(ids, 1.0 / |ids| as real, area);
  }

  /** even-h is a row and even-v a column, both in equal parts. */
  lemma EvenPresets(ids: seq<int>, area: real)
    requires |ids| >= 2 && NoneNegative(ids)
    ensures
      var h, v := PresetLayout(EvenH, ids), PresetLayout(EvenV, ids);
      && h.Split? && h.axis == Row && v.Split? && v.axis == Col && WellFormed(h) && WellFormed(v)
      && Cells(h, area) == EachWith(ids, Part(area, 1.0 / |ids| as real))
      && Cells(v, area) == EachWith(ids, Part(area, 1.0 / |ids| as real))
  {
    EvenCells(Row, ids, area);
    EvenCells(Col, ids, area);
  }

  /** main-v gives the first session six tenths on the left; the others share the rest, stacked. */
  lemma MainPreset(ids: seq<int>, area: real)
    requires |ids| >= 2 && NoneNegative(ids)
    ensures
      var layout := PresetLayout(MainV, ids);
      && layout.Split? && layout.axis == Row && WellFormed(layout)
      && (|ids| >= 3 ==> layout.children[1].Split? && layout.children[1].axis == Col)
      && Cells(layout, area)
         == [Cell(ids[0], Part(area, 0.6))] + EachWith(ids[1..], Part(Part(area, 0.4), 1.0 / (|ids| - 1) as real))
  {
    hide CellsOf, EachWith, PanesFor, Repeat, Even, Part;
    var rest := Even(Col, ids[1..]);
    if |ids| >= 3 {
      EvenAxis(ids[1..]);
    }
    MainFirstPlaces(ids);
    EvenPlaces(Col, ids[1..]);
    RestCells(ids[1..], Part(area, 0.4));
    OneCell(Pane(ids[0]), 0.6, area);
    OneCell(rest, 0.4, area);
    CellsOfConcat([Pane(ids[0])], [rest], [0.6], [0.4], area);
    assert [Pane(ids[0])] + [rest] == [Pane(ids[0]), rest] && [0.6] + [0.4] == [0.6, 0.4];
  }

  lemma EvenAxis(ids: seq<int>)
    requires |ids| >= 2
    ensures Even(Col, ids).Split? && Even(Col, ids).axis == Col
  {
  }

  lemma RestCells(ids: seq<int>, area: real)
    requires ids != [] && NoneNegative(ids)
    ensures WellFormed(Even(Col, ids)) && Cells(Even(Col, ids), area) == EachWith(ids, Part(area, 1.0 / |ids| as real))
  {
    if |ids| == 1 {
      assert EachWith(ids[1..], Part(area, 1.0)) == [];
      assert Part(area, 1.0 / 1 as real) == area;
    } else {
      EvenCells(Col, ids, area);
    }
  }

  /** tiled stacks its rows in equal heights, each a row of equal parts; a single row stands alone. */
  lemma TiledPreset(ids: seq<int>)
    requires |ids| >= 2
    ensures
      var layout, rows := PresetLayout(Tiled, ids), Rows(ids, Columns(|ids|));
      && (|rows| == 1 ==> layout == PresetLayout(EvenH, ids))
      && (|rows| > 1 ==>
            && layout.Split? && layout.axis == Col && |layout.children| == |rows|
            && (forall i :: 0 <= i < |rows| ==>
                  layout.children[i] == PresetLayout(EvenH, rows[i]) && layout.sizes[i] == 1.0 / |rows| as real))
  {
    RowsCover(ids, Columns(|ids|));
    var rows := Rows(ids, Columns(|ids|));
    if |rows| == 1 {
      FlattenSnoc([], rows[0]);
    }
  }

  /** auto goes by the number of panes: up to two side by side, up to five around a main one, then tiled. */
  lemma AutoPreset(ids: seq<int>)
    ensures PresetLayout(Auto, ids)
         == PresetLayout(if |ids| <= 2 then EvenH else if |ids| <= 5 then MainV else Tiled, ids)
  {
  }
}
