/**
 * Anchors: ground offsets of the PTY stream, recorded on a coarse grid, from which the
 * holder can serve a tail that is lexically safe to start reading.
 */
module Anchors {
  import opened Prelude
  import opened Lexer

  const ANCHOR_GRAIN: nat := 4096
  const ANCHOR_CAP: nat := 512

  function Last(s: seq<nat>): nat requires s != [] { s[|s| - 1] }

  /**
   * Every anchor the stream ever earns: byte 0, then each first ground offset at least
   * one grain past the one before.
   */
  ghost function Grid(stream: seq<byte>): (grid: seq<nat>)
    ensures grid != []
  {
    if stream == [] then [0]
    else
      var grid := Grid(stream[..|stream| - 1]);
      if Lex(Ground, stream) == Ground && |stream| - Last(grid) >= ANCHOR_GRAIN
      then grid + [|stream|] else grid
  }

  lemma GridSnoc(stream: seq<byte>, b: byte)
    ensures Grid(stream + [b]) == if Lex(Ground, stream + [b]) == Ground && |stream| + 1 - Last(Grid(stream)) >= ANCHOR_GRAIN
                                  then Grid(stream) + [|stream| + 1] else Grid(stream)
  {
    assert (stream + [b])[..|stream|] == stream;
  }

  lemma {:induction false} GridInBounds(stream: seq<byte>, i: nat)
    requires i < |Grid(stream)|
    ensures Grid(stream)[i] <= |stream|
    ensures GroundAt(stream, Grid(stream)[i])
    ensures i > 0 ==> Grid(stream)[i] >= Grid(stream)[i - 1] + ANCHOR_GRAIN
  {
    if stream != [] {
      var init := stream[..|stream| - 1];
      if i < |Grid(init)| {
        GridInBounds(init, i);
        assert init + [stream[|stream| - 1]] == stream;
        GroundAtPrefix(init, [stream[|stream| - 1]], Grid(init)[i]);
      } else {
        assert stream[..|stream|] == stream;
      }
    }
  }

  lemma {:induction false} GridSpread(stream: seq<byte>, i: nat, j: nat)
    requires i <= j < |Grid(stream)|
    ensures Grid(stream)[j] >= Grid(stream)[i] + (j - i) * ANCHOR_GRAIN
  {
    if i < j {
      GridInBounds(stream, j);
      GridSpread(stream, i, j - 1);
    }
  }

  lemma {:induction false} GridGrows(stream: seq<byte>, more: seq<byte>)
    ensures Grid(stream) <= Grid(stream + more)
  {
    if more == [] {
      assert stream + more == stream;
    } else {
      var init := more[..|more| - 1];
      GridGrows(stream, init);
      assert (stream + more)[..|stream + more| - 1] == stream + init;
    }
  }

  /** The grid misses no stretch of ground: each ground offset has an anchor less than a grain behind it. */
  lemma {:induction false} GridComplete(stream: seq<byte>, g: nat) returns (i: nat)
    requires GroundAt(stream, g)
    ensures i < |Grid(stream)| && Grid(stream)[i] <= g < Grid(stream)[i] + ANCHOR_GRAIN
  {
    GridGrows(stream[..g], stream[g..]);
    assert stream[..g] + stream[g..] == stream;
    var grid := Grid(stream[..g]);
    i := |grid| - 1;
    GridInBounds(stream[..g], i);
    assert g == 0 ==> stream[..g] == [];
  }

  // ───── What pruning and eviction leave ─────

  /** Index of the first anchor from `i` on that is at or past `base`. */
  function PruneTo(grid: seq<nat>, i: nat, base: nat): (j: nat)
    requires i <= |grid|
    ensures i <= j <= |grid|
    ensures forall k :: i <= k < j ==> grid[k] < base
    ensures j < |grid| ==> grid[j] >= base
    decreases |grid| - i
  {
    if i < |grid| && grid[i] < base then PruneTo(grid, i + 1, base) else i
  }

  function FirstAtOrAfter(anchors: seq<nat>, base: nat): Option<nat> {
    if anchors == [] then None
    else if anchors[0] >= base then Some(anchors[0])
    else FirstAtOrAfter(anchors[1..], base)
  }

  lemma {:induction false} FirstAtOrAfterFinds(anchors: seq<nat>, base: nat)
    ensures match FirstAtOrAfter(anchors, base)
            case None => forall k :: 0 <= k < |anchors| ==> anchors[k] < base
            case Some(a) => exists k :: 0 <= k < |anchors| && anchors[k] == a >= base
                                        && forall j :: 0 <= j < k ==> anchors[j] < base
  {
    if anchors != [] && anchors[0] < base {
      FirstAtOrAfterFinds(anchors[1..], base);
      if FirstAtOrAfter(anchors, base).Some? {
        var a := FirstAtOrAfter(anchors, base).value;
        var k :| 0 <= k < |anchors[1..]| && anchors[1..][k] == a && forall j :: 0 <= j < k ==> anchors[1..][j] < base;
        assert anchors[k + 1] == a;
        assert forall j :: 1 <= j < k + 1 ==> anchors[j] == anchors[1..][j - 1];
      } else {
        assert forall j :: 1 <= j < |anchors| ==> anchors[j] == anchors[1..][j - 1];
      }
    }
  }

  /** What is left of the anchor deque after `data`: evicted at the cap, then pruned below the ring. */
  ghost function DroppedAfter(history: seq<byte>, dropped: nat, cap: nat, data: seq<byte>): (d: nat)
    requires dropped <= |Grid(history)|
    ensures d <= |Grid(history + data)|
  {
    var grid := Grid(history + data);
    GridGrows(history, data);
    PruneTo(grid, Max(dropped, |grid| - ANCHOR_CAP), Max(|history + data| - cap, 0))
  }

  /** From the first safe offset still held to the end; nothing, at the end, when none survives. */
  ghost function SafeTailOf(history: seq<byte>, anchors: seq<nat>, base: nat): (nat, seq<byte>) {
    match FirstAtOrAfter(anchors, base)
    case Some(safe) => if safe < |history| then (safe, history[safe..]) else (|history|, [])
    case None => (|history|, [])
  }

  class AnchorTracker {
    var state: LexState
    var anchors: seq<nat>
    var lastAnchor: nat
    ghost var seen: seq<byte>
    ghost var dropped: nat  // how many anchors of the grid have left the deque

    ghost predicate Valid()
      reads this
    {
      && state == Lex(Ground, seen)
      && lastAnchor == Last(Grid(seen))
      && dropped <= |Grid(seen)|
      && anchors == Grid(seen)[dropped..]
      && |anchors| <= ANCHOR_CAP
    }

    constructor ()
      ensures Valid()
      ensures seen == [] && dropped == 0
    {
      state, anchors, lastAnchor, seen, dropped := Ground, [0], 0, [], 0;
    }

    /** Feed bytes that begin at absolute stream offset `start`. */
    method Feed(data: seq<byte>, start: nat)
      requires Valid() && start == |seen|
      modifies this
      ensures Valid()
      ensures seen == old(seen) + data
      ensures dropped == Max(old(dropped), |Grid(seen)| - ANCHOR_CAP)
    {
      var i := 0;
      while i < |data|
        invariant i <= |data|
        invariant seen == old(seen) + data[..i]
        invariant Valid()
        invariant dropped == Max(old(dropped), |Grid(seen)| - ANCHOR_CAP)
      {
        FeedByte(data[i], start + i + 1);
        assert data[..i + 1] == data[..i] + [data[i]];
        i := i + 1;
      }
      assert data[..i] == data;
    }

    /** One turn of the loop: `boundary` is the offset just past byte `b`. */
    method FeedByte(b: byte, boundary: nat)
      requires Valid() && boundary == |seen| + 1
      modifies this
      ensures Valid()
      ensures seen == old(seen) + [b]
      ensures dropped == Max(old(dropped), |Grid(seen)| - ANCHOR_CAP)
    {
      LexSnoc(Ground, seen, b);
      GridSnoc(seen, b);
      state := Step(state, b);
      seen := seen + [b];
      if state == Ground {
        if boundary - lastAnchor >= ANCHOR_GRAIN {
          if |anchors| >= ANCHOR_CAP {
            anchors := anchors[1..];
            dropped := dropped + 1;
          }
          anchors := anchors + [boundary];
          lastAnchor := boundary;
        }
      }
    }

    method PruneBelow(base: nat)
      requires Valid()
      modifies this
      ensures Valid()
      ensures seen == old(seen)
      ensures dropped == PruneTo(Grid(seen), old(dropped), base)
    {
      while |anchors| > 0
        invariant Valid() && seen == old(seen)
        invariant PruneTo(Grid(seen), old(dropped), base) == PruneTo(Grid(seen), dropped, base)
        decreases |anchors|
      {
        var front := anchors[0];
        if front >= base { break; }
        anchors := anchors[1..];
        dropped := dropped + 1;
      }
    }

    method FirstSafe(base: nat) returns (first: Option<nat>)
      ensures first == FirstAtOrAfter(anchors, base)
    {
      var i := 0;
      while i < |anchors|
        invariant i <= |anchors|
        invariant FirstAtOrAfter(anchors, base) == FirstAtOrAfter(anchors[i..], base)
      {
        if anchors[i] >= base { return Some(anchors[i]); }
        i := i + 1;
      }
      return None;
    }
  }
}
