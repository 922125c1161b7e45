/** The holder's memory of the PTY stream: the byte ring and the anchors into it, kept in step. */
module Recorder {
  import opened Prelude
  import opened ByteRing
  import opened Anchors

  class Recorder {
    const ring: Ring
    const tracker: AnchorTracker
    ghost const cap: nat
    ghost var history: seq<byte>
    ghost var dropped: nat
    ghost const repr: set<object>

    ghost predicate Valid()
      reads this, repr
    {
      && repr == {this, ring, ring.buf, tracker}
      && ring.Valid() && tracker.Valid()
      && ring.buf.Length == cap
      && ring.history == tracker.seen == history
      && dropped == tracker.dropped <= |Grid(history)|
    }

    constructor (capacity: nat)
      ensures Valid() && fresh(repr)
      ensures cap == capacity && history == [] && dropped == 0
    {
      var r := new Ring(capacity);
      var t := new AnchorTracker();
      ring, tracker, cap := r, t, capacity;
      history, dropped := [], 0;
      repr := {this, r, r.buf, t};
    }

    method Record(data: seq<byte>)
      requires Valid()
      modifies repr
      ensures Valid()
      ensures history == old(history) + data
      ensures dropped == DroppedAfter(old(history), old(dropped), cap, data)
    {
      hide Grid, PruneTo;
      var start := ring.written;
      ring.Push(data);
      tracker.Feed(data, start);
      tracker.PruneBelow(ring.BaseOffset());
      history := history + data;
      dropped := tracker.dropped;
    }

    function BaseOffset(): (base: nat)
      requires Valid()
      reads this, repr
      ensures base == Max(|history| - cap, 0)
    {
      ring.BaseOffset()
    }

    function Written(): (n: nat)
      requires Valid()
      reads this, repr
      ensures n == |history|
    {
      ring.written
    }

    method Dump() returns (out: seq<byte>)
      requires Valid()
      ensures out == Suffix(history, cap)
    {
      out := ring.Dump();
    }

    method Since(offset: nat) returns (data: seq<byte>, gap: bool)
      requires Valid()
      ensures gap <==> offset < BaseOffset()
      ensures data == if offset <= |history| then history[Max(offset, BaseOffset())..] else []
    {
      data, gap := ring.Since(offset);
    }

    method CutSafely(base: nat) returns (safeBase: nat, data: seq<byte>)
      requires Valid() && base == BaseOffset()
      ensures (safeBase, data) == SafeTailOf(history, Grid(history)[dropped..], base)
    {
      var first := tracker.FirstSafe(base);
      FirstAtOrAfterFinds(tracker.anchors, base);
      if first.Some? && first.value < ring.written {
        var gap;
        data, gap := ring.Since(first.value);
        return first.value, data;
      }
      return ring.written, [];
    }
  }
}
