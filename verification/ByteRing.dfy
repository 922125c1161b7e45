/**
 * The holder's byte ring: a fixed array that wraps, holding the newest bytes of the
 * PTY stream. `history` is every byte ever pushed; the array is its tail.
 */
module ByteRing {
  import opened Prelude

  /** Array slot of the k-th live byte: the code's `(start + k) % cap`, for k <= cap. */
  function Slot(start: nat, k: nat, cap: nat): int {
    if start + k < cap then start + k else start + k - cap
  }

  lemma WrapOnce(x: nat, cap: nat)
    requires x < 2 * cap
    ensures x % cap == Slot(x, 0, cap)
  {
    if x >= cap {
      assert x == (x - cap) + 1 * cap;
    }
  }

  /** The last `len` bytes of `history` lie in `cells` from slot `start` on, wrapping. */
  ghost predicate Window(cells: seq<byte>, start: nat, len: nat, history: seq<byte>)
    requires len <= |history| && len <= |cells|
    requires start < |cells| || start == 0
  {
    forall k :: 0 <= k < len ==> cells[Slot(start, k, |cells|)] == history[|history| - len + k]
  }

  /** `data` written over `cells` from slot `wp`, wrapping. */
  ghost function Overwrite(cells: seq<byte>, wp: nat, data: seq<byte>): seq<byte>
    requires wp < |cells| && |data| < |cells|
  {
    seq(|cells|, i requires 0 <= i < |cells| =>
      var j := if wp <= i then i - wp else i + |cells| - wp;
      if j < |data| then data[j] else cells[i])
  }

  /** Writing at the end of the window and moving its start past what no longer fits. */
  lemma WindowMoves(cells: seq<byte>, start: nat, len: nat, history: seq<byte>, data: seq<byte>)
    requires len <= |history| && len <= |cells| && start < |cells| && |data| < |cells|
    requires Window(cells, start, len, history)
    ensures var len' := Min(len + |data|, |cells|);
            var start' := Slot(start, len + |data| - len', |cells|);
            Window(Overwrite(cells, Slot(start, len, |cells|), data), start', len', history + data)
  {
    var cap := |cells|;
    var len' := Min(len + |data|, cap);
    var lost := len + |data| - len';
    var start' := Slot(start, lost, cap);
    var cells' := Overwrite(cells, Slot(start, len, cap), data);
    forall k | 0 <= k < len'
      ensures cells'[Slot(start', k, cap)] == (history + data)[|history + data| - len' + k]
    {
      assert Slot(start', k, cap) == if start + lost + k < cap then start + lost + k
                                     else if start + lost + k < 2 * cap then start + lost + k - cap
                                     else start + lost + k - 2 * cap;
      if k < len' - |data| {
        assert cells[Slot(start, k + lost, cap)] == history[|history| - len + k + lost];
      }
    }
  }

  class Ring {
    const buf: array<byte>
    var start: nat
    var len: nat
    var written: nat
    ghost var history: seq<byte>

    ghost predicate Valid()
      reads this, buf
    {
      && written == |history|
      && len == Min(|history|, buf.Length)
      && (start < buf.Length || start == 0)
      && Window(buf[..], start, len, history)
    }

    constructor (capacity: nat)
      ensures Valid() && fresh(buf)
      ensures buf.Length == capacity && history == []
    {
      buf := new byte[capacity](_ => 0);
      start, len, written, history := 0, 0, 0, [];
    }

    method Push(data: seq<byte>)
      requires Valid()
      modifies this, buf
      ensures Valid()
      ensures history == old(history) + data
    {
      written := written + |data|;
      history := history + data;
      var cap := buf.Length;
      if |data| >= cap {
        var off := |data| - cap;
        forall k | 0 <= k < cap { buf[k] := data[off + k]; }
        start := 0;
        len := cap;
        return;
      }
      WindowMoves(buf[..], start, len, old(history), data);
      Append(data);
    }

    /** Fewer bytes than the ring holds: written after the newest, over the oldest. */
    method Append(data: seq<byte>)
      requires |data| < buf.Length && len <= buf.Length && start < buf.Length
      modifies this`start, this`len, buf
      ensures len == Min(old(len) + |data|, buf.Length)
      ensures start == Slot(old(start), old(len) + |data| - len, buf.Length)
      ensures buf[..] == Overwrite(old(buf[..]), Slot(old(start), old(len), buf.Length), data)
    {
      var cap := buf.Length;
      WrapOnce(start + len, cap);
      var wp := (start + len) % cap;
      CopyIn(wp, data);
      len := len + |data|;
      if len > cap {
        WrapOnce(start + len - cap, cap);
        start := (start + len - cap) % cap;
        len := cap;
      }
    }

    /** The slice copies: up to the end of the array, then the rest from its front. */
    method CopyIn(wp: nat, data: seq<byte>)
      requires wp < buf.Length && |data| < buf.Length
      modifies buf
      ensures buf[..] == Overwrite(old(buf[..]), wp, data)
    {
      var first := buf.Length - wp;
      if |data| <= first {
        forall k | 0 <= k < |data| { buf[wp + k] := data[k]; }
      } else {
        forall k | 0 <= k < first { buf[wp + k] := data[k]; }
        forall k | 0 <= k < |data| - first { buf[k] := data[first + k]; }
      }
    }

    /** Absolute offset of the oldest byte still held. */
    function BaseOffset(): (base: nat)
      requires Valid()
      reads this, buf
      ensures base == Max(|history| - buf.Length, 0)
    {
      written - len
    }

    method Dump() returns (out: seq<byte>)
      requires Valid()
      ensures out == Suffix(history, buf.Length)
    {
      if len == 0 { return []; }
      var cap := buf.Length;
      if start + len <= cap {
        out := buf[start..start + len];
      } else {
        out := buf[start..cap] + buf[..start + len - cap];
      }
      assert forall k :: 0 <= k < len ==> out[k] == buf[..][Slot(start, k, cap)];
    }

    method Since(offset: nat) returns (data: seq<byte>, gap: bool)
      requires Valid()
      ensures gap <==> offset < BaseOffset()
      ensures data == if offset <= |history| then history[Max(offset, BaseOffset())..] else []
    {
      var base := BaseOffset();
      if offset <= base {
        data := Dump();
        return data, offset < base;
      }
      if offset >= written { return [], false; }
      var skip := offset - base;
      var all := Dump();
      return all[skip..], false;
    }
  }
}
