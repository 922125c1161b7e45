/**
 * Length-prefixed framing between holder and server:
 * [4-byte little-endian length][1-byte command][payload], length = 1 + payload bytes.
 */
module Frames {
  import opened Prelude

  const TWO32: nat := 0x1_0000_0000

  datatype Frame = Frame(cmd: byte, payload: seq<byte>)

  function U32Le(n: nat): (out: seq<byte>)
    requires n < TWO32
    ensures |out| == 4
  {
    [n % 256, n / 256 % 256, n / 256 / 256 % 256, n / 256 / 256 / 256]
  }

  function FromU32Le(b: seq<byte>): (n: nat)
    requires |b| == 4
  {
    b[0] as int + 256 * (b[1] as int + 256 * (b[2] as int + 256 * (b[3] as int)))
  }

  lemma U32RoundTrip(n: nat)
    requires n < TWO32
    ensures FromU32Le(U32Le(n)) == n
  {
  }

  /** The frame on the wire. The length is cast to 32 bits, so it wraps for an oversized payload. */
  function EncodeFrame(f: Frame): seq<byte> {
    U32Le((1 + |f.payload|) % TWO32) + [f.cmd] + f.payload
  }

  function EncodeAll(frames: seq<Frame>): seq<byte> {
    if frames == [] then [] else EncodeFrame(frames[0]) + EncodeAll(frames[1..])
  }

  predicate Encodable(f: Frame) { 1 + |f.payload| < TWO32 }

  datatype Cut = NeedMore | Got(frame: Frame, rest: seq<byte>)

  /** The first whole frame of a buffer. A zero length never becomes a frame. */
  function Next(buf: seq<byte>): (cut: Cut)
    ensures cut.Got? ==> |cut.rest| + 5 + |cut.frame.payload| == |buf|
  {
    if |buf| < 5 then NeedMore
    else
      var flen := FromU32Le(buf[..4]);
      if flen == 0 || |buf| < 4 + flen then NeedMore
      else Got(Frame(buf[4], buf[5..4 + flen]), buf[4 + flen..])
  }

  datatype Decoded = Decoded(frames: seq<Frame>, left: seq<byte>) {
    function Prepend(earlier: seq<Frame>): Decoded { Decoded(earlier + frames, left) }
  }

  /** All whole frames of a buffer, and what remains behind them. */
  function Decode(buf: seq<byte>): Decoded
    decreases |buf|
  {
    match Next(buf)
    case NeedMore => Decoded([], buf)
    case Got(f, rest) => Decode(rest).Prepend([f])
  }

  lemma PrependTwice(d: Decoded, a: seq<Frame>, b: seq<Frame>)
    ensures d.Prepend(b).Prepend(a) == d.Prepend(a + b)
    ensures d.Prepend([]) == d
  {
    assert a + (b + d.frames) == (a + b) + d.frames;
    assert [] + d.frames == d.frames;
  }

  lemma NextOfEncoded(f: Frame, tail: seq<byte>)
    requires Encodable(f)
    ensures Next(EncodeFrame(f) + tail) == Got(f, tail)
  {
    var head := U32Le(1 + |f.payload|);
    var buf := head + [f.cmd] + f.payload + tail;
    assert FromU32Le(head) == 1 + |f.payload| by { U32RoundTrip(1 + |f.payload|); }
    assert EncodeFrame(f) + tail == buf;
    assert buf[..4] == head;
    assert buf[5..5 + |f.payload|] == f.payload;
    assert buf[5 + |f.payload|..] == tail;
  }

  lemma NextIgnoresTail(buf: seq<byte>, more: seq<byte>)
    requires Next(buf).Got?
    ensures Next(buf + more) == Got(Next(buf).frame, Next(buf).rest + more)
  {
    var all := buf + more;
    var flen := FromU32Le(buf[..4]);
    assert all[..4] == buf[..4];
    assert all[5..4 + flen] == buf[5..4 + flen];
    assert all[4 + flen..] == buf[4 + flen..] + more;
  }

  lemma U32BackToBytes(b: seq<byte>)
    requires |b| == 4
    ensures FromU32Le(b) < TWO32 && U32Le(FromU32Le(b)) == b
  {
    var n2 := b[2] as int + 256 * (b[3] as int);
    var n1 := b[1] as int + 256 * n2;
    assert FromU32Le(b) / 256 == n1 && n1 / 256 == n2 && n2 / 256 == b[3];
  }

  /** Putting the frame just taken back at the head restores the buffer. */
  lemma PushBackRestores(buf: seq<byte>)
    requires Next(buf).Got?
    ensures EncodeFrame(Next(buf).frame) + Next(buf).rest == buf
  {
    hide U32Le, FromU32Le;
    var flen := FromU32Le(buf[..4]);
    U32BackToBytes(buf[..4]);
    assert 1 + |Next(buf).frame.payload| == flen;
    InFourParts(buf, 4 + flen);
  }

  lemma InFourParts(buf: seq<byte>, n: nat)
    requires 5 <= n <= |buf|
    ensures buf[..4] + [buf[4]] + buf[5..n] + buf[n..] == buf
  {
  }

  /** Decoding in two feeds gives the frames of one: a cut anywhere changes nothing. */
  lemma {:induction false} DecodeConcat(a: seq<byte>, b: seq<byte>)
    ensures Decode(a + b) == Decode(Decode(a).left + b).Prepend(Decode(a).frames)
    decreases |a|
  {
    match Next(a)
    case NeedMore =>
      PrependTwice(Decode(a + b), [], []);
    case Got(f, rest) =>
      NextIgnoresTail(a, b);
      DecodeConcat(rest, b);
      PrependTwice(Decode(Decode(rest).left + b), [f], Decode(rest).frames);
  }

  lemma {:induction false} DecodeEncoded(frames: seq<Frame>, tail: seq<byte>)
    requires forall f <- frames :: Encodable(f)
    ensures Decode(EncodeAll(frames) + tail) == Decode(tail).Prepend(frames)
  {
    if frames == [] {
      assert EncodeAll(frames) + tail == tail;
      PrependTwice(Decode(tail), [], []);
    } else {
      var rest := EncodeAll(frames[1..]) + tail;
      assert EncodeAll(frames) + tail == EncodeFrame(frames[0]) + rest;
      NextOfEncoded(frames[0], rest);
      DecodeEncoded(frames[1..], tail);
      PrependTwice(Decode(tail), [frames[0]], frames[1..]);
      assert [frames[0]] + frames[1..] == frames;
    }
  }

  /** What a reader has produced, and still holds, after being fed `chunks` one by one. */
  function FeedAll(held: seq<byte>, chunks: seq<seq<byte>>): Decoded
    decreases |chunks|
  {
    if chunks == [] then Decoded([], held)
    else
      var d := Decode(held + chunks[0]);
      FeedAll(d.left, chunks[1..]).Prepend(d.frames)
  }

  lemma {:induction false} FeedAllIsDecode(held: seq<byte>, chunks: seq<seq<byte>>)
    requires Next(held).NeedMore?
    ensures FeedAll(held, chunks) == Decode(held + Flatten(chunks))
    decreases |chunks|
  {
    hide FromU32Le, Next, Decode;
    if chunks == [] {
      assert held + Flatten(chunks) == held;
      DecodeOfPart(held);
    } else {
      var first, rest := held + chunks[0], Flatten(chunks[1..]);
      assert Next(Decode(first).left).NeedMore? by { DecodeLeavesNoFrame(first); }
      FeedAllIsDecode(Decode(first).left, chunks[1..]);
      assert Decode(first + rest) == Decode(Decode(first).left + rest).Prepend(Decode(first).frames) by {
        DecodeConcat(first, rest);
      }
      Associate(held, chunks[0], rest);
    }
  }

  lemma DecodeOfPart(held: seq<byte>)
    requires Next(held).NeedMore?
    ensures Decode(held) == Decoded([], held)
  {
  }

  lemma {:induction false} DecodeLeavesNoFrame(buf: seq<byte>)
    ensures Next(Decode(buf).left).NeedMore?
    decreases |buf|
  {
    if Next(buf).Got? { DecodeLeavesNoFrame(Next(buf).rest); }
  }

  /** Any chunking of encoded frames yields exactly those frames and leaves nothing over. */
  lemma AnyChunkingRoundTrips(frames: seq<Frame>, chunks: seq<seq<byte>>)
    requires forall f <- frames :: Encodable(f)
    requires Flatten(chunks) == EncodeAll(frames)
    ensures FeedAll([], chunks) == Decoded(frames, [])
  {
    FeedAllIsDecode([], chunks);
    assert [] + Flatten(chunks) == EncodeAll(frames);
    DecodeOnlyEncoded(frames);
  }

  lemma DecodeOnlyEncoded(frames: seq<Frame>)
    requires forall f <- frames :: Encodable(f)
    ensures Decode(EncodeAll(frames)) == Decoded(frames, [])
  {
    DecodeEncoded(frames, []);
    assert EncodeAll(frames) + [] == EncodeAll(frames);
    assert Decode([]).frames == [];
    assert frames + [] == frames;
  }

  /** A frame survives the wire exactly when its length fits the 32-bit prefix. */
  lemma RoundTripIffEncodable(f: Frame)
    ensures Decode(EncodeFrame(f)) == Decoded([f], []) <==> Encodable(f)
  {
    var wire := EncodeFrame(f);
    if Encodable(f) {
      assert EncodeAll([f]) == wire;
      DecodeOnlyEncoded([f]);
    } else {
      var cast := (1 + |f.payload|) % TWO32;
      U32RoundTrip(cast);
      assert wire[..4] == U32Le(cast);
      if Next(wire).Got? {
        assert Decode(wire).frames[0] == Next(wire).frame;
        assert |Next(wire).frame.payload| == cast - 1 < |f.payload|;
      }
    }
  }

  // ───── Payloads with a header ─────

  const TWO64: nat := TWO32 * TWO32

  function U64Le(n: nat): (out: seq<byte>)
    requires n < TWO64
    ensures |out| == 8
  {
    U32Le(n % TWO32) + U32Le(n / TWO32)
  }

  function FromU64Le(b: seq<byte>): nat
    requires |b| == 8
  {
    FromU32Le(b[..4]) + TWO32 * FromU32Le(b[4..])
  }

  lemma U64RoundTrip(n: nat)
    requires n < TWO64
    ensures FromU64Le(U64Le(n)) == n
  {
    U32RoundTrip(n % TWO32);
    U32RoundTrip(n / TWO32);
    assert U64Le(n)[..4] == U32Le(n % TWO32) && U64Le(n)[4..] == U32Le(n / TWO32);
  }

  /** Live output: a sequence number ahead of the raw bytes. */
  function DataOutPayload(seqNo: nat, data: seq<byte>): seq<byte>
    requires seqNo < TWO32
  {
    U32Le(seqNo) + data
  }

  /** A replay: [u64 base][u64 end][u8 gap][bytes]. */
  function ReplayPayload(base: nat, end: nat, gap: bool, data: seq<byte>): seq<byte>
    requires base < TWO64 && end < TWO64
  {
    U64Le(base) + U64Le(end) + [if gap then 1 else 0] + data
  }

  datatype ReplayHead = ReplayHead(base: nat, end: nat, gap: bool, data: seq<byte>)

  /** The server's reading of it. */
  function ParseReplay(p: seq<byte>): ReplayHead
    requires |p| >= 17
  {
    ReplayHead(FromU64Le(p[0..8]), FromU64Le(p[8..16]), p[16] == 1, p[17..])
  }

  /** What the holder packs into a payload is what the server takes out of it. */
  lemma PayloadsRoundTrip(base: nat, end: nat, gap: bool, seqNo: nat, data: seq<byte>)
    requires base < TWO64 && end < TWO64 && seqNo < TWO32
    ensures ParseReplay(ReplayPayload(base, end, gap, data)) == ReplayHead(base, end, gap, data)
    ensures FromU32Le(DataOutPayload(seqNo, data)[..4]) == seqNo && DataOutPayload(seqNo, data)[4..] == data
  {
    hide U32Le, FromU32Le;
    U64RoundTrip(base);
    U64RoundTrip(end);
    U32RoundTrip(seqNo);
    assert DataOutPayload(seqNo, data)[..4] == U32Le(seqNo);
    var p := ReplayPayload(base, end, gap, data);
    assert p[0..8] == U64Le(base) && p[8..16] == U64Le(end) && p[17..] == data;
  }

  // ───── The holder's reader: a growing array ─────

  function NextPowerOfTwo(n: nat): (p: nat)
    ensures p >= n && p >= 1
  {
    PowerFrom(1, n)
  }

  function PowerFrom(p: nat, n: nat): (q: nat)
    requires p >= 1
    ensures q >= n && q >= p
    decreases n - p
  {
    if p >= n then p else PowerFrom(2 * p, n)
  }

  class FrameReader {
    var buf: array<byte>
    var len: nat
    ghost var held: seq<byte>  // the bytes fed and not yet taken out as frames

    ghost predicate Valid()
      reads this, buf
    {
      len <= buf.Length && held == buf[..len]
    }

    constructor ()
      ensures Valid() && fresh(buf) && held == []
    {
      buf := new byte[65536](_ => 0);
      len := 0;
      held := [];
    }

    method Resize(size: nat)
      requires Valid() && size >= len
      modifies this`buf
      ensures Valid() && fresh(buf) && buf.Length == size
      ensures held == old(held)
    {
      var grown := new byte[size](_ => 0);
      forall k | 0 <= k < len { grown[k] := buf[k]; }
      buf := grown;
    }

    method Feed(data: seq<byte>)
      requires Valid()
      modifies this, buf
      ensures Valid() && (buf == old(buf) || fresh(buf))
      ensures held == old(held) + data
    {
      if len + |data| > buf.Length {
        Resize(NextPowerOfTwo(len + |data|));
      }
      forall k | 0 <= k < |data| { buf[len + k] := data[k]; }
      len := len + |data|;
      held := held + data;
    }

    /** Put a decoded frame back at the head of the buffer. */
    method PushBack(f: Frame)
      requires Valid()
      modifies this, buf
      ensures Valid() && (buf == old(buf) || fresh(buf))
      ensures held == EncodeFrame(f) + old(held)
    {
      hide EncodeFrame;
      var framed := EncodeFrame(f);
      var total := |framed| + len;
      if total > buf.Length {
        Resize(NextPowerOfTwo(total));
      }
      Prepend(framed);
      len := total;
      held := framed + held;
    }

    /** The bytes held move up, and the new ones are copied below them. */
    method Prepend(framed: seq<byte>)
      requires |framed| + len <= buf.Length
      modifies buf
      ensures buf[..|framed| + len] == framed + old(buf[..len])
    {
      forall k | 0 <= k < len { buf[|framed| + k] := buf[k]; }
      forall k | 0 <= k < |framed| { buf[k] := framed[k]; }
    }

    method NextFrame() returns (frame: Option<Frame>)
      requires Valid()
      modifies this, buf
      ensures Valid() && buf == old(buf)
      ensures match Next(old(held))
              case NeedMore => frame == None && held == old(held)
              case Got(f, rest) => frame == Some(f) && held == rest
    {
      if len < 5 { return None; }
      var flen := FromU32Le(buf[..4]);
      if flen == 0 || len < 4 + flen { return None; }
      var cmd := buf[4];
      var payload := buf[5..4 + flen];
      var consumed := 4 + flen;
      assert held[..4] == buf[..4];
      assert Next(held) == Got(Frame(cmd, payload), held[consumed..]);
      forall k | 0 <= k < len - consumed { buf[k] := buf[consumed + k]; }
      len := len - consumed;
      held := held[consumed..];
      return Some(Frame(cmd, payload));
    }

    /** Take frames until none is whole. */
    method Drain() returns (frames: seq<Frame>)
      requires Valid()
      modifies this, buf
      ensures Valid() && buf == old(buf)
      ensures Decoded(frames, held) == Decode(old(held))
    {
      frames := [];
      PrependTwice(Decode(held), [], []);
      while true
        invariant Valid() && buf == old(buf)
        invariant Decode(old(held)) == Decode(held).Prepend(frames)
        decreases len
      {
        var next := NextFrame();
        if next == None { break; }
        PrependTwice(Decode(held), frames, [next.value]);
        frames := frames + [next.value];
      }
      assert frames + [] == frames;
    }
  }

  // ───── The server's reader: a buffer that is concatenated and sliced ─────

  class HolderFrameReader {
    var buf: seq<byte>

    constructor ()
      ensures buf == []
    {
      buf := [];
    }

    method Feed(data: seq<byte>)
      modifies this
      ensures buf == old(buf) + data
    {
      buf := if |buf| == 0 then data else buf + data;
    }

    method Drain() returns (frames: seq<Frame>)
      modifies this
      ensures Decoded(frames, buf) == Decode(old(buf))
    {
      frames := [];
      PrependTwice(Decode(buf), [], []);
      while |buf| >= 5
        invariant Decode(old(buf)) == Decode(buf).Prepend(frames)
        decreases |buf|
      {
        var flen := FromU32Le(buf[..4]);
        if flen == 0 || |buf| < 4 + flen { break; }
        var frame := Frame(buf[4], buf[5..4 + flen]);
        assert Next(buf) == Got(frame, buf[4 + flen..]);
        buf := buf[4 + flen..];
        PrependTwice(Decode(buf), frames, [frame]);
        frames := frames + [frame];
      }
      assert frames + [] == frames;
    }
  }

  /** Fed the same chunks, both readers hand out the same frames and keep the same bytes. */
  method FeedBoth(chunks: seq<seq<byte>>) returns (rust: seq<Frame>, ts: seq<Frame>)
    ensures rust == ts == Decode(Flatten(chunks)).frames
  {
    var r := new FrameReader();
    var t := new HolderFrameReader();
    rust, ts := [], [];
    PrependTwice(FeedAll([], chunks), [], []);
    assert chunks[0..] == chunks;
    var i := 0;
    while i < |chunks|
      invariant i <= |chunks| && r.Valid() && fresh(r) && fresh(r.buf) && fresh(t)
      invariant rust == ts && r.held == t.buf
      invariant FeedAll([], chunks) == FeedAll(t.buf, chunks[i..]).Prepend(rust)
    {
      r.Feed(chunks[i]);
      t.Feed(chunks[i]);
      var fs := r.Drain();
      var gs := t.Drain();
      assert chunks[i..][1..] == chunks[i + 1..];
      PrependTwice(FeedAll(t.buf, chunks[i + 1..]), rust, fs);
      rust, ts := rust + fs, ts + gs;
      i := i + 1;
    }
    FeedAllIsDecode([], chunks);
    assert [] + Flatten(chunks) == Flatten(chunks);
  }
}
