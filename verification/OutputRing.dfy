/**
 * The server's ring of output chunks, numbered by a sequence that never restarts. `pushed` is
 * every chunk the ring was ever given; the ring stands for a suffix of it.
 */
module OutputRing {
  import opened Prelude

  datatype Chunk = Chunk(seqNo: nat, data: seq<byte>)

  /** Chunks `lo..hi` of a history that began at sequence number `first`, with their numbers. */
  function Numbered(history: seq<seq<byte>>, first: nat, lo: nat, hi: nat): (chunks: seq<Chunk>)
    requires first <= lo <= hi <= first + |history|
    ensures |chunks| == hi - lo
    ensures forall i :: 0 <= i < hi - lo ==> chunks[i] == Chunk(lo + i, history[lo + i - first])
  {
    seq(hi - lo, i requires 0 <= i < hi - lo => Chunk(lo + i, history[lo + i - first]))
  }

  /** The first position from `i` on whose tail of the history fits in `maxBytes`. */
  function FitFrom(history: seq<seq<byte>>, i: nat, maxBytes: nat): (j: nat)
    requires i <= |history|
    ensures i <= j <= |history|
    ensures |Flatten(history[j..])| <= maxBytes
    ensures forall k :: i <= k < j ==> |Flatten(history[k..])| > maxBytes
    decreases |history| - i
  {
    if |Flatten(history[i..])| <= maxBytes then i
    else FitFrom(history, i + 1, maxBytes)
  }

  /** Chunks `lo..hi` of a history that began at `first`; none when the range is empty. */
  function Window(history: seq<seq<byte>>, first: nat, lo: nat, hi: nat): seq<seq<byte>>
    requires first <= lo && (lo <= hi ==> hi <= first + |history|)
  {
    if lo <= hi then history[lo - first..hi - first] else []
  }

  lemma WindowGrows(history: seq<seq<byte>>, first: nat, lo: nat, hi: nat, at: nat)
    requires first <= lo && first <= at < first + |history| && hi <= first + |history|
    ensures Window(history, first, lo, Min(hi, at + 1))
            == Window(history, first, lo, Min(hi, at)) + if lo <= at < hi then [history[at - first]] else []
  {
  }

  /** A buffer that holds the history from `base` to its end. */
  ghost predicate Holds(chunks: seq<Option<Chunk>>, history: seq<seq<byte>>, first: nat, base: nat) {
    && first <= base && base + |chunks| == first + |history|
    && forall i :: 0 <= i < |chunks| ==> chunks[i] == Some(Chunk(base + i, history[base + i - first]))
  }

  method ChunksAfter(chunks: seq<Option<Chunk>>, seqExclusive: nat,
                     ghost history: seq<seq<byte>>, ghost first: nat, ghost base: nat)
    returns (out: seq<Chunk>)
    requires Holds(chunks, history, first, base)
    ensures var next := base + |chunks|;
            out == Numbered(history, first, Min(Max(seqExclusive + 1, base), next), next)
  {
    out := [];
    ghost var lo := Min(Max(seqExclusive + 1, base), base + |chunks|);
    for i := 0 to |chunks|
      invariant out == Numbered(history, first, Min(lo, base + i), base + i)
    {
      var c := chunks[i].value;
      if c.seqNo > seqExclusive { out := out + [c]; }
    }
  }

  method ChunksWithin(chunks: seq<Option<Chunk>>, fromSeq: nat, toSeqExclusive: nat,
                      ghost history: seq<seq<byte>>, ghost first: nat, ghost base: nat)
    returns (parts: seq<seq<byte>>)
    requires Holds(chunks, history, first, base)
    ensures parts == Window(history, first, Max(fromSeq, base), Min(toSeqExclusive, base + |chunks|))
  {
    parts := [];
    ghost var lo, hi := Max(fromSeq, base), Min(toSeqExclusive, base + |chunks|);
    for i := 0 to |chunks|
      invariant parts == Window(history, first, lo, Min(hi, base + i))
    {
      var c := chunks[i].value;
      WindowGrows(history, first, lo, hi, base + i);
      if c.seqNo >= fromSeq && c.seqNo < toSeqExclusive { parts := parts + [c.data]; }
    }
  }

  class OutputRing {
    var buf: seq<Option<Chunk>>
    var head: nat
    var used: nat
    var nextSeq: nat
    var baseSeq: nat
    const maxBytes: nat
    ghost const first: nat
    ghost var pushed: seq<seq<byte>>

    /** Live slots hold the chunks [baseSeq, nextSeq), in order; `used` is their total size. */
    ghost predicate Chained()
      reads this
    {
      && head <= |buf|
      && first <= baseSeq <= nextSeq == first + |pushed|
      && |buf| - head == nextSeq - baseSeq
      && (forall i :: head <= i < |buf| ==>
            buf[i] == Some(Chunk(baseSeq + i - head, pushed[baseSeq + i - head - first])))
      && used == |Flatten(pushed[baseSeq - first..])|
    }

    ghost predicate Valid()
      reads this
    {
      Chained() && used <= maxBytes
    }

    constructor (max: nat, baseSeqNo: nat)
      ensures Valid()
      ensures maxBytes == max && first == baseSeq == nextSeq == baseSeqNo && pushed == []
    {
      maxBytes, first := max, baseSeqNo;
      buf, head, used, nextSeq, baseSeq, pushed := [], 0, 0, baseSeqNo, baseSeqNo, [];
    }

    method DropOldest()
      requires Chained() && head < |buf|
      modifies `buf, `head, `used, `baseSeq
      ensures Chained()
      ensures baseSeq == old(baseSeq) + 1
    {
      var oldest := buf[head].value;
      assert pushed[baseSeq - first..] == [oldest.data] + pushed[baseSeq + 1 - first..];
      buf := buf[head := None];
      head := head + 1;
      used := used - |oldest.data|;
      baseSeq := oldest.seqNo + 1;
      if head >= 1024 && head * 2 >= |buf| {
        buf := buf[head..];
        head := 0;
      }
    }

    method Push(data: seq<byte>) returns (seqNo: nat)
      requires Valid()
      modifies this
      ensures Valid()
      ensures seqNo == old(nextSeq) && pushed == old(pushed) + [data]
      ensures baseSeq == first + FitFrom(pushed, old(baseSeq) - first, maxBytes)
    {
      seqNo := nextSeq;
      nextSeq := nextSeq + 1;
      FlattenSnoc(pushed[baseSeq - first..], data);
      assert (pushed + [data])[baseSeq - first..] == pushed[baseSeq - first..] + [data];
      buf := buf + [Some(Chunk(seqNo, data))];
      used := used + |data|;
      pushed := pushed + [data];
      while used > maxBytes && head < |buf|
        invariant Chained() && pushed == old(pushed) + [data]
        invariant FitFrom(pushed, baseSeq - first, maxBytes) == FitFrom(pushed, old(baseSeq) - first, maxBytes)
        decreases nextSeq - baseSeq
      {
        DropOldest();
      }
    }

    /** The live chunks, moved to the front of the buffer. */
    method Compact() returns (chunks: seq<Option<Chunk>>)
      requires Chained()
      modifies `buf, `head
      ensures Chained() && Holds(chunks, pushed, first, baseSeq)
    {
      if head > 0 {
        buf := buf[head..];
        head := 0;
      }
      chunks := buf;
    }

    /** Every live chunk numbered after `seqExclusive`; every chunk ever pushed after it, if that is replayable. */
    method Since(seqExclusive: nat) returns (out: seq<Chunk>)
      requires Chained()
      modifies `buf, `head
      ensures Chained()
      ensures CanReplaySince(seqExclusive) && first <= seqExclusive + 1 <= nextSeq ==>
                out == Numbered(pushed, first, seqExclusive + 1, nextSeq)
      ensures out == Numbered(pushed, first, Min(Max(seqExclusive + 1, baseSeq), nextSeq), nextSeq)
    {
      var chunks := Compact();
      out := ChunksAfter(chunks, seqExclusive, pushed, first, baseSeq);
    }

    /** Drop the chunks numbered up to `ackSeq`. */
    method TrimTo(ackSeq: nat)
      requires Valid()
      modifies `buf, `head, `used, `baseSeq
      ensures Valid()
      ensures baseSeq == Max(old(baseSeq), Min(ackSeq + 1, nextSeq))
    {
      while head < |buf| && buf[head].value.seqNo <= ackSeq
        invariant Chained() && used <= maxBytes
        invariant old(baseSeq) <= baseSeq <= Max(old(baseSeq), Min(ackSeq + 1, nextSeq))
        decreases nextSeq - baseSeq
      {
        DropOldest();
      }
    }

    /** The bytes of chunks [fromSeq, toSeqExclusive), and whether the ring had lost some of them. */
    method Slice(fromSeq: nat, toSeqExclusive: nat) returns (data: seq<byte>, truncated: bool)
      requires Chained()
      modifies `buf, `head
      ensures Chained()
      ensures truncated <==> fromSeq < baseSeq
      ensures data == Flatten(Window(pushed, first, Max(fromSeq, baseSeq), Min(toSeqExclusive, nextSeq)))
    {
      var chunks := Compact();
      var parts := ChunksWithin(chunks, fromSeq, toSeqExclusive, pushed, first, baseSeq);
      data := Flatten(parts);
      truncated := fromSeq < baseSeq;
    }

    predicate CanReplaySince(fromSeq: nat)
      reads this
    {
      fromSeq + 1 >= baseSeq
    }
  }

  // ───── The retained window ─────

  /** A window of a numbered history, as bytes. */
  lemma {:induction false} NumberedBytes(history: seq<seq<byte>>, first: nat, lo: nat, hi: nat)
    requires first <= lo <= hi <= first + |history|
    ensures ChunkBytes(Numbered(history, first, lo, hi)) == Flatten(history[lo - first..hi - first])
    decreases hi - lo
  {
    if lo < hi {
      var chunks := Numbered(history, first, lo, hi);
      assert chunks[1..] == Numbered(history, first, lo + 1, hi);
      NumberedBytes(history, first, lo + 1, hi);
      assert history[lo - first..hi - first][1..] == history[lo + 1 - first..hi - first];
    }
  }

  function ChunkBytes(chunks: seq<Chunk>): seq<byte> {
    if chunks == [] then [] else chunks[0].data + ChunkBytes(chunks[1..])
  }
}
