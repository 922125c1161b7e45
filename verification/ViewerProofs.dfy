/** What every step of the viewer stream keeps, and what each viewer has seen after any run. */
module ViewerProofs {
  import opened Prelude
  import opened OutputRing
  import opened ViewerModel

  // ───── The invariant ─────

  /** The screen is the history through the viewer's position. */
  ghost predicate Exact(s: Server, c: Client) {
    s.first <= c.at + 1 <= s.Next() && c.screen == s.Through(c.at)
  }

  /** Batched chunks go on from where the viewer stands. */
  ghost predicate Batched(s: Server, v: Viewer) {
    var at := v.flow.client.at;
    && s.first <= at + 1 <= at + 1 + |v.pending| <= s.Next()
    && v.pending == Numbered(s.history, s.first, at + 1, at + 1 + |v.pending|)
    && v.pendingBytes == |ChunkBytes(v.pending)|
  }

  /** The ack window: its size is the sum of its entries, which end no later than the last frame sent. */
  ghost predicate Window(f: Flow) {
    && f.unacked == Unacked(f.entries)
    && (forall i :: 0 <= i < |f.entries| ==> f.entries[i].seqNo <= f.lastSent)
    && f.lastSent <= f.client.at
  }

  /** A viewer nothing holds back is missing only what is batched; a stalled one has nothing batched. */
  ghost predicate Flowing(s: Server, v: Viewer) {
    && (!v.paused && !v.pausedView && !v.stalled ==> v.flow.client.at + 1 + |v.pending| == s.Next())
    && (v.stalled ==> v.pending == [] && 0 < v.flow.lastSent == v.flow.client.at)
    && (v.ack.Some? ==> v.ack.value <= v.flow.lastSent)
  }

  ghost predicate Good(s: Server, v: Viewer) {
    Exact(s, v.flow.client) && Batched(s, v) && Window(v.flow) && Flowing(s, v)
  }

  ghost predicate Inv(s: Server) {
    && 1 <= s.first <= s.base <= s.Next()
    && (forall i :: 0 <= i < |s.history| ==> s.history[i] != [])
    && forall id <- s.viewers :: Good(s, s.viewers[id])
  }

  /**
   * What a viewer may claim. A number that is answered by a delta must be one it really holds; any other
   * is answered by a snapshot and may be anything. And the drain timer must not fire over a batch.
   */
  ghost predicate Honest(s: Server, ev: Event)
    requires Inv(s)
  {
    match ev
    case ResumeView(id, fromSeq, mayDelta) =>
      id in s.viewers && (DeltaServes(s, fromSeq, mayDelta) ==> fromSeq == s.viewers[id].flow.client.at)
    case Attach(id, client, fromSeq, mayDelta) =>
      DeltaServes(s, fromSeq, mayDelta) ==> fromSeq == client.at && Exact(s, client)
    case DrainTick(id) => id in s.viewers && s.viewers[id].pending == []
    case _ => true
  }

  // ───── Frames reach the screen in order ─────

  lemma ThroughMore(s: Server, lo: nat, hi: nat)
    requires s.first <= lo <= hi <= s.Next() && lo >= 1
    ensures s.Through(lo - 1) + ChunkBytes(Numbered(s.history, s.first, lo, hi)) == Flatten(s.history[..hi - s.first])
  {
    NumberedBytes(s.history, s.first, lo, hi);
    assert s.history[..hi - s.first] == s.history[..lo - s.first] + s.history[lo - s.first..hi - s.first];
    FlattenConcat(s.history[..lo - s.first], s.history[lo - s.first..hi - s.first]);
  }

  lemma UnackedSnoc(entries: seq<Entry>, e: Entry)
    ensures Unacked(entries + [e]) == Unacked(entries) + e.bytes
  {
    if entries == [] {
      assert entries + [e] == [e] && [e][1..] == [];
    } else {
      assert (entries + [e])[1..] == entries[1..] + [e];
      UnackedSnoc(entries[1..], e);
    }
  }

  /** Sending the chunks `lo..hi` in one frame moves an exact viewer from lo-1 to hi-1. */
  lemma BookKeeps(s: Server, f: Flow, lo: nat, hi: nat)
    requires 1 <= s.first <= lo < hi <= s.Next() && Exact(s, f.client) && f.client.at == lo - 1 && Window(f)
    ensures var r := Book(f, hi - 1, ChunkBytes(Numbered(s.history, s.first, lo, hi)));
            Exact(s, r.client) && r.client.at == hi - 1 && Window(r) && r.lastSent == hi - 1 >= f.lastSent
  {
    ThroughMore(s, lo, hi);
    UnackedSnoc(f.entries, Entry(hi - 1, |ChunkBytes(Numbered(s.history, s.first, lo, hi))|));
  }

  lemma FlushFlows(s: Server, v: Viewer, buffered: nat)
    requires 1 <= s.first && Good(s, v) && v.pendingBytes != 0
    ensures var r := Flush(v, buffered);
            && r.flow == Book(v.flow, v.flow.client.at + |v.pending|, ChunkBytes(v.pending))
            && r.pending == [] && r.pendingBytes == 0 && r.ack == v.ack
            && (!r.paused && !r.pausedView && !r.stalled ==> !v.paused && !v.pausedView && !v.stalled)
  {
    hide Exact, Window;
  }

  lemma FlushKeeps(s: Server, v: Viewer, buffered: nat)
    requires 1 <= s.first && Good(s, v)
    ensures Good(s, Flush(v, buffered))
    ensures v.pendingBytes != 0 ==> Flush(v, buffered).flow.client.at == v.flow.client.at + |v.pending|
    ensures v.pendingBytes != 0 ==> Flush(v, buffered).pending == []
  {
    if v.pendingBytes != 0 {
      var at := v.flow.client.at;
      BookKeeps(s, v.flow, at + 1, at + 1 + |v.pending|);
      FlushFlows(s, v, buffered);
    }
  }

  // ───── Push ─────

  /** A longer history leaves what a viewer already has as it was. */
  lemma StillExact(s: Server, data: seq<byte>, c: Client)
    requires Exact(s, c)
    ensures Exact(s.(history := s.history + [data]), c)
  {
    assert (s.history + [data])[..c.at + 1 - s.first] == s.history[..c.at + 1 - s.first];
  }

  lemma ChunkBytesSnoc(chunks: seq<Chunk>, c: Chunk)
    ensures ChunkBytes(chunks + [c]) == ChunkBytes(chunks) + c.data
  {
    if chunks == [] {
      assert chunks + [c] == [c] && [c][1..] == [];
      assert c.data + [] == c.data;
    } else {
      assert (chunks + [c])[1..] == chunks[1..] + [c];
      ChunkBytesSnoc(chunks[1..], c);
    }
  }

  lemma BatchGrows(s: Server, data: seq<byte>, v: Viewer)
    requires Batched(s, v) && v.flow.client.at + 1 + |v.pending| == s.Next()
    ensures Batched(s.(history := s.history + [data]),
                    v.(pending := v.pending + [Chunk(s.Next(), data)], pendingBytes := v.pendingBytes + |data|))
  {
    ChunkBytesSnoc(v.pending, Chunk(s.Next(), data));
  }

  lemma EnqueueKeeps(s: Server, data: seq<byte>, v: Viewer, buffered: nat)
    requires 1 <= s.first && Good(s, v) && !v.paused
    ensures Good(s.(history := s.history + [data]), Enqueue(v, Chunk(s.Next(), data), buffered))
  {
    hide Exact, Flush;
    var s' := s.(history := s.history + [data]);
    StillExact(s, data, v.flow.client);
    if !v.pausedView && !v.stalled {
      var v1 := v.(pending := v.pending + [Chunk(s.Next(), data)], pendingBytes := v.pendingBytes + |data|);
      BatchGrows(s, data, v);
      FlushKeeps(s', v1, buffered);
    }
  }

  lemma PausedKeeps(s: Server, data: seq<byte>, v: Viewer)
    requires Good(s, v) && v.paused
    ensures Good(s.(history := s.history + [data]), v)
  {
    StillExact(s, data, v.flow.client);
  }

  lemma GoodIgnoresBase(s: Server, t: Server, v: Viewer)
    requires s.first == t.first && s.history == t.history
    ensures Good(s, v) <==> Good(t, v)
  {
  }

  lemma PushKeeps(s: Server, data: seq<byte>, buffered: map<Id, nat>)
    requires Inv(s) && data != []
    ensures Inv(OnPush(s, data, buffered))
  {
    var s' := OnPush(s, data, buffered);
    var grown := s.(history := s.history + [data]);
    forall id | id in s'.viewers ensures Good(s', s'.viewers[id]) {
      var v := s.viewers[id];
      if v.paused {
        PausedKeeps(s, data, v);
      } else {
        EnqueueKeeps(s, data, v, if id in buffered then buffered[id] else 0);
      }
      GoodIgnoresBase(grown, s', s'.viewers[id]);
    }
  }

  // ───── Resync ─────

  /** A snapshot leaves the viewer exact at the end of the history, with an empty window. */
  lemma SnapshotKeeps(s: Server)
    requires 1 <= s.first
    ensures var f := SendSnapshot(s);
            Exact(s, f.client) && f.client.at == f.lastSent == s.LastSeq() && Window(f)
  {
    assert s.history[..|s.history|] == s.history;
  }

  /** Chunks that could go out next: numbered in ascending order, past `at`, none empty. */
  ghost predicate Ascending(chunks: seq<Chunk>, at: int)
    decreases |chunks|
  {
    chunks != [] ==>
      && chunks[0].seqNo > at && chunks[0].data != []
      && Ascending(chunks[1..], chunks[0].seqNo)
  }

  lemma {:induction false} NumberedAscends(s: Server, lo: nat)
    requires Inv(s) && s.first <= lo <= s.Next()
    ensures Ascending(Numbered(s.history, s.first, lo, s.Next()), lo - 1)
    decreases s.Next() - lo
  {
    if lo < s.Next() {
      NumberedAscends(s, lo + 1);
      assert Numbered(s.history, s.first, lo, s.Next())[1..] == Numbered(s.history, s.first, lo + 1, s.Next());
    }
  }

  /** `bytes` went out after `f`, the last of them numbered `seqNo`. */
  ghost predicate Sent(f: Flow, bytes: seq<byte>, seqNo: nat, r: Flow) {
    && r.client == Client(seqNo, f.client.screen + bytes)
    && Window(r) && r.lastSent >= f.lastSent
  }

  lemma BookSends(f: Flow, seqNo: nat, bytes: seq<byte>)
    requires Window(f) && seqNo >= f.client.at
    ensures Sent(f, bytes, seqNo, Book(f, seqNo, bytes))
  {
    UnackedSnoc(f.entries, Entry(seqNo, |bytes|));
  }

  lemma SentThen(f: Flow, first: seq<byte>, g: Flow, more: seq<byte>, seqNo: nat, r: Flow)
    requires g.client.screen == f.client.screen + first && g.lastSent >= f.lastSent && Sent(g, more, seqNo, r)
    ensures Sent(f, first + more, seqNo, r)
  {
    assert f.client.screen + (first + more) == (f.client.screen + first) + more;
  }

  /** However the frames are cut, grouped replay sends exactly the bytes, up to the last number. */
  lemma {:induction false} GroupsSend(f: Flow, group: seq<byte>, groupSeq: nat, chunks: seq<Chunk>)
    requires Window(f) && groupSeq >= f.client.at && Ascending(chunks, groupSeq)
    requires group == [] ==> groupSeq == f.client.at
    ensures Sent(f, group + ChunkBytes(chunks), if chunks == [] then groupSeq else chunks[|chunks| - 1].seqNo,
                 SendGroups(f, group, groupSeq, chunks))
    decreases |chunks|
  {
    if chunks == [] {
      assert group + [] == group;
      if group == [] {
        assert f.client.screen + [] == f.client.screen;
      } else {
        BookSends(f, groupSeq, group);
      }
    } else {
      var c, rest := chunks[0], chunks[1..];
      var grown := group + c.data;
      assert group + ChunkBytes(chunks) == grown + ChunkBytes(rest);
      hide Window;
      if |grown| >= REPLAY_FRAME_BYTES {
        BookSends(f, c.seqNo, grown);
        var g := Book(f, c.seqNo, grown);
        GroupsSend(g, [], c.seqNo, rest);
        assert [] + ChunkBytes(rest) == ChunkBytes(rest);
        SentThen(f, grown, g, ChunkBytes(rest), chunks[|chunks| - 1].seqNo, SendGroups(g, [], c.seqNo, rest));
      } else {
        GroupsSend(f, grown, c.seqNo, rest);
      }
    }
  }

  /** So does the chunk-by-chunk catch-up. */
  lemma {:induction false} BookAllSends(f: Flow, chunks: seq<Chunk>)
    requires Window(f) && Ascending(chunks, f.client.at)
    ensures Sent(f, ChunkBytes(chunks), if chunks == [] then f.client.at else chunks[|chunks| - 1].seqNo, BookAll(f, chunks))
    decreases |chunks|
  {
    if chunks == [] {
      assert f.client.screen + [] == f.client.screen;
    } else {
      var c, rest := chunks[0], chunks[1..];
      var g := Book(f, c.seqNo, c.data);
      BookSends(f, c.seqNo, c.data);
      BookAllSends(g, rest);
      hide Window;
      SentThen(f, c.data, g, ChunkBytes(rest), chunks[|chunks| - 1].seqNo, BookAll(g, rest));
    }
  }

  /** An exact viewer that was sent the rest of the history stands at its end. */
  lemma RestIsExact(s: Server, f: Flow, r: Flow)
    requires Inv(s) && Exact(s, f.client) && Window(f)
    requires var rest := Numbered(s.history, s.first, f.client.at + 1, s.Next());
             Sent(f, ChunkBytes(rest), if rest == [] then f.client.at else rest[|rest| - 1].seqNo, r)
    ensures Exact(s, r.client) && r.client.at == s.LastSeq() && Window(r) && r.lastSent >= f.lastSent
  {
    ThroughMore(s, f.client.at + 1, s.Next());
    assert s.history[..|s.history|] == s.history;
  }

  /** After a resync the viewer stands exactly at the end of the history. */
  lemma ResyncKeeps(s: Server, f: Flow, fromSeq: nat, mayDelta: bool)
    requires Inv(s)
    requires DeltaServes(s, fromSeq, mayDelta) ==> Exact(s, f.client) && f.client.at == fromSeq && Window(f)
    ensures var r := Resync(f, s, fromSeq, mayDelta);
            && Exact(s, r.client) && r.client.at == s.LastSeq() && Window(r)
            && (f.lastSent <= s.LastSeq() ==> r.lastSent >= f.lastSent)
  {
    if DeltaServes(s, fromSeq, mayDelta) {
      NumberedAscends(s, fromSeq + 1);
      GroupsSend(f, [], fromSeq, s.Since(fromSeq));
      assert [] + ChunkBytes(s.Since(fromSeq)) == ChunkBytes(s.Since(fromSeq));
      RestIsExact(s, f, Resync(f, s, fromSeq, mayDelta));
    } else {
      SnapshotKeeps(s);
    }
  }

  /** A restarted viewer is exact, current and unhindered. */
  lemma RestartKeeps(s: Server, v: Viewer, fromSeq: nat, mayDelta: bool)
    requires Inv(s)
    requires v.flow.lastSent <= s.LastSeq()
    requires v.ack.Some? ==> v.ack.value <= v.flow.lastSent
    requires DeltaServes(s, fromSeq, mayDelta) ==>
               Exact(s, v.flow.client) && v.flow.client.at == fromSeq && v.flow.lastSent <= fromSeq
    ensures Good(s, Restart(v, s, fromSeq, mayDelta))
    ensures Restart(v, s, fromSeq, mayDelta).flow.client.at == s.LastSeq()
  {
    ResyncKeeps(s, Reset(v).flow, fromSeq, mayDelta);
  }

  // ───── Acks ─────

  lemma {:induction false} AfterAckSums(entries: seq<Entry>, seqNo: nat)
    ensures Unacked(AfterAck(entries, seqNo)) <= Unacked(entries)
    ensures |AfterAck(entries, seqNo)| <= |entries|
    ensures AfterAck(entries, seqNo) == entries[|entries| - |AfterAck(entries, seqNo)|..]
  {
    if entries != [] && entries[0].seqNo <= seqNo { AfterAckSums(entries[1..], seqNo); }
  }

  /** The window shrinks by exactly the acked entries; it never has to be clamped at zero. */
  lemma AckWindowKeeps(f: Flow, seqNo: nat)
    requires Window(f)
    ensures Window(AckWindow(f, seqNo))
    ensures AckWindow(f, seqNo).unacked == Unacked(AfterAck(f.entries, seqNo))
  {
    AfterAckSums(f.entries, seqNo);
  }

  lemma CatchUpKeeps(s: Server, f: Flow, syncOpen: bool)
    requires Inv(s) && Exact(s, f.client) && Window(f) && f.lastSent == f.client.at
    ensures var r := CatchUp(f, s, syncOpen);
            Exact(s, r.client) && r.client.at == s.LastSeq() && Window(r) && r.lastSent >= f.lastSent
  {
    if !syncOpen && s.CanReplaySince(f.lastSent) {
      NumberedAscends(s, f.lastSent + 1);
      BookAllSends(f, s.Since(f.lastSent));
      RestIsExact(s, f, CatchUp(f, s, syncOpen));
    } else {
      SnapshotKeeps(s);
    }
  }

  lemma HandleAckKeeps(s: Server, v: Viewer, seqNo: nat, syncOpen: bool)
    requires Inv(s) && Good(s, v)
    ensures Good(s, HandleAck(v, s, seqNo, syncOpen))
    ensures HandleAck(v, s, seqNo, syncOpen).ack == v.ack
  {
    AckWindowKeeps(v.flow, seqNo);
    var f := AckWindow(v.flow, seqNo);
    if v.stalled && f.unacked <= ACK_LOW_WATER { CatchUpKeeps(s, f, syncOpen); }
  }

  // ───── Steps and runs ─────

  lemma OneViewerKeeps(s: Server, id: Id, v: Viewer)
    requires Inv(s) && Good(s, v)
    ensures Inv(s.(viewers := s.viewers[id := v]))
  {
    var s' := s.(viewers := s.viewers[id := v]);
    forall i | i in s'.viewers ensures Good(s', s'.viewers[i]) {
      GoodIgnoresBase(s, s', s'.viewers[i]);
    }
  }

  lemma TrimKeeps(s: Server)
    requires Inv(s)
    ensures Inv(MinAckTrim(s))
  {
    forall id | id in s.viewers ensures Good(MinAckTrim(s), s.viewers[id]) {
      GoodIgnoresBase(s, MinAckTrim(s), s.viewers[id]);
    }
  }

  lemma AckKeeps(s: Server, id: Id, seqNo: int, syncOpen: bool)
    requires Inv(s) && id in s.viewers
    ensures Inv(OnAck(s, id, seqNo, syncOpen))
  {
    if AckValid(s.viewers[id], seqNo) {
      var v := s.viewers[id].(ack := Some(seqNo));
      HandleAckKeeps(s, v, seqNo, syncOpen);
      OneViewerKeeps(s, id, HandleAck(v, s, seqNo, syncOpen));
      TrimKeeps(s.(viewers := s.viewers[id := HandleAck(v, s, seqNo, syncOpen)]));
    }
  }

  lemma DrainKeeps(s: Server, v: Viewer)
    requires Inv(s) && Good(s, v) && v.pending == []
    ensures Good(s, Drain(v, s))
  {
    SnapshotKeeps(s);
  }

  lemma DetachKeeps(s: Server, id: Id)
    requires Inv(s)
    ensures Inv(s.(viewers := s.viewers - {id}))
  {
    var s' := s.(viewers := s.viewers - {id});
    forall i | i in s'.viewers ensures Good(s', s'.viewers[i]) { GoodIgnoresBase(s, s', s'.viewers[i]); }
  }

  lemma StepKeeps(s: Server, ev: Event)
    requires Inv(s) && Enabled(s, ev) && Honest(s, ev)
    ensures Inv(Step(s, ev))
  {
    match ev
    case Push(data, buffered) => PushKeeps(s, data, buffered);
    case FlushTimer(id, buffered) =>
      FlushKeeps(s, s.viewers[id], buffered);
      OneViewerKeeps(s, id, Flush(s.viewers[id], buffered));
    case DrainTick(id) =>
      DrainKeeps(s, s.viewers[id]);
      OneViewerKeeps(s, id, Drain(s.viewers[id], s));
    case Ack(id, seqNo, syncOpen) => AckKeeps(s, id, seqNo, syncOpen);
    case PauseView(id) => OneViewerKeeps(s, id, s.viewers[id].(paused := true, pausedView := true));
    case ResumeView(id, fromSeq, mayDelta) =>
      RestartKeeps(s, s.viewers[id], fromSeq, mayDelta);
      OneViewerKeeps(s, id, Restart(s.viewers[id], s, fromSeq, mayDelta));
    case Attach(id, client, fromSeq, mayDelta) =>
      RestartKeeps(s, Found(s, id, client), fromSeq, mayDelta);
      OneViewerKeeps(s, id, Restart(Found(s, id, client), s, fromSeq, mayDelta));
    case Detach(id) =>
      DetachKeeps(s, id);
      TrimKeeps(s.(viewers := s.viewers - {id}));
  }
}
