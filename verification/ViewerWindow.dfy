/**
 * When a viewer is held back and when it is let go (packages/server/src/server.ts:242-252, 2068-2256,
 * 2471-2512): the high-water marks, what an ack settles, how much a resync sends, and what may be trimmed.
 */
module ViewerWindow {
  import opened Prelude
  import opened OutputRing
  import opened ViewerModel
  import opened ViewerProofs
  import opened ViewerRuns

  // ───── Holding back ─────

  /** A viewer that acks is full past 256 KiB unacked; one that never did, past 1 MiB in its socket. */
  predicate Full(acking: bool, unacked: int, buffered: nat) {
    if acking then unacked > 262144 else buffered > 1048576
  }

  /** A flush that sends anything stalls and pauses the viewer exactly when it is full; only the socket needs the timer. */
  lemma FlushStallsIff(s: Server, v: Viewer, buffered: nat)
    requires Inv(s) && Good(s, v) && v.pending != []
    ensures
      var r := Flush(v, buffered);
      var full := Full(v.acking, v.flow.unacked + |ChunkBytes(v.pending)|, buffered);
      && r.flow.unacked == v.flow.unacked + |ChunkBytes(v.pending)|
      && (r.stalled <==> full)
      && (r.paused <==> v.paused || full)
      && (r.draining <==> v.draining || (full && !v.acking))
  {
    BatchHasBytes(s, v);
  }

  /** A flush of nothing does nothing. */
  lemma EmptyFlush(s: Server, v: Viewer, buffered: nat)
    requires Good(s, v) && v.pending == []
    ensures Flush(v, buffered) == v
  {
  }

  /** Output passes a held viewer by. */
  lemma HeldIsSpared(s: Server, id: Id, data: seq<byte>, buffered: map<Id, nat>)
    requires Inv(s) && id in s.viewers && data != []
    requires s.viewers[id].stalled || s.viewers[id].pausedView || s.viewers[id].paused
    ensures Step(s, Push(data, buffered)).viewers[id] == s.viewers[id]
  {
  }

  /** For any other it joins the batch, and a batch of 64 KiB goes out at once. */
  lemma OutputIsBatched(s: Server, id: Id, data: seq<byte>, buffered: map<Id, nat>)
    requires Inv(s) && id in s.viewers && data != []
    requires var v := s.viewers[id]; !v.stalled && !v.pausedView && !v.paused
    ensures
      var v, t := s.viewers[id], Step(s, Push(data, buffered));
      if |ChunkBytes(v.pending)| + |data| < 65536 then
        t.viewers[id] == v.(pending := v.pending + [Chunk(s.Next(), data)], pendingBytes := v.pendingBytes + |data|)
      else
        t.viewers[id].pending == [] && t.viewers[id].flow.client == Client(t.LastSeq(), Flatten(t.history))
  {
    PushEnqueues(s, id, data, buffered);
    hide Step;
    assert Good(s, s.viewers[id]);
    hide Inv;
    EnqueueBatches(s, s.viewers[id], data, if id in buffered then buffered[id] else 0);
  }

  lemma PushEnqueues(s: Server, id: Id, data: seq<byte>, buffered: map<Id, nat>)
    requires Inv(s) && id in s.viewers && data != [] && !s.viewers[id].paused
    ensures
      var t := Step(s, Push(data, buffered));
      && t.history == s.history + [data] && t.first == s.first
      && t.viewers[id] == Enqueue(s.viewers[id], Chunk(s.Next(), data), if id in buffered then buffered[id] else 0)
  {
    hide Enqueue;
  }

  lemma EnqueueBatches(s: Server, v: Viewer, data: seq<byte>, buffered: nat)
    requires 1 <= s.first && Good(s, v) && !v.stalled && !v.pausedView && !v.paused && data != []
    ensures
      var r, history := Enqueue(v, Chunk(s.Next(), data), buffered), s.history + [data];
      if |ChunkBytes(v.pending)| + |data| < 65536 then
        r == v.(pending := v.pending + [Chunk(s.Next(), data)], pendingBytes := v.pendingBytes + |data|)
      else r.pending == [] && r.flow.client == Client(s.Next(), Flatten(history))
  {
    var t := s.(history := s.history + [data]);
    var v1 := v.(pending := v.pending + [Chunk(s.Next(), data)], pendingBytes := v.pendingBytes + |data|);
    StillExact(s, data, v.flow.client);
    BatchGrows(s, data, v);
    FlushKeeps(t, v1, buffered);
    assert t.history[..|t.history|] == t.history;
    hide Flush;
  }

  // ───── Acks ─────

  /** The window without the entries up to `n`, as far as they stand at its head. */
  predicate Cleared(entries: seq<Entry>, n: int, left: seq<Entry>) {
    && |left| <= |entries| && left == entries[|entries| - |left|..]
    && (forall i :: 0 <= i < |entries| - |left| ==> entries[i].seqNo <= n)
    && (left != [] ==> left[0].seqNo > n)
  }

  lemma {:induction false} AfterAckClears(entries: seq<Entry>, n: nat)
    ensures Cleared(entries, n, AfterAck(entries, n))
  {
    if entries != [] && entries[0].seqNo <= n {
      AfterAckClears(entries[1..], n);
    }
  }

  /** A positive number, no further than what was sent and not behind the last one believed. */
  predicate Believed(v: Viewer, n: int) {
    0 < n <= v.flow.lastSent && (v.ack.Some? ==> v.ack.value <= n)
  }

  /** A believed ack, for the viewer alone. */
  ghost predicate Settled(s: Server, v: Viewer, n: nat, r: Viewer)
    requires s.first >= 1
  {
    var left := AfterAck(v.flow.entries, n);
    && Cleared(v.flow.entries, n, left)
    && r.ack == Some(n) && r.acking
    && r.pending == v.pending && r.pausedView == v.pausedView && r.draining == v.draining
    && if v.stalled && Unacked(left) <= 16384 then
         !r.stalled && !r.paused && r.flow.client == Client(s.LastSeq(), Flatten(s.history))
       else
         && r.stalled == v.stalled && r.paused == v.paused
         && r.flow == v.flow.(entries := left, unacked := Unacked(left))
  }

  lemma HandleAckSettles(s: Server, v: Viewer, n: nat, syncOpen: bool)
    requires Inv(s) && Good(s, v)
    ensures Settled(s, v, n, HandleAck(v.(ack := Some(n)), s, n, syncOpen))
  {
    AfterAckClears(v.flow.entries, n);
    AckWindowKeeps(v.flow, n);
    var f := AckWindow(v.flow, n);
    if v.stalled && f.unacked <= ACK_LOW_WATER {
      CatchUpKeeps(s, f, syncOpen);
      assert s.history[..|s.history|] == s.history;
    }
    hide Inv, Good, CatchUp, AfterAck, Cleared;
  }

  /**
   * An ack that is not believed changes nothing at all. One that is clears the window of what it covers; a
   * stalled viewer goes on exactly when at most 16 KiB are left, and then has the whole history; otherwise
   * nothing is sent.
   */
  lemma AckSettles(s: Server, id: Id, n: int, syncOpen: bool)
    requires Inv(s) && id in s.viewers
    ensures
      var v, t := s.viewers[id], Step(s, Ack(id, n, syncOpen));
      if Believed(v, n) then Settled(s, v, n, t.viewers[id]) else t == s
  {
    var v := s.viewers[id];
    assert Good(s, v);
    BelievedIsValid(v, n);
    hide Settled, HandleAck, Believed, AckValid, Good;
    if Believed(v, n) {
      BelievedIsPositive(v, n);
      HandleAckSettles(s, v, n, syncOpen);
      hide Inv;
      AckedViewer(s, id, n, syncOpen);
    }
    hide Inv;
  }

  lemma BelievedIsValid(v: Viewer, n: int)
    ensures Believed(v, n) <==> AckValid(v, n)
  {
  }

  lemma BelievedIsPositive(v: Viewer, n: int)
    requires Believed(v, n)
    ensures n > 0
  {
  }

  lemma AckedViewer(s: Server, id: Id, n: nat, syncOpen: bool)
    requires 1 <= s.first <= s.base <= s.Next() && id in s.viewers && AckValid(s.viewers[id], n)
    ensures OnAck(s, id, n, syncOpen).viewers[id] == HandleAck(s.viewers[id].(ack := Some(n)), s, n, syncOpen)
  {
    hide HandleAck, AckValid;
    TrimKeepsViewers(s.(viewers := s.viewers[id := HandleAck(s.viewers[id].(ack := Some(n)), s, n, syncOpen)]));
    hide MinAckTrim;
  }

  lemma TrimKeepsViewers(s: Server)
    ensures var t := MinAckTrim(s);
      t.viewers == s.viewers && t.history == s.history && t.first == s.first && t.maxBytes == s.maxBytes
  {
    hide Acks;
  }

  // ───── How much is sent ─────

  /** What a viewer at `at` has yet to see. */
  function Missing(s: Server, at: nat): seq<byte>
    requires s.first <= at + 1 <= s.Next()
  {
    Flatten(s.history[at + 1 - s.first..])
  }

  lemma SinceIsMissing(s: Server, at: nat)
    requires Inv(s) && s.base <= at + 1 <= s.Next()
    ensures ChunkBytes(s.Since(at)) == Missing(s, at)
  {
    NumberedBytes(s.history, s.first, at + 1, s.Next());
    assert s.history[at + 1 - s.first..s.Next() - s.first] == s.history[at + 1 - s.first..];
  }

  /** Going on, a viewer is sent what it missed when the ring has all of it and no block is open, and a snapshot otherwise. */
  lemma CatchUpSends(s: Server, f: Flow, syncOpen: bool)
    requires Inv(s) && ViewerProofs.Window(f) && Exact(s, f.client) && f.lastSent == f.client.at
    ensures
      var r := CatchUp(f, s, syncOpen);
      if !syncOpen && f.lastSent + 1 >= s.base
      then f.entries <= r.entries && r.unacked == f.unacked + |Missing(s, f.lastSent)|
      else r.entries == [] && r.unacked == 0 && r.lastSent == s.LastSeq()
  {
    if !syncOpen && f.lastSent + 1 >= s.base {
      SinceIsMissing(s, f.lastSent);
      BookAllCounts(f, s.Since(f.lastSent));
    }
  }

  lemma {:induction false} BookAllCounts(f: Flow, chunks: seq<Chunk>)
    ensures BookAll(f, chunks).unacked == f.unacked + |ChunkBytes(chunks)|
    ensures f.entries <= BookAll(f, chunks).entries
    decreases |chunks|
  {
    if chunks != [] {
      BookAllCounts(Book(f, chunks[0].seqNo, chunks[0].data), chunks[1..]);
    }
  }

  /** Frames of a grouped replay: each but the last is full, and none would be without its last chunk. */
  ghost predicate Grouped(entries: seq<Entry>, chunks: seq<Chunk>) {
    && (forall i :: 0 <= i < |entries| - 1 ==> entries[i].bytes >= 16384)
    && (forall i :: 0 <= i < |entries| ==> EndsWithChunk(entries[i], chunks))
  }

  ghost predicate EndsWithChunk(e: Entry, chunks: seq<Chunk>) {
    exists c :: c in chunks && c.seqNo == e.seqNo && 0 <= e.bytes - |c.data| < 16384
  }

  lemma {:induction false} GroupsAreFrames(f: Flow, group: seq<byte>, groupSeq: nat, chunks: seq<Chunk>, all: seq<Chunk>)
    requires |group| < 16384 && (forall c :: c in chunks ==> c in all)
    requires group != [] ==> EndsWithChunk(Entry(groupSeq, |group|), all)
    ensures
      var r := SendGroups(f, group, groupSeq, chunks);
      && f.entries <= r.entries && Grouped(r.entries[|f.entries|..], all)
      && r.unacked == f.unacked + |group| + |ChunkBytes(chunks)|
    decreases |chunks|
  {
    if chunks != [] {
      var c, grown := chunks[0], group + chunks[0].data;
      assert c in all && |grown| - |c.data| < 16384;
      assert EndsWithChunk(Entry(c.seqNo, |grown|), all);
      if |grown| >= REPLAY_FRAME_BYTES {
        var g := Book(f, c.seqNo, grown);
        GroupsAreFrames(g, [], c.seqNo, chunks[1..], all);
        FirstFrameIsFull(f.entries, Entry(c.seqNo, |grown|), SendGroups(g, [], c.seqNo, chunks[1..]).entries, all);
      } else {
        GroupsAreFrames(f, grown, c.seqNo, chunks[1..], all);
      }
    }
  }

  lemma FirstFrameIsFull(before: seq<Entry>, first: Entry, after: seq<Entry>, all: seq<Chunk>)
    requires before + [first] <= after && Grouped(after[|before| + 1..], all)
    requires first.bytes >= 16384 && EndsWithChunk(first, all)
    ensures before <= after && Grouped(after[|before|..], all)
  {
    var entries := after[|before|..];
    assert entries == [first] + after[|before| + 1..];
    assert after[|before|] == first;
  }

  /** A delta is sent exactly for a number within the live stream whose rest the ring still has and that is owed at most 64 KiB. */
  predicate Owed(s: Server, fromSeq: nat, mayDelta: bool)
    requires s.first <= s.base <= s.Next()
  {
    mayDelta && 0 < fromSeq < s.Next() && s.base <= fromSeq + 1 && |Missing(s, fromSeq)| <= 65536
  }

  lemma DeltaServesIff(s: Server, fromSeq: nat, mayDelta: bool)
    requires Inv(s)
    ensures DeltaServes(s, fromSeq, mayDelta) <==> Owed(s, fromSeq, mayDelta)
  {
    if s.base <= fromSeq + 1 <= s.Next() {
      SinceIsMissing(s, fromSeq);
    }
  }

  /** A viewer that attaches or resumes is unhindered, with an empty batch, and owes an ack for exactly what it was sent. */
  lemma RestartSends(s: Server, v: Viewer, fromSeq: nat, mayDelta: bool)
    requires Inv(s)
    ensures
      var r := Restart(v, s, fromSeq, mayDelta);
      && !r.stalled && !r.draining && !r.paused && !r.pausedView && r.pending == [] && r.pendingBytes == 0
      && r.ack == v.ack && r.acking == v.acking
      && if Owed(s, fromSeq, mayDelta)
         then r.flow.unacked == |Missing(s, fromSeq)| && Grouped(r.flow.entries, s.Since(fromSeq))
         else r.flow.entries == [] && r.flow.unacked == 0 && r.flow.lastSent == s.LastSeq()
  {
    DeltaServesIff(s, fromSeq, mayDelta);
    if Owed(s, fromSeq, mayDelta) {
      var f := Reset(v).flow;
      SinceIsMissing(s, fromSeq);
      GroupsAreFrames(f, [], fromSeq, s.Since(fromSeq), s.Since(fromSeq));
      assert SendGroups(f, [], fromSeq, s.Since(fromSeq)).entries[0..] == SendGroups(f, [], fromSeq, s.Since(fromSeq)).entries;
    }
  }

  // ───── What may be trimmed ─────

  /** Every viewer that ever acked has acked `n`, and there is one. */
  ghost predicate AckedByAll(s: Server, n: nat) {
    && (exists id :: id in s.viewers && s.viewers[id].ack.Some?)
    && (forall id :: id in s.viewers && s.viewers[id].ack.Some? ==> n <= s.viewers[id].ack.value)
  }

  lemma AcksAreListed(s: Server)
    ensures forall id :: id in s.viewers && s.viewers[id].ack.Some? ==> s.viewers[id].ack.value in Acks(s)
  {
  }

  /** Of the live chunks, a trim takes exactly those that all of them have acked. */
  lemma TrimTakesTheAcked(s: Server, n: nat)
    requires Inv(s) && s.base <= n < s.Next()
    ensures n < MinAckTrim(s).base <==> AckedByAll(s, n)
  {
    AcksAreListed(s);
    if Acks(s) != {} {
      var least := Least(Acks(s));
      var id :| id in s.viewers && s.viewers[id].ack.Some? && s.viewers[id].ack.value == least;
    }
  }

  lemma AfterTrim(s: Server, n: nat)
    requires Inv(s) && s.base <= n < s.Next()
    ensures var t := MinAckTrim(s); t.history == s.history && (n < t.base <==> AckedByAll(t, n))
  {
    TrimTakesTheAcked(s, n);
    TrimKeepsViewers(s);
    hide MinAckTrim, Inv;
  }

  /** After a departure every live chunk that all acking viewers have acked is gone, and no other. */
  lemma DetachTrims(s: Server, id: Id, n: nat)
    requires Inv(s) && id in s.viewers && s.base <= n < s.Next()
    ensures var t := Step(s, Detach(id)); t.history == s.history && (n < t.base <==> AckedByAll(t, n))
  {
    DetachKeeps(s, id);
    Ordered(s);
    hide Inv, MinAckTrim, AckedByAll;
    AfterTrim(s.(viewers := s.viewers - {id}), n);
  }

  /** So it is after an ack that is believed. */
  lemma AckTrims(s: Server, id: Id, seqNo: nat, syncOpen: bool, n: nat)
    requires Inv(s) && id in s.viewers && Believed(s.viewers[id], seqNo) && s.base <= n < s.Next()
    ensures var t := Step(s, Ack(id, seqNo, syncOpen)); t.history == s.history && (n < t.base <==> AckedByAll(t, n))
  {
    var v := s.viewers[id].(ack := Some(seqNo));
    assert Good(s, s.viewers[id]);
    BelievedIsValid(s.viewers[id], seqNo);
    assert Good(s, v);
    HandleAckKeeps(s, v, seqNo, syncOpen);
    OneViewerKeeps(s, id, HandleAck(v, s, seqNo, syncOpen));
    Ordered(s);
    hide Inv, MinAckTrim, AckedByAll, HandleAck, Good, AckValid;
    AfterTrim(s.(viewers := s.viewers[id := HandleAck(v, s, seqNo, syncOpen)]), n);
  }

  lemma Ordered(s: Server)
    requires Inv(s)
    ensures 1 <= s.first <= s.base <= s.Next()
  {
  }

  /** A push drops from the front just as much as the byte cap asks for. */
  lemma PushKeepsWhatFits(s: Server, data: seq<byte>, buffered: map<Id, nat>)
    requires Inv(s) && data != []
    ensures
      var t := Step(s, Push(data, buffered));
      && t.history == s.history + [data] && t.first == s.first && s.base <= t.base
      && |Flatten(t.history[t.base - t.first..])| <= s.maxBytes
      && (forall k :: s.base - s.first <= k < t.base - s.first ==> |Flatten(t.history[k..])| > s.maxBytes)
  {
    Ordered(s);
    hide Enqueue, Inv;
    PushFits(s, data, buffered);
    hide OnPush;
  }

  lemma PushFits(s: Server, data: seq<byte>, buffered: map<Id, nat>)
    requires s.first <= s.base <= s.Next()
    ensures
      var t := OnPush(s, data, buffered);
      && t.history == s.history + [data] && t.first == s.first
      && t.base == s.first + FitFrom(t.history, s.base - s.first, s.maxBytes)
  {
    hide Enqueue, FitFrom;
  }

  // ───── What an event touches ─────

  /** Only a push adds output; no other event touches another viewer, and only an ack or a departure drops output. */
  lemma OthersStayUntouched(s: Server, ev: Event, other: Id)
    requires Inv(s) && Enabled(s, ev) && !ev.Push?
    ensures
      var t := Step(s, ev);
      && t.history == s.history && t.first == s.first && t.maxBytes == s.maxBytes
      && (!ev.Ack? && !ev.Detach? ==> t.base == s.base)
      && (other != ev.id ==> (other in t.viewers <==> other in s.viewers)
                             && (other in s.viewers ==> t.viewers[other] == s.viewers[other]))
      && (ev.id in t.viewers <==> !ev.Detach?)
  {
    Ordered(s);
    hide Inv, Flush, HandleAck, Restart, Drain, AckValid, MinAckTrim;
    if ev.Ack? && AckValid(s.viewers[ev.id], ev.seqNo) {
      ValidIsPositive(s.viewers[ev.id], ev.seqNo);
      var n: nat := ev.seqNo;
      TrimKeepsViewers(s.(viewers := s.viewers[ev.id := HandleAck(s.viewers[ev.id].(ack := Some(n)), s, n, ev.syncOpen)]));
    } else if ev.Detach? {
      TrimKeepsViewers(s.(viewers := s.viewers - {ev.id}));
    }
  }

  lemma ValidIsPositive(v: Viewer, n: int)
    requires AckValid(v, n)
    ensures n > 0
  {
  }

  /** Hiding a view pauses it and changes nothing else of the viewer. */
  lemma PauseHolds(s: Server, id: Id)
    requires Inv(s) && id in s.viewers
    ensures Step(s, PauseView(id)).viewers[id] == s.viewers[id].(paused := true, pausedView := true)
  {
    hide Inv;
  }

  /** The drain timer resumes the viewer with a snapshot: nothing is left to ack, and the timer is gone. */
  lemma DrainResumes(s: Server, id: Id)
    requires Inv(s) && id in s.viewers && s.viewers[id].draining
    ensures
      var v, r := s.viewers[id], Step(s, DrainTick(id)).viewers[id];
      && !r.stalled && !r.draining && !r.paused && r.pausedView == v.pausedView && r.acking == v.acking
      && r.flow == Flow(Client(s.LastSeq(), Flatten(s.history)), [], 0, s.LastSeq())
  {
    hide Good;
  }

  /** ATTACH and RESUME_VIEW restart the viewer; one that was there keeps its acks, a newcomer has none. */
  lemma RestartedViewer(s: Server, ev: Event)
    requires Inv(s) && Enabled(s, ev) && (ev.Attach? || ev.ResumeView?)
    ensures
      var r := Step(s, ev).viewers[ev.id];
      && !r.stalled && !r.draining && !r.paused && !r.pausedView && r.pending == [] && r.pendingBytes == 0
      && (if ev.id in s.viewers then r.ack == s.viewers[ev.id].ack && r.acking == s.viewers[ev.id].acking
          else r.ack == None && !r.acking)
      && if Owed(s, ev.fromSeq, ev.mayDelta)
         then r.flow.unacked == |Missing(s, ev.fromSeq)| && Grouped(r.flow.entries, s.Since(ev.fromSeq))
         else r.flow.entries == [] && r.flow.unacked == 0 && r.flow.lastSent == s.LastSeq()
  {
    var v := if ev.ResumeView? then s.viewers[ev.id] else Found(s, ev.id, ev.client);
    RestartSends(s, v, ev.fromSeq, ev.mayDelta);
    Ordered(s);
    hide Inv, Restart, Grouped, Owed;
  }
}
