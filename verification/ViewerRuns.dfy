/** What a viewer has been sent, over whole runs of the server. */
module ViewerRuns {
  import opened Prelude
  import opened OutputRing
  import opened ViewerModel
  import opened ViewerProofs

  /** Every event of the run can happen, and every claim in it is honest. */
  ghost predicate Lawful(s: Server, events: seq<Event>)
    requires Inv(s)
    decreases |events|
  {
    events != [] ==>
      && Enabled(s, events[0]) && Honest(s, events[0])
      && (StepKeeps(s, events[0]); Lawful(Step(s, events[0]), events[1..]))
  }

  ghost function Run(s: Server, events: seq<Event>): (r: Server)
    requires Inv(s) && Lawful(s, events)
    ensures Inv(r)
    decreases |events|
  {
    if events == [] then s
    else
      StepKeeps(s, events[0]);
      Run(Step(s, events[0]), events[1..])
  }

  lemma StartInv(first: nat, maxBytes: nat)
    requires first >= 1
    ensures Inv(Start(first, maxBytes))
  {
  }

  /**
   * What a viewer has: its screen was built from exactly the history through the number it stands
   * at, its batch goes on from there, and if nothing holds it back it lacks only its batch.
   */
  ghost predicate HasTheStream(s: Server, v: Viewer) {
    var c := v.flow.client;
    && s.first <= c.at + 1 <= c.at + 1 + |v.pending| <= s.Next()
    && c.screen == Flatten(s.history[..c.at + 1 - s.first])
    && ChunkBytes(v.pending) == Flatten(s.history[c.at + 1 - s.first..c.at + 1 - s.first + |v.pending|])
    && (!v.paused && !v.pausedView && !v.stalled ==> c.at + |v.pending| == s.LastSeq())
  }

  lemma GoodHasTheStream(s: Server, v: Viewer)
    requires Good(s, v)
    ensures HasTheStream(s, v)
  {
    NumberedBytes(s.history, s.first, v.flow.client.at + 1, v.flow.client.at + 1 + |v.pending|);
  }

  /** The viewer stream is exact after any run, whatever mix of batches, stalls, deltas and snapshots it took. */
  lemma StreamIsExact(first: nat, maxBytes: nat, events: seq<Event>, id: Id)
    requires first >= 1
    requires Inv(Start(first, maxBytes)) && Lawful(Start(first, maxBytes), events)
    ensures var s := Run(Start(first, maxBytes), events);
            id in s.viewers ==> HasTheStream(s, s.viewers[id])
  {
    var s := Run(Start(first, maxBytes), events);
    if id in s.viewers { GoodHasTheStream(s, s.viewers[id]); }
  }

  /** Flushing an unhindered viewer's batch leaves it current. */
  lemma FlushBringsCurrent(s: Server, v: Viewer, buffered: nat)
    requires Inv(s) && Good(s, v) && !v.paused && !v.pausedView && !v.stalled
    ensures Flush(v, buffered).flow.client == Client(s.LastSeq(), Flatten(s.history))
  {
    FlushKeeps(s, v, buffered);
    if v.pending != [] { BatchHasBytes(s, v); }
    assert s.history[..|s.history|] == s.history;
  }

  lemma BatchHasBytes(s: Server, v: Viewer)
    requires Inv(s) && Good(s, v) && v.pending != []
    ensures v.pendingBytes == |ChunkBytes(v.pending)| > 0
  {
    assert v.pending[0].data == s.history[v.flow.client.at + 1 - s.first] != [];
  }

  // ───── The ack window ─────

  /** In every reachable state the window is the sum of its entries and no ack runs ahead of what was sent. */
  lemma AckWindowIsSafe(first: nat, maxBytes: nat, events: seq<Event>, id: Id)
    requires first >= 1
    requires Inv(Start(first, maxBytes)) && Lawful(Start(first, maxBytes), events)
    ensures var s := Run(Start(first, maxBytes), events);
            id in s.viewers ==>
              var v := s.viewers[id];
              && v.flow.unacked == Unacked(v.flow.entries)
              && (v.ack.Some? ==> v.ack.value <= v.flow.lastSent <= s.LastSeq())
              && (forall e <- v.flow.entries :: e.seqNo <= v.flow.lastSent)
  {
    hide Run, Lawful;
    var s := Run(Start(first, maxBytes), events);
    if id in s.viewers { assert Good(s, s.viewers[id]); }
  }

  /** Trimming to the least ack takes no chunk that an acked viewer's catch-up would send. */
  lemma TrimSparesCatchUps(s: Server, id: Id)
    requires Inv(s) && id in s.viewers && s.viewers[id].ack.Some?
    ensures var t := MinAckTrim(s);
            var lastSent := s.viewers[id].flow.lastSent;
            && t.Since(lastSent) == s.Since(lastSent)
            && (t.CanReplaySince(lastSent) <==> s.CanReplaySince(lastSent))
  {
    var v := s.viewers[id];
    assert Good(s, v);
    assert v.ack.value in Acks(s);
    assert Least(Acks(s)) <= v.flow.lastSent;
  }

  /** A stalled viewer that acks the last frame it was sent is believed, resumed, and caught up to the end. */
  lemma AckEndsTheStall(s: Server, id: Id, syncOpen: bool)
    requires Inv(s) && id in s.viewers && s.viewers[id].stalled
    ensures var lastSent := s.viewers[id].flow.lastSent;
            && AckValid(s.viewers[id], lastSent)
            && var v := Step(s, Ack(id, lastSent, syncOpen)).viewers[id];
               !v.stalled && !v.paused && v.flow.client == Client(s.LastSeq(), Flatten(s.history))
  {
    var v := s.viewers[id];
    assert Good(s, v);
    LastAckResumes(s, v.(ack := Some(v.flow.lastSent)), syncOpen);
    hide HandleAck, Acks, Exact, Batched;
  }

  lemma LastAckResumes(s: Server, v: Viewer, syncOpen: bool)
    requires Inv(s) && Good(s, v) && v.stalled
    ensures var r := HandleAck(v, s, v.flow.lastSent, syncOpen);
            !r.stalled && !r.paused && r.flow.client == Client(s.LastSeq(), Flatten(s.history))
  {
    var f := AckWindow(v.flow, v.flow.lastSent);
    AfterAckDrains(v.flow.entries, v.flow.lastSent);
    AckWindowKeeps(v.flow, v.flow.lastSent);
    CatchUpKeeps(s, f, syncOpen);
    assert s.history[..|s.history|] == s.history;
  }

  lemma {:induction false} AfterAckDrains(entries: seq<Entry>, seqNo: nat)
    requires forall i :: 0 <= i < |entries| ==> entries[i].seqNo <= seqNo
    ensures AfterAck(entries, seqNo) == []
  {
    if entries != [] { AfterAckDrains(entries[1..], seqNo); }
  }

  // ───── Where it breaks: the drain timer ─────

  /**
   * The drain timer sends a snapshot without clearing the batch. What the next flush leaves on the
   * screen is history exactly when the batch was empty as the timer fired.
   */
  lemma DrainIsExactIff(s: Server, v: Viewer, buffered: nat)
    requires Inv(s) && Good(s, v)
    ensures Exact(s, Flush(Drain(v, s), buffered).flow.client) <==> v.pending == []
  {
    SnapshotKeeps(s);
    if v.pending != [] {
      BatchHasBytes(s, v);
      var c := Flush(Drain(v, s), buffered).flow.client;
      assert c.screen == Flatten(s.history) + ChunkBytes(v.pending);
      hide Flush, Drain, Good;
      MoreThanHistory(s, c);
    }
  }

  lemma MoreThanHistory(s: Server, c: Client)
    requires |c.screen| > |Flatten(s.history)|
    ensures !Exact(s, c)
  {
    if s.first <= c.at + 1 <= s.Next() {
      FlattenConcat(s.history[..c.at + 1 - s.first], s.history[c.at + 1 - s.first..]);
      assert s.history == s.history[..c.at + 1 - s.first] + s.history[c.at + 1 - s.first..];
    }
  }

  /** The drain timer is about to fire over viewer 0's batch. */
  ghost predicate TimerOverBatch(s: Server) {
    0 in s.viewers && s.viewers[0].draining && s.viewers[0].pending != []
  }

  ghost predicate Reaches(s: Server)
    requires Inv(s)
  {
    exists events :: Lawful(s, events) && TimerOverBatch(Run(s, events))
  }

  lemma ReachesAfter(s: Server, ev: Event)
    requires Inv(s) && Enabled(s, ev) && Honest(s, ev)
    requires Inv(Step(s, ev)) && Reaches(Step(s, ev))
    ensures Reaches(s)
  {
    hide Enabled, Honest, Step, TimerOverBatch;
    var events :| Lawful(Step(s, ev), events) && TimerOverBatch(Run(Step(s, ev), events));
    assert ([ev] + events)[1..] == events;
    assert Lawful(s, [ev] + events) && TimerOverBatch(Run(s, [ev] + events));
  }

  /** Output for an unhindered viewer is batched, below the batch limit. */
  lemma PushBatches(s: Server, id: Id, data: seq<byte>)
    requires Inv(s) && id in s.viewers && data != []
    requires var v := s.viewers[id]; !v.paused && !v.pausedView && !v.stalled && v.pendingBytes + |data| < MAX_BATCH_BYTES
    ensures var v := s.viewers[id];
            Step(s, Push(data, map[])).viewers[id]
            == v.(pending := v.pending + [Chunk(s.Next(), data)], pendingBytes := v.pendingBytes + |data|)
  {
    hide Inv;
  }

  /** A flush into a full socket stalls a viewer that has never acked, and starts its timer. */
  lemma FullSocketStalls(s: Server, id: Id)
    requires Inv(s) && id in s.viewers
    requires var v := s.viewers[id]; !v.acking && !v.stalled && v.pending != [] && v.pendingBytes > 0
    ensures var v, r := s.viewers[id], Step(s, FlushTimer(id, WS_HIGH_WATER + 1)).viewers[id];
            r.stalled && r.draining && r.pausedView == v.pausedView
  {
  }

  /**
   * And it can fire over a batch: an ack that arrives while the timer runs ends the stall but leaves
   * the timer going, and the next output is batched under it.
   */
  lemma AckLeavesTheTimer(s: Server, id: Id, data: seq<byte>)
    requires Inv(s) && id in s.viewers && data != [] && |data| < MAX_BATCH_BYTES
    requires s.viewers[id].stalled && s.viewers[id].draining && !s.viewers[id].pausedView
    ensures var acked := Step(s, Ack(id, s.viewers[id].flow.lastSent, false));
            && Inv(acked)
            && Step(acked, Push(data, map[])).viewers[id].draining
            && Step(acked, Push(data, map[])).viewers[id].pending != []
  {
    var lastSent := s.viewers[id].flow.lastSent;
    AckEndsTheStall(s, id, false);
    StepKeeps(s, Ack(id, lastSent, false));
    var v := Step(s, Ack(id, lastSent, false)).viewers[id];
    assert Good(s, s.viewers[id]) && ChunkBytes([]) == [];
    AckKeepsTheRest(s, id, lastSent);
    hide Inv, Good;
    PushBatches(Step(s, Ack(id, lastSent, false)), id, data);
  }

  lemma AckKeepsTheRest(s: Server, id: Id, seqNo: nat)
    requires Inv(s) && id in s.viewers
    ensures var v, r := s.viewers[id], Step(s, Ack(id, seqNo, false)).viewers[id];
            r.draining == v.draining && r.pending == v.pending && r.pendingBytes == v.pendingBytes && r.pausedView == v.pausedView
  {
    hide CatchUp, AckWindow, Acks;
  }

  lemma StalledReaches(s: Server)
    requires Inv(s) && 0 in s.viewers
    requires s.viewers[0].stalled && s.viewers[0].draining && !s.viewers[0].pausedView
    ensures Reaches(s)
  {
    var ack, push := Ack(0, s.viewers[0].flow.lastSent, false), Push([7], map[]);
    AckLeavesTheTimer(s, 0, [7]);
    var acked := Step(s, ack);
    StepKeeps(acked, push);
    var last := Step(acked, push);
    assert TimerOverBatch(last);
    hide Step, Inv;
    assert Lawful(last, []) && Run(last, []) == last;
    ReachesAfter(acked, push);
    ReachesAfter(s, ack);
  }

  lemma BatchedReaches(s: Server)
    requires Inv(s) && 0 in s.viewers
    requires var v := s.viewers[0]; !v.acking && !v.stalled && !v.pausedView && v.pending != [] && v.pendingBytes > 0
    ensures Reaches(s)
  {
    var flush := FlushTimer(0, WS_HIGH_WATER + 1);
    FullSocketStalls(s, 0);
    StepKeeps(s, flush);
    StalledReaches(Step(s, flush));
    hide Step, Inv;
    ReachesAfter(s, flush);
  }

  /** A lawful run does end with the timer about to fire over a batch. */
  lemma DrainCanStrikeABatch(first: nat, maxBytes: nat)
    requires first >= 1 && Inv(Start(first, maxBytes))
    ensures Reaches(Start(first, maxBytes))
  {
    var start := Start(first, maxBytes);
    var attach := Attach(0, Client(0, []), 0, false);
    StepKeeps(start, attach);
    AttachedReaches(Step(start, attach));
    hide Inv;
    ReachesAfter(start, attach);
  }

  lemma AttachedReaches(s: Server)
    requires Inv(s) && 0 in s.viewers
    requires var v := s.viewers[0]; !v.acking && !v.stalled && !v.pausedView && !v.paused && v.pendingBytes == 0
    ensures Reaches(s)
  {
    var push := Push([7], map[]);
    PushBatches(s, 0, [7]);
    StepKeeps(s, push);
    hide Step, Inv;
    BatchedReaches(Step(s, push));
    ReachesAfter(s, push);
  }
}
