/** The viewer handlers as they are written: fields updated in place, frames built and windows trimmed by loops. */
module ViewerLoop {
  import opened Prelude
  import Ring = OutputRing
  import opened ViewerModel

  type Chunk = Ring.Chunk

  class Batcher {
    var pending: seq<Chunk>
    var pendingBytes: nat
    var pausedForBackpressure: bool
    var drainTimer: bool
    var pausedView: bool
    var acking: bool
    var sentEntries: seq<Entry>
    var unackedBytes: int
    var lastSentSeq: nat
    var sessionPaused: bool
    var ack: Option<nat>
    ghost var client: Client

    ghost function Out(): Flow
      reads this
    {
      Flow(client, sentEntries, unackedBytes, lastSentSeq)
    }

    ghost function View(): Viewer
      reads this
    {
      Viewer(Out(), pending, pendingBytes, pausedForBackpressure, drainTimer, pausedView, acking, sessionPaused, ack)
    }

    /** Handlers never see a batch whose byte count has drifted from its chunks. */
    ghost predicate Counted()
      reads this
    {
      pendingBytes == |Ring.ChunkBytes(pending)|
    }

    constructor (ghost from: Client)
      ensures View() == NewViewer(from) && Counted()
    {
      pending, pendingBytes, pausedForBackpressure, drainTimer, pausedView := [], 0, false, false, false;
      acking, sentEntries, unackedBytes, lastSentSeq, sessionPaused, ack := false, [], 0, 0, false, None;
      client := from;
    }

    method SendData(seqNo: nat, payload: seq<byte>)
      modifies `client, `sentEntries, `unackedBytes, `lastSentSeq
      ensures Out() == Book(old(Out()), seqNo, payload)
    {
      client := Receive(client, seqNo, payload);
      sentEntries := sentEntries + [Entry(seqNo, |payload|)];
      unackedBytes := unackedBytes + |payload|;
      lastSentSeq := seqNo;
    }

    /** The batch, copied into one frame. */
    method JoinPending() returns (payload: seq<byte>)
      requires Counted()
      ensures payload == Ring.ChunkBytes(pending)
    {
      var buffer := new byte[pendingBytes](_ => 0);
      var offset := 0;
      var i := 0;
      BytesOf(pending);
      while i < |pending|
        invariant i <= |pending|
        invariant offset == |Flatten(Datas(pending)[..i])| <= buffer.Length
        invariant buffer[..offset] == Flatten(Datas(pending)[..i])
      {
        var data := pending[i].data;
        assert Datas(pending)[..i + 1] == Datas(pending)[..i] + [data];
        FlattenSnoc(Datas(pending)[..i], data);
        assert Datas(pending) == Datas(pending)[..i + 1] + Datas(pending)[i + 1..];
        FlattenConcat(Datas(pending)[..i + 1], Datas(pending)[i + 1..]);
        forall k | 0 <= k < |data| { buffer[offset + k] := data[k]; }
        offset := offset + |data|;
        i := i + 1;
      }
      assert Datas(pending)[..|pending|] == Datas(pending);
      payload := buffer[..];
    }

    method Flush(bufferedAmount: nat)
      requires Counted()
      modifies this
      ensures Counted()
      ensures View() == ViewerModel.Flush(old(View()), bufferedAmount)
    {
      if pendingBytes == 0 { return; }
      var seqNo := pending[|pending| - 1].seqNo;
      var payload := JoinPending();
      pending, pendingBytes := [], 0;
      SendData(seqNo, payload);
      if acking {
        if !pausedForBackpressure && unackedBytes > ACK_HIGH_WATER {
          pausedForBackpressure, sessionPaused := true, true;
        }
      } else if !pausedForBackpressure && bufferedAmount > WS_HIGH_WATER {
        pausedForBackpressure, sessionPaused, drainTimer := true, true, true;
      }
    }

    method EnqueueData(chunk: Chunk, bufferedAmount: nat)
      requires Counted()
      modifies this
      ensures Counted()
      ensures View() == Enqueue(old(View()), chunk, bufferedAmount)
    {
      if pausedView || pausedForBackpressure { return; }
      BytesSnoc(pending, chunk);
      pending := pending + [chunk];
      pendingBytes := pendingBytes + |chunk.data|;
      if pendingBytes >= MAX_BATCH_BYTES { Flush(bufferedAmount); }
    }

    method ResetBatcherForResync()
      modifies this
      ensures Counted()
      ensures View() == Reset(old(View()))
    {
      drainTimer := false;
      pending, pendingBytes := [], 0;
      sentEntries, unackedBytes := [], 0;
      pausedForBackpressure := false;
    }

    method SnapshotSent(ring: Ring.OutputRing)
      requires ring.Valid() && ring.first >= 1
      modifies `client, `sentEntries, `unackedBytes, `lastSentSeq
      ensures Out() == SendSnapshot(Seen(ring))
    {
      client := Client(ring.nextSeq - 1, Flatten(ring.pushed));
      sentEntries, unackedBytes, lastSentSeq := [], 0, ring.nextSeq - 1;
    }

    method SendResync(ring: Ring.OutputRing, fromSeq: nat, mayDelta: bool)
      requires ring.Valid() && ring.first >= 1
      modifies `client, `sentEntries, `unackedBytes, `lastSentSeq, ring`buf, ring`head
      ensures ring.Valid() && Seen(ring) == old(Seen(ring))
      ensures Out() == Resync(old(Out()), Seen(ring), fromSeq, mayDelta)
    {
      if mayDelta && fromSeq > 0 && fromSeq <= ring.nextSeq - 1 && ring.CanReplaySince(fromSeq) {
        var chunks := ring.Since(fromSeq);
        assert chunks == Seen(ring).Since(fromSeq);
        hide Ring.Numbered;
        var total := TotalBytes(chunks);
        if total <= REPLAY_MAX_BYTES {
          ReplayGroups(chunks, fromSeq);
          return;
        }
      }
      SnapshotSent(ring);
    }

    method ReplayGroups(chunks: seq<Chunk>, fromSeq: nat)
      modifies `client, `sentEntries, `unackedBytes, `lastSentSeq
      ensures Out() == SendGroups(old(Out()), [], fromSeq, chunks)
    {
      var group: seq<byte> := [];
      var groupSeq := fromSeq;
      var i := 0;
      while i < |chunks|
        invariant i <= |chunks|
        invariant SendGroups(old(Out()), [], fromSeq, chunks) == SendGroups(Out(), group, groupSeq, chunks[i..])
      {
        group := group + chunks[i].data;
        groupSeq := chunks[i].seqNo;
        assert chunks[i..][1..] == chunks[i + 1..];
        if |group| >= REPLAY_FRAME_BYTES {
          SendData(groupSeq, group);
          group := [];
        }
        i := i + 1;
      }
      if |group| > 0 { SendData(groupSeq, group); }
    }

    /** Count the acked entries, then cut them off at once. */
    method TrimWindow(seqNo: nat)
      modifies `sentEntries, `unackedBytes
      ensures Out() == AckWindow(old(Out()), seqNo)
    {
      var n := 0;
      while n < |sentEntries| && sentEntries[n].seqNo <= seqNo
        invariant n <= |sentEntries| && sentEntries == old(sentEntries)
        invariant AfterAck(sentEntries, seqNo) == AfterAck(sentEntries[n..], seqNo)
        invariant unackedBytes == old(unackedBytes) - (Unacked(sentEntries) - Unacked(sentEntries[n..]))
      {
        unackedBytes := unackedBytes - sentEntries[n].bytes;
        assert sentEntries[n..][1..] == sentEntries[n + 1..];
        n := n + 1;
      }
      if n > 0 { sentEntries := sentEntries[n..]; }
      if unackedBytes < 0 { unackedBytes := 0; }
    }

    method SendAll(chunks: seq<Chunk>)
      modifies `client, `sentEntries, `unackedBytes, `lastSentSeq
      ensures Out() == BookAll(old(Out()), chunks)
    {
      var i := 0;
      while i < |chunks|
        invariant i <= |chunks|
        invariant BookAll(old(Out()), chunks) == BookAll(Out(), chunks[i..])
      {
        SendData(chunks[i].seqNo, chunks[i].data);
        assert chunks[i..][1..] == chunks[i + 1..];
        i := i + 1;
      }
    }

    method HandleViewerAck(ring: Ring.OutputRing, seqNo: nat, syncOpen: bool)
      requires ring.Valid() && ring.first >= 1
      modifies this, ring`buf, ring`head
      ensures ring.Valid() && Seen(ring) == old(Seen(ring))
      ensures View() == HandleAck(old(View()), Seen(ring), seqNo, syncOpen)
    {
      acking := true;
      TrimWindow(seqNo);
      if pausedForBackpressure && unackedBytes <= ACK_LOW_WATER {
        pausedForBackpressure, sessionPaused := false, false;
        CatchUpViewer(ring, syncOpen);
      }
    }

    method CatchUpViewer(ring: Ring.OutputRing, syncOpen: bool)
      requires ring.Valid() && ring.first >= 1
      modifies `client, `sentEntries, `unackedBytes, `lastSentSeq, ring`buf, ring`head
      ensures ring.Valid() && Seen(ring) == old(Seen(ring))
      ensures Out() == CatchUp(old(Out()), Seen(ring), syncOpen)
    {
      if !syncOpen && ring.CanReplaySince(lastSentSeq) {
        var chunks := ring.Since(lastSentSeq);
        assert chunks == Seen(ring).Since(lastSentSeq);
        hide BookAll, Ring.Numbered;
        SendAll(chunks);
      } else {
        SnapshotSent(ring);
      }
    }

    /** Validate the claim, record it, act on it. */
    method OnAck(ring: Ring.OutputRing, seqNo: int, syncOpen: bool) returns (accepted: bool)
      requires ring.Valid() && ring.first >= 1
      modifies this, ring`buf, ring`head
      ensures ring.Valid() && Seen(ring) == old(Seen(ring))
      ensures accepted <==> AckValid(old(View()), seqNo)
      ensures View() == if accepted then HandleAck(old(View()).(ack := Some(seqNo)), Seen(ring), seqNo, syncOpen) else old(View())
    {
      if seqNo <= 0 { return false; }
      if seqNo > lastSentSeq { return false; }
      var prev := if ack.Some? then ack.value else 0;
      if seqNo < prev { return false; }
      ack := Some(seqNo);
      HandleViewerAck(ring, seqNo, syncOpen);
      return true;
    }

    /** ATTACH and RESUME_VIEW. */
    method OnRestart(ring: Ring.OutputRing, fromSeq: nat, mayDelta: bool)
      requires ring.Valid() && ring.first >= 1
      modifies this, ring`buf, ring`head
      ensures ring.Valid() && Seen(ring) == old(Seen(ring)) && Counted()
      ensures View() == Restart(old(View()), Seen(ring), fromSeq, mayDelta)
    {
      ResetBatcherForResync();
      pausedView := false;
      SendResync(ring, fromSeq, mayDelta);
      sessionPaused := false;
    }
  }

  /** The server's ring as the model's server, without viewers. */
  ghost function Seen(ring: Ring.OutputRing): Server
    reads ring
  {
    Server(ring.first, ring.maxBytes, ring.pushed, ring.baseSeq, map[])
  }

  function Datas(chunks: seq<Chunk>): seq<seq<byte>> {
    seq(|chunks|, i requires 0 <= i < |chunks| => chunks[i].data)
  }

  lemma {:induction false} BytesOf(chunks: seq<Chunk>)
    ensures Ring.ChunkBytes(chunks) == Flatten(Datas(chunks))
  {
    if chunks != [] {
      BytesOf(chunks[1..]);
      assert Datas(chunks)[1..] == Datas(chunks[1..]);
    }
  }

  lemma {:induction false} BytesSnoc(chunks: seq<Chunk>, c: Chunk)
    ensures |Ring.ChunkBytes(chunks + [c])| == |Ring.ChunkBytes(chunks)| + |c.data|
  {
    BytesOf(chunks);
    BytesOf(chunks + [c]);
    assert Datas(chunks + [c]) == Datas(chunks) + [c.data];
    FlattenSnoc(Datas(chunks), c.data);
  }

  method TotalBytes(chunks: seq<Chunk>) returns (total: nat)
    ensures total == |Ring.ChunkBytes(chunks)|
  {
    total := 0;
    var i := 0;
    while i < |chunks|
      invariant i <= |chunks|
      invariant total + |Ring.ChunkBytes(chunks[i..])| == |Ring.ChunkBytes(chunks)|
    {
      total := total + |chunks[i].data|;
      assert chunks[i..][1..] == chunks[i + 1..];
      i := i + 1;
    }
  }

  /** The least ack recorded for a session across viewers: `Infinity` is None. */
  method MinAck(acks: map<Id, map<nat, nat>>, sessionId: nat) returns (least: Option<nat>)
    ensures var recorded := set id | id in acks && sessionId in acks[id] :: acks[id][sessionId];
            if recorded == {} then least == None else least == Some(Least(recorded))
  {
    least := None;
    var ids := acks.Keys;
    ghost var done: set<Id> := {};
    while ids != {}
      invariant ids + done == acks.Keys && ids !! done
      invariant least.None? ==> forall id <- done :: sessionId !in acks[id]
      invariant least.Some? ==> exists id :: id in done && sessionId in acks[id] && acks[id][sessionId] == least.value
      invariant least.Some? ==> forall id <- done :: sessionId in acks[id] ==> least.value <= acks[id][sessionId]
      decreases ids
    {
      var id :| id in ids;
      ids := ids - {id};
      done := done + {id};
      if sessionId in acks[id] && (least.None? || acks[id][sessionId] < least.value) {
        least := Some(acks[id][sessionId]);
      }
    }
    ghost var recorded := set id | id in acks && sessionId in acks[id] :: acks[id][sessionId];
    if least.Some? {
      ghost var id :| id in done && sessionId in acks[id] && acks[id][sessionId] == least.value;
      assert acks[id][sessionId] in recorded;
      assert Least(recorded) in recorded;
    }
  }
}
