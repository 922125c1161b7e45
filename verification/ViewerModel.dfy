/**
 * The viewer stream: one session's output ring, and for each viewer a batcher with its ack window.
 * A step is one handler run to completion. `client` is the viewer's end: the bytes its screen was
 * built from and the sequence number it stands at.
 */
module ViewerModel {
  import opened Prelude
  import opened OutputRing

  const MAX_BATCH_BYTES: nat := 64 * 1024
  const WS_HIGH_WATER: nat := 0x10_0000
  const ACK_HIGH_WATER: nat := 256 * 1024
  const ACK_LOW_WATER: nat := 16 * 1024
  const REPLAY_MAX_BYTES: nat := 64 * 1024
  const REPLAY_FRAME_BYTES: nat := 16 * 1024

  type Id = nat

  datatype Client = Client(at: nat, screen: seq<byte>)

  datatype Entry = Entry(seqNo: nat, bytes: nat)

  /** What was sent: the viewer's end of it, and the window of frames not yet acked. */
  datatype Flow = Flow(client: Client, entries: seq<Entry>, unacked: int, lastSent: nat)

  datatype Viewer = Viewer(
    flow: Flow,
    pending: seq<Chunk>,
    pendingBytes: nat,
    stalled: bool,      // pausedForBackpressure
    draining: bool,     // the bufferedAmount drain timer runs
    pausedView: bool,
    acking: bool,
    paused: bool,       // the session's own flag for this viewer
    ack: Option<nat>)

  datatype Server = Server(
    first: nat,
    maxBytes: nat,
    history: seq<seq<byte>>,
    base: nat,
    viewers: map<Id, Viewer>)
  {
    function Next(): nat { first + |history| }

    function LastSeq(): int { first + |history| - 1 }

    /** All bytes up to and including sequence number `at`. */
    function Through(at: nat): seq<byte>
      requires first <= at + 1 <= Next()
    {
      Flatten(history[..at + 1 - first])
    }

    predicate CanReplaySince(fromSeq: nat) { fromSeq + 1 >= base }

    /** The live chunks after `seqNo`. */
    function Since(seqNo: nat): seq<Chunk>
      requires first <= base <= Next()
    {
      Numbered(history, first, Min(Max(seqNo + 1, base), Next()), Next())
    }
  }

  // ───── One viewer ─────

  /** A DATA frame: its bytes go on the screen, its number is where the viewer now stands. */
  function Receive(c: Client, seqNo: nat, bytes: seq<byte>): Client {
    Client(seqNo, c.screen + bytes)
  }

  function Book(f: Flow, seqNo: nat, bytes: seq<byte>): Flow {
    Flow(Receive(f.client, seqNo, bytes), f.entries + [Entry(seqNo, |bytes|)], f.unacked + |bytes|, seqNo)
  }

  /** A snapshot stands for the whole history; it supersedes everything in flight. */
  function SendSnapshot(s: Server): Flow
    requires s.first >= 1
  {
    Flow(Client(s.LastSeq(), Flatten(s.history)), [], 0, s.LastSeq())
  }

  function Flush(v: Viewer, bufferedAmount: nat): Viewer {
    if v.pendingBytes == 0 || v.pending == [] then v
    else
      var seqNo := v.pending[|v.pending| - 1].seqNo;
      var v1 := v.(flow := Book(v.flow, seqNo, ChunkBytes(v.pending)), pending := [], pendingBytes := 0);
      if v1.acking then
        if !v1.stalled && v1.flow.unacked > ACK_HIGH_WATER then v1.(stalled := true, paused := true) else v1
      else if !v1.stalled && bufferedAmount > WS_HIGH_WATER then v1.(stalled := true, paused := true, draining := true)
      else v1
  }

  function Enqueue(v: Viewer, chunk: Chunk, bufferedAmount: nat): Viewer {
    if v.pausedView || v.stalled then v
    else
      var v1 := v.(pending := v.pending + [chunk], pendingBytes := v.pendingBytes + |chunk.data|);
      if v1.pendingBytes >= MAX_BATCH_BYTES then Flush(v1, bufferedAmount) else v1
  }

  function Reset(v: Viewer): Viewer {
    v.(draining := false, pending := [], pendingBytes := 0, stalled := false,
       flow := v.flow.(entries := [], unacked := 0))
  }

  /** Merge chunks into frames of about `REPLAY_FRAME_BYTES`, each stamped with the last number in it. */
  function SendGroups(f: Flow, group: seq<byte>, groupSeq: nat, chunks: seq<Chunk>): Flow
    decreases |chunks|
  {
    if chunks == [] then (if group == [] then f else Book(f, groupSeq, group))
    else
      var grown := group + chunks[0].data;
      if |grown| >= REPLAY_FRAME_BYTES
      then SendGroups(Book(f, chunks[0].seqNo, grown), [], chunks[0].seqNo, chunks[1..])
      else SendGroups(f, grown, chunks[0].seqNo, chunks[1..])
  }

  /** A delta is honest and small enough. */
  predicate DeltaServes(s: Server, fromSeq: nat, mayDelta: bool)
    requires s.first <= s.base <= s.Next()
  {
    && mayDelta && fromSeq > 0 && fromSeq <= s.LastSeq() && s.CanReplaySince(fromSeq)
    && |ChunkBytes(s.Since(fromSeq))| <= REPLAY_MAX_BYTES
  }

  function Resync(f: Flow, s: Server, fromSeq: nat, mayDelta: bool): Flow
    requires s.first >= 1 && s.first <= s.base <= s.Next()
  {
    if DeltaServes(s, fromSeq, mayDelta) then SendGroups(f, [], fromSeq, s.Since(fromSeq)) else SendSnapshot(s)
  }

  function Unacked(entries: seq<Entry>): nat {
    if entries == [] then 0 else entries[0].bytes + Unacked(entries[1..])
  }

  /** The entries an ack through `seqNo` does not cover. */
  function AfterAck(entries: seq<Entry>, seqNo: nat): seq<Entry> {
    if entries != [] && entries[0].seqNo <= seqNo then AfterAck(entries[1..], seqNo) else entries
  }

  function BookAll(f: Flow, chunks: seq<Chunk>): Flow
    decreases |chunks|
  {
    if chunks == [] then f else BookAll(Book(f, chunks[0].seqNo, chunks[0].data), chunks[1..])
  }

  function AckWindow(f: Flow, seqNo: nat): Flow {
    var kept := AfterAck(f.entries, seqNo);
    f.(entries := kept, unacked := Max(f.unacked - (Unacked(f.entries) - Unacked(kept)), 0))
  }

  /** Catch up on what was dropped while stalled: a delta if the ring still has it, one snapshot otherwise. */
  function CatchUp(f: Flow, s: Server, syncOpen: bool): Flow
    requires s.first >= 1 && s.first <= s.base <= s.Next()
  {
    if !syncOpen && s.CanReplaySince(f.lastSent) then BookAll(f, s.Since(f.lastSent)) else SendSnapshot(s)
  }

  /** Shrink the window; at the low-water mark, resume a stalled viewer and catch it up. */
  function HandleAck(v: Viewer, s: Server, seqNo: nat, syncOpen: bool): Viewer
    requires s.first >= 1 && s.first <= s.base <= s.Next()
  {
    var v1 := v.(acking := true, flow := AckWindow(v.flow, seqNo));
    if v1.stalled && v1.flow.unacked <= ACK_LOW_WATER
    then v1.(stalled := false, paused := false, flow := CatchUp(v1.flow, s, syncOpen))
    else v1
  }

  /** An ack is a claim: positive, no further than what was sent, not behind the one before. */
  predicate AckValid(v: Viewer, seqNo: int) {
    && seqNo > 0 && seqNo <= v.flow.lastSent
    && seqNo >= (if v.ack.Some? then v.ack.value else 0)
  }

  // ───── The server ─────

  datatype Event =
    | Push(data: seq<byte>, bufferedAmount: map<Id, nat>)
    | FlushTimer(id: Id, buffered: nat)
    | DrainTick(id: Id)
    | Ack(id: Id, seqNo: int, syncOpen: bool)
    | PauseView(id: Id)
    | ResumeView(id: Id, fromSeq: nat, mayDelta: bool)
    | Attach(id: Id, client: Client, fromSeq: nat, mayDelta: bool)
    | Detach(id: Id)

  /** What a fresh viewer's batcher starts as. */
  function NewViewer(client: Client): Viewer {
    Viewer(Flow(client, [], 0, 0), [], 0, false, false, false, false, false, None)
  }

  /** The viewer an ATTACH finds: the connection's own, or a new one for a newcomer. */
  function Found(s: Server, id: Id, client: Client): Viewer {
    if id in s.viewers then s.viewers[id] else NewViewer(client)
  }

  /** ATTACH and RESUME_VIEW: start the viewer's accounting over from `fromSeq`. */
  function Restart(v: Viewer, s: Server, fromSeq: nat, mayDelta: bool): Viewer
    requires s.first >= 1 && s.first <= s.base <= s.Next()
  {
    var v1 := Reset(v);
    v1.(pausedView := false, paused := false, flow := Resync(v1.flow, s, fromSeq, mayDelta))
  }

  /** The drain timer finds the socket's buffer low. */
  function Drain(v: Viewer, s: Server): Viewer
    requires s.first >= 1
  {
    v.(stalled := false, draining := false, paused := false, flow := SendSnapshot(s))
  }

  function Acks(s: Server): set<nat> {
    set id | id in s.viewers && s.viewers[id].ack.Some? :: s.viewers[id].ack.value
  }

  /** The least of some numbers. */
  function Least(xs: set<nat>): (m: nat)
    requires xs != {}
    ensures m in xs && forall x <- xs :: m <= x
  {
    LeastExists(xs);
    var m :| m in xs && forall x <- xs :: m <= x;
    m
  }

  lemma LeastExists(xs: set<nat>)
    requires xs != {}
    ensures exists m :: m in xs && forall x <- xs :: m <= x
  {
    var n :| n in xs;
    LeastBelow(xs, n);
  }

  lemma LeastBelow(xs: set<nat>, n: nat)
    requires n in xs
    ensures exists m :: m in xs && forall x <- xs :: m <= x
  {
    if y :| y in xs && y < n {
      LeastBelow(xs, y);
    } else {
      assert forall x <- xs :: n <= x;
    }
  }

  /** Trim the ring to the least recorded ack, if anyone has acked. */
  function MinAckTrim(s: Server): Server {
    if Acks(s) == {} then s
    else s.(base := Max(s.base, Min(Least(Acks(s)) + 1, s.Next())))
  }

  function OnPush(s: Server, data: seq<byte>, buffered: map<Id, nat>): Server
    requires s.first <= s.base <= s.Next()
  {
    var history := s.history + [data];
    var chunk := Chunk(s.Next(), data);
    s.(history := history,
       base := s.first + FitFrom(history, s.base - s.first, s.maxBytes),
       viewers := map id | id in s.viewers ::
         if s.viewers[id].paused then s.viewers[id]
         else Enqueue(s.viewers[id], chunk, if id in buffered then buffered[id] else 0))
  }

  function OnAck(s: Server, id: Id, seqNo: int, syncOpen: bool): Server
    requires s.first >= 1 && s.first <= s.base <= s.Next() && id in s.viewers
  {
    if !AckValid(s.viewers[id], seqNo) then s
    else
      var v := HandleAck(s.viewers[id].(ack := Some(seqNo)), s, seqNo, syncOpen);
      MinAckTrim(s.(viewers := s.viewers[id := v]))
  }

  ghost predicate Enabled(s: Server, ev: Event) {
    match ev
    case Push(data, _) => data != []
    case FlushTimer(id, _) => id in s.viewers
    case DrainTick(id) => id in s.viewers && s.viewers[id].draining
    case Ack(id, _, _) => id in s.viewers
    case PauseView(id) => id in s.viewers
    case ResumeView(id, _, _) => id in s.viewers
    case Attach(id, client, _, _) => id in s.viewers ==> client == s.viewers[id].flow.client
    case Detach(id) => id in s.viewers
  }

  function Step(s: Server, ev: Event): Server
    requires s.first >= 1 && s.first <= s.base <= s.Next() && Enabled(s, ev)
  {
    match ev
    case Push(data, buffered) => OnPush(s, data, buffered)
    case FlushTimer(id, buffered) => s.(viewers := s.viewers[id := Flush(s.viewers[id], buffered)])
    case DrainTick(id) =>
      s.(viewers := s.viewers[id := Drain(s.viewers[id], s)])
    case Ack(id, seqNo, syncOpen) => OnAck(s, id, seqNo, syncOpen)
    case PauseView(id) => s.(viewers := s.viewers[id := s.viewers[id].(paused := true, pausedView := true)])
    case ResumeView(id, fromSeq, mayDelta) =>
      s.(viewers := s.viewers[id := Restart(s.viewers[id], s, fromSeq, mayDelta)])
    case Attach(id, client, fromSeq, mayDelta) =>
      s.(viewers := s.viewers[id := Restart(Found(s, id, client), s, fromSeq, mayDelta)])
    case Detach(id) => MinAckTrim(s.(viewers := s.viewers - {id}))
  }

  function Start(first: nat, maxBytes: nat): Server {
    Server(first, maxBytes, [], first, map[])
  }
}
