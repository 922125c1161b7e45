/**
 * The holder's event loop as a state machine. Each event is one arm of the loop followed by
 * the frame processing that ends every turn; `HolderLoop` proves the imperative arms against it.
 *
 * `sent`, `heard`, `ran` and `ptyInput` are the machine's observable history: what went out to
 * each connection, what was read from it, which of its frames were acted on, and what reached
 * the PTY's input.
 */
module HolderModel {
  import opened Prelude
  import opened Lexer
  import opened Anchors
  import opened Frames

  type Conn = nat

  const CMD_DATA_IN: byte := 0x04
  const CMD_RESIZE: byte := 0x05
  const CMD_DUMP_REQ: byte := 0x06
  const CMD_PING: byte := 0x0A
  const CMD_ACQUIRE: byte := 0x0C
  const CMD_DUMP_SINCE: byte := 0x10

  /** Frames the holder writes. `want` records the request a replay answers; it is not on the wire. */
  datatype Out =
    | State(nextSeq: nat, held: bool, baseOffset: nat, nextOffset: nat)
    | Exit
    | Acquired(generation: nat)
    | Denied
    | Evicted
    | DataOut(seqNo: nat, data: seq<byte>)
    | DumpResp(data: seq<byte>)
    | Replay(want: nat, base: nat, end: nat, gap: bool, data: seq<byte>)
    | Pong

  datatype Sent = Sent(to: Conn, out: Out)

  datatype Typed = Typed(source: Conn, data: seq<byte>)

  datatype Holder = Holder(
    cap: nat,
    history: seq<byte>,
    dropped: nat,
    seqNo: nat,
    alive: bool,
    cols: nat,
    rows: nat,
    client: Option<Conn>,
    readerBuf: seq<byte>,
    pending: Option<Conn>,
    pendingBuf: seq<byte>,
    generation: nat,
    ptyInput: seq<Typed>,
    sent: seq<Sent>,
    heard: map<Conn, seq<byte>>,
    ran: map<Conn, seq<Frame>>,
    claimed: set<Conn>)
  {
    function Base(): nat { Max(|history| - cap, 0) }

    ghost function Anchors(): seq<nat>
      requires dropped <= |Grid(history)|
    {
      Grid(history)[dropped..]
    }

    ghost predicate Sound() { dropped <= |Grid(history)| }
  }

  datatype Event =
    | PtyOutput(data: seq<byte>, delivered: bool)
    | PtyExit
    | Accept(conn: Conn)
    | PendingRead(bytes: seq<byte>)
    | PendingHangup
    | ClaimTimeout
    | ClientRead(bytes: seq<byte>)
    | ClientHangup

  ghost predicate Enabled(h: Holder, ev: Event) {
    match ev
    case PtyOutput(data, _) => h.alive && data != []
    case PtyExit => h.alive
    case Accept(c) => c !in h.heard
    case PendingRead(_) => h.pending.Some?
    case PendingHangup => h.pending.Some?
    case ClaimTimeout => h.pending.Some?
    case ClientRead(_) => h.client.Some?
    case ClientHangup => h.client.Some?
  }

  function Send(h: Holder, to: Option<Conn>, out: Out): Holder {
    if to.Some? then h.(sent := h.sent + [Sent(to.value, out)]) else h
  }

  // ───── PTY output: ring, anchors, live frame ─────

  ghost function OnPtyOutput(h: Holder, data: seq<byte>, delivered: bool): Holder
    requires h.Sound()
  {
    var h1 := h.(history := h.history + data, dropped := DroppedAfter(h.history, h.dropped, h.cap, data));
    var h2 := if h.client.Some? && !delivered then h1.(client := None, readerBuf := [])
              else Send(h1, h.client, DataOut(h.seqNo, data));
    h2.(seqNo := (h.seqNo + 1) % TWO32)
  }

  function OnPtyExit(h: Holder): Holder {
    Send(h.(alive := false), h.client, Exit)
  }

  // ───── Connections and the lease ─────

  function OnAccept(h: Holder, c: Conn): Holder {
    var h1 := Send(h, Some(c), State(h.seqNo, h.client.Some?, h.Base(), |h.history|));
    var h2 := if h.alive then h1 else Send(h1, Some(c), Exit);
    h2.(pending := Some(c), pendingBuf := [], heard := h.heard[c := []], ran := h.ran[c := []])
  }

  function DropPending(h: Holder): Holder {
    h.(pending := None, pendingBuf := [])
  }

  function Promote(h: Holder): Holder
    requires h.pending.Some?
  {
    h.(client := h.pending, readerBuf := h.pendingBuf, pending := None, pendingBuf := [])
  }

  /** The body asks to take the lease from whoever holds it. */
  const TAKEOVER: string := "\"takeover\":true"

  predicate Takeover(payload: seq<byte>) {
    exists i :: 0 <= i <= |payload| - |TAKEOVER| && SpelledAt(payload, i, TAKEOVER)
  }

  predicate SpelledAt(payload: seq<byte>, i: nat, text: string) {
    && i + |text| <= |payload|
    && forall k :: 0 <= k < |text| ==> payload[i + k] == text[k] as int
  }

  /** The first whole frame of a pending connection settles what it is. */
  function Settle(h: Holder): Holder
    requires h.pending.Some?
  {
    match Next(h.pendingBuf)
    case NeedMore => h
    case Got(frame, rest) =>
      if frame.cmd == CMD_ACQUIRE then
        if h.client.Some? && !Takeover(frame.payload) then
          DropPending(Send(h, h.pending, Denied))
        else
          var h1 := h.(pendingBuf := rest, generation := h.generation + 1, claimed := h.claimed + {h.pending.value});
          Promote(Send(Send(h1, h.pending, Acquired(h.generation + 1)), h.client, Evicted))
      else Promote(h)
  }

  function OnPendingRead(h: Holder, bytes: seq<byte>): Holder
    requires h.pending.Some? && h.pending.value in h.heard
  {
    var c := h.pending.value;
    Settle(h.(pendingBuf := h.pendingBuf + bytes, heard := h.heard[c := h.heard[c] + bytes]))
  }

  // ───── Controller frames ─────

  ghost function SafeTail(h: Holder): (nat, seq<byte>)
    requires h.Sound()
  {
    SafeTailOf(h.history, h.Anchors(), h.Base())
  }

  ghost function DumpReply(h: Holder): Out
    requires h.Sound()
  {
    DumpResp(if h.Base() > 0 then SafeTail(h).1 else h.history)
  }

  ghost function ReplayReply(h: Holder, want: nat): Out
    requires h.Sound()
  {
    if want < h.Base() then
      Replay(want, SafeTail(h).0, |h.history|, true, SafeTail(h).1)
    else
      Replay(want, h.Base(), |h.history|, false, h.history[Min(want, |h.history|)..])
  }

  ghost function RunFrame(h: Holder, f: Frame): Holder
    requires h.Sound() && h.client.Some?
  {
    var who := h.client.value;
    if f.cmd == CMD_DATA_IN then
      if h.alive then h.(ptyInput := h.ptyInput + [Typed(who, f.payload)]) else h
    else if f.cmd == CMD_RESIZE then
      if |f.payload| >= 4 && h.alive && U16(f.payload, 0) > 0 && U16(f.payload, 2) > 0
      then h.(cols := U16(f.payload, 0), rows := U16(f.payload, 2)) else h
    else if f.cmd == CMD_DUMP_REQ then Send(h, h.client, DumpReply(h))
    else if f.cmd == CMD_DUMP_SINCE then Send(h, h.client, ReplayReply(h, Want(f.payload)))
    else if f.cmd == CMD_PING then Send(h, h.client, Pong)
    else h
  }

  function U16(p: seq<byte>, at: nat): nat
    requires at + 2 <= |p|
  {
    p[at] as int + 256 * (p[at + 1] as int)
  }

  /** The offset asked for: 64-bit little-endian, or 0 when the payload is too short. */
  function Want(p: seq<byte>): nat {
    if |p| >= 8 then FromU32Le(p[..4]) + TWO32 * FromU32Le(p[4..8]) else 0
  }

  ghost function RunAll(h: Holder, frames: seq<Frame>): (r: Holder)
    requires h.Sound() && h.client.Some?
    ensures r.Sound() && r.client == h.client && r.history == h.history && r.dropped == h.dropped
    decreases |frames|
  {
    if frames == [] then h else RunAll(RunFrame(h, frames[0]), frames[1..])
  }

  /** What ends every turn of the loop: act on each whole frame the controller has sent. */
  ghost function RunBuffered(h: Holder): Holder
    requires h.Sound()
  {
    if h.client.None? || h.client.value !in h.ran then h
    else
      var c := h.client.value;
      var d := Decode(h.readerBuf);
      RunAll(h.(readerBuf := d.left, ran := h.ran[c := h.ran[c] + d.frames]), d.frames)
  }

  /** One arm of the loop, up to but not including the frame processing. */
  ghost function Arm(h: Holder, ev: Event): (r: Holder)
    requires Inv(h) && Enabled(h, ev)
  {
    match ev
    case PtyOutput(data, delivered) => OnPtyOutput(h, data, delivered)
    case PtyExit => OnPtyExit(h)
    case Accept(c) => OnAccept(h, c)
    case PendingRead(bytes) => OnPendingRead(h, bytes)
    case PendingHangup => DropPending(h)
    case ClaimTimeout => Promote(h)
    case ClientRead(bytes) => OnClientRead(h, bytes)
    case ClientHangup => h.(client := None, readerBuf := [])
  }

  function OnClientRead(h: Holder, bytes: seq<byte>): Holder
    requires h.client.Some? && h.client.value in h.heard
  {
    var c := h.client.value;
    h.(readerBuf := h.readerBuf + bytes, heard := h.heard[c := h.heard[c] + bytes])
  }

  /** The arms that can leave whole frames in the controller's reader. */
  predicate FillsReader(ev: Event) { ev.PendingRead? || ev.ClaimTimeout? || ev.ClientRead? }

  ghost function Step(h: Holder, ev: Event): Holder
    requires Inv(h)
  {
    if !Enabled(h, ev) then h
    else if FillsReader(ev) then
      ArmStaysSound(h, ev);
      RunBuffered(Arm(h, ev))
    else Arm(h, ev)
  }

  lemma ArmStaysSound(h: Holder, ev: Event)
    requires Inv(h) && Enabled(h, ev) && FillsReader(ev)
    ensures Arm(h, ev).Sound()
  {
    hide Next, Takeover;
  }

  function Start(cap: nat, cols: nat, rows: nat): Holder {
    Holder(cap, [], 0, 1, true, cols, rows, None, [], None, [], 0, [], [], map[], map[], {})
  }

  lemma GridBounds(history: seq<byte>)
    ensures forall i :: 0 <= i < |Grid(history)| ==> Grid(history)[i] <= |history|
    ensures Grid(history)[0] == 0
  {
    forall i | 0 <= i < |Grid(history)| ensures Grid(history)[i] <= |history| { GridInBounds(history, i); }
    GridGrows([], history);
    assert [] + history == history;
  }

  // ───── The invariant ─────

  /** All frames heard from a connection are its work, but for the claim that opens a claimed one. */
  ghost predicate Accounted(heard: seq<byte>, work: seq<Frame>, claimed: bool) {
    var frames := Decode(heard).frames;
    if claimed
    then frames != [] && frames[0].cmd == CMD_ACQUIRE && frames[1..] == work
    else frames == work
  }

  ghost predicate Books(h: Holder) {
    && h.Sound()
    && h.heard.Keys == h.ran.Keys
    && h.claimed <= h.heard.Keys
  }

  /** A parked connection: nothing of what it sent has been acted on. */
  ghost predicate Parked(h: Holder)
    requires Books(h)
  {
    h.pending.Some? ==>
      && h.pending.value in h.heard
      && h.pending != h.client
      && h.pendingBuf == h.heard[h.pending.value]
      && h.pending.value !in h.claimed
      && h.ran[h.pending.value] == []
  }

  /** The controller: everything it sent has been acted on, up to an unfinished frame. */
  ghost predicate Served(h: Holder)
    requires Books(h)
  {
    match h.client
    case None => h.readerBuf == []
    case Some(c) =>
      && c in h.heard
      && Accounted(h.heard[c], h.ran[c], c in h.claimed)
      && Decode(h.heard[c]).left == h.readerBuf
  }

  /** Of any connection, either no frame was ever acted on or each was, once, in order. */
  ghost predicate AllOrNothing(h: Holder)
    requires Books(h)
  {
    forall c <- h.ran :: h.ran[c] == [] || Accounted(h.heard[c], h.ran[c], c in h.claimed)
  }

  ghost predicate Inv(h: Holder) {
    && Books(h)
    && Parked(h)
    && (h.pending.Some? ==> Next(h.pendingBuf).NeedMore?)
    && Served(h)
    && AllOrNothing(h)
  }
}
