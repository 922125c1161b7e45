/**
 * Recovery against a run of the holder (packages/server/src/session.ts:549-632; holder/src/main.rs:589-606,
 * 699-712, 814-852): the frames the server buffers are those the holder sent between granting the lease and
 * answering the replay.
 */
module HolderRecovery {
  import opened Prelude
  import opened Frames
  import Model = HolderModel
  import Anchors
  import HolderProofs
  import opened HolderLive
  import opened HolderLink

  type Holder = Model.Holder

  /** The lease was granted to the controller at `a`, and at `i` it was sent the replay it asked for. */
  ghost predicate Handshake(h: Holder, a: nat, i: nat, checkpoint: Checkpoint, early: seq<In>, late: seq<In>) {
    && a < i && Answers(h, i, checkpoint, early, late)
    && h.sent[a].to == h.sent[i].to && h.sent[a].out.Acquired?
  }

  /** What that connection was sent in between. */
  function Between(h: Holder, a: nat, i: nat): seq<In>
    requires a < i < |h.sent|
  {
    LiveFrames(h.sent[a + 1..i], h.sent[i].to)
  }

  /** The server at the end of it, every frame having come from the holder. */
  function Recovered(h: Holder, a: nat, i: nat, checkpoint: Checkpoint, nextOffset: nat, early: seq<In>, late: seq<In>): Link
    requires a < i < |h.sent| && h.sent[i].out.Replay?
  {
    var out := h.sent[i].out;
    Recover(checkpoint, nextOffset, Between(h, a, i), In.Replay(out.end, out.gap, out.data), early, late)
  }

  /**
   * In any reachable state of the holder, a server that recovers from its checkpoint has the exact stream, and
   * counts the holder's bytes, if and only if no output was sent between ACQUIRED and the replay.
   */
  lemma RunRecoveryIsExactIff(
      cap: nat, cols: nat, rows: nat, events: seq<Model.Event>, a: nat, i: nat,
      checkpoint: Checkpoint, nextOffset: nat, early: seq<In>, late: seq<In>)
    requires Model.Inv(Model.Start(cap, cols, rows))
    requires Handshake(HolderProofs.Run(Model.Start(cap, cols, rows), events), a, i, checkpoint, early, late)
    ensures
      var h := HolderProofs.Run(Model.Start(cap, cols, rows), events);
      var l := Recovered(h, a, i, checkpoint, nextOffset, early, late);
      var quiet := LiveBytes(h.sent[a + 1..i], h.sent[i].to) == [];
      (l.applied == |h.history| <==> quiet) && (Exact(h, checkpoint, l) <==> quiet)
  {
    hide HolderProofs.Run, Recover, Exact;
    var h := HolderProofs.Run(Model.Start(cap, cols, rows), events);
    LiveFramesAreLive(h.sent[a + 1..i], h.sent[i].to);
    RecoveryIsExactIff(cap, cols, rows, events, i, checkpoint, nextOffset, Between(h, a, i), early, late);
  }

  // ---- A run in which output comes in between ----------------------------------------------------

  const ACQUIRE := Frame(0x0C, [])
  const SINCE_ONE := Frame(0x10, [1, 0, 0, 0, 0, 0, 0, 0])

  /** Connection `c` alone, with nothing unread. */
  ghost predicate Stage(h: Holder, cap: nat, c: Model.Conn, history: seq<byte>, sent: seq<Model.Sent>) {
    && Model.Inv(h) && h.cap == cap && h.alive && h.history == history && h.sent == sent
    && h.readerBuf == [] && h.pendingBuf == []
    && (h.client.Some? ==> h.client == Some(c) && c in h.ran)
    && (h.pending.Some? ==> h.pending == Some(c) && c in h.heard)
  }

  lemma Output(h: Holder, cap: nat, c: Model.Conn, history: seq<byte>, sent: seq<Model.Sent>, b: byte)
    requires Stage(h, cap, c, history, sent)
    ensures
      var r := Model.Step(h, Model.PtyOutput([b], true));
      && r.client == h.client && r.pending == h.pending && r.generation == h.generation && r.heard == h.heard
      && Stage(r, cap, c, history + [b],
               if h.client.Some? then sent + [Model.Sent(c, Model.DataOut(h.seqNo, [b]))] else sent)
  {
    HolderProofs.StepKeepsInv(h, Model.PtyOutput([b], true));
    hide Model.Inv, Anchors.DroppedAfter;
  }

  lemma Joins(h: Holder, cap: nat, c: Model.Conn, history: seq<byte>)
    requires Stage(h, cap, c, history, []) && h.client.None? && h.pending.None? && c !in h.heard
    ensures
      var r := Model.Step(h, Model.Accept(c));
      && r.client.None? && r.pending == Some(c) && r.generation == h.generation
      && Stage(r, cap, c, history, [Model.Sent(c, Model.State(h.seqNo, false, h.Base(), |history|))])
  {
    HolderProofs.StepKeepsInv(h, Model.Accept(c));
    hide Model.Inv;
  }

  lemma OneFrame(f: Frame)
    requires Encodable(f)
    ensures Next(EncodeFrame(f)) == Got(f, []) && Decode(EncodeFrame(f)) == Decoded([f], [])
  {
    NextOfEncoded(f, []);
    assert EncodeFrame(f) + [] == EncodeFrame(f);
    assert Decode([]) == Decoded([], []);
  }

  lemma Claims(h: Holder, cap: nat, c: Model.Conn, history: seq<byte>, sent: seq<Model.Sent>)
    requires Stage(h, cap, c, history, sent) && h.client.None? && h.pending == Some(c)
    ensures
      var r := Model.Step(h, Model.PendingRead(EncodeFrame(ACQUIRE)));
      && r.client == Some(c) && r.pending.None?
      && Stage(r, cap, c, history, sent + [Model.Sent(c, Model.Acquired(h.generation + 1))])
  {
    hide Next, EncodeFrame, Decode, Model.RunBuffered, Model.OnPendingRead;
    var bytes := EncodeFrame(ACQUIRE);
    HolderProofs.StepKeepsInv(h, Model.PendingRead(bytes));
    HolderProofs.PeersAreKnown(h);
    Granting(h, c, bytes);
    SameConnections(h);
    hide Model.Inv;
    NothingToRun(Model.OnPendingRead(h, bytes), c);
  }

  lemma SameConnections(h: Holder)
    requires Model.Inv(h)
    ensures h.Sound() && h.heard.Keys == h.ran.Keys
  {
  }

  /** What the claim alone changes. */
  lemma Granting(h: Holder, c: Model.Conn, bytes: seq<byte>)
    requires h.pending == Some(c) && c in h.heard && h.client.None? && h.pendingBuf == []
    requires bytes == EncodeFrame(ACQUIRE)
    ensures
      var r := Model.OnPendingRead(h, bytes);
      && r == h.(client := Some(c), pending := None, readerBuf := [], pendingBuf := [], generation := h.generation + 1,
                 claimed := r.claimed, heard := r.heard, sent := h.sent + [Model.Sent(c, Model.Acquired(h.generation + 1))])
  {
    OneFrame(ACQUIRE);
    assert h.pendingBuf + bytes == bytes;
    hide Next, EncodeFrame, Decode, Model.Takeover;
  }

  lemma NothingToRun(h: Holder, c: Model.Conn)
    requires h.Sound() && h.client == Some(c) && c in h.ran && h.readerBuf == []
    ensures var r := Model.RunBuffered(h);
      r == h.(ran := r.ran) && c in r.ran
  {
    assert Decode([]) == Decoded([], []);
  }

  lemma Asks(h: Holder, cap: nat, c: Model.Conn, history: seq<byte>, sent: seq<Model.Sent>)
    requires Stage(h, cap, c, history, sent) && h.client == Some(c) && c in h.heard && |history| == 2 && cap >= 1
    ensures
      var r := Model.Step(h, Model.ClientRead(EncodeFrame(SINCE_ONE)));
      && r.client == Some(c) && r.history == history
      && r.sent == sent + [Model.Sent(c, Model.Replay(1, h.Base(), 2, false, history[1..]))]
  {
    hide Next, EncodeFrame, Decode, Model.RunBuffered, Model.OnClientRead, Model.RunFrame;
    var bytes := EncodeFrame(SINCE_ONE);
    SameConnections(h);
    hide Model.Inv;
    Reading(h, c, bytes);
    var read := Model.OnClientRead(h, bytes);
    OneFrame(SINCE_ONE);
    OneToRun(read, c, SINCE_ONE);
    Answering(read.(readerBuf := [], ran := read.ran[c := read.ran[c] + [SINCE_ONE]]), c);
  }

  lemma Reading(h: Holder, c: Model.Conn, bytes: seq<byte>)
    requires h.client == Some(c) && c in h.heard && h.readerBuf == []
    ensures var r := Model.OnClientRead(h, bytes); r == h.(readerBuf := bytes, heard := r.heard)
  {
    assert h.readerBuf + bytes == bytes;
  }

  lemma Answering(h: Holder, c: Model.Conn)
    requires h.Sound() && h.client == Some(c) && |h.history| == 2 && h.cap >= 1
    ensures Model.RunFrame(h, SINCE_ONE)
         == h.(sent := h.sent + [Model.Sent(c, Model.Replay(1, h.Base(), 2, false, h.history[1..]))])
  {
    WantsOne();
    hide Model.Want;
  }

  lemma WantsOne()
    ensures Model.Want(SINCE_ONE.payload) == 1
  {
    assert SINCE_ONE.payload[..4] == [1, 0, 0, 0] && SINCE_ONE.payload[4..8] == [0, 0, 0, 0];
  }

  lemma OneToRun(h: Holder, c: Model.Conn, f: Frame)
    requires h.Sound() && h.client == Some(c) && c in h.ran && Decode(h.readerBuf) == Decoded([f], [])
    ensures Model.RunBuffered(h) == Model.RunFrame(h.(readerBuf := [], ran := h.ran[c := h.ran[c] + [f]]), f)
  {
    var h1 := h.(readerBuf := [], ran := h.ran[c := h.ran[c] + [f]]);
    assert [f][1..] == [];
    assert Model.RunAll(h1, [f]) == Model.RunAll(Model.RunFrame(h1, f), []);
  }

  /**
   * A byte is printed, the server connects and claims, another byte is printed, and the server asks for what
   * follows its checkpoint at 1: the second byte is in the replay and in the buffer, and is drawn twice.
   */
  lemma OutputInBetweenIsSeenTwice(cap: nat, cols: nat, rows: nat, c: Model.Conn, x: byte, y: byte, nextOffset: nat)
    returns (events: seq<Model.Event>)
    requires cap >= 1 && Model.Inv(Model.Start(cap, cols, rows))
    ensures
      var h := HolderProofs.Run(Model.Start(cap, cols, rows), events);
      var checkpoint := Checkpoint(1, true);
      && Handshake(h, 1, 3, checkpoint, [], [])
      && Between(h, 1, 3) == [In.DataOut([y])] && h.history == [x, y]
      && var l := Recovered(h, 1, 3, checkpoint, nextOffset, [], []);
         l.screen == [y, y] && l.applied == 3
  {
    var h0 := Model.Start(cap, cols, rows);
    var h3, granted, state := Granted(cap, cols, rows, c, x);
    events := granted + [Model.PtyOutput([y], true), Model.ClientRead(EncodeFrame(SINCE_ONE))];
    hide HolderProofs.Run, Model.Inv, Stage, Model.Step, EncodeFrame, Handshake, Recovered, Between;
    var h5, live, base := Asked(h3, cap, c, x, y, [Model.Sent(c, state), Model.Sent(c, Model.Acquired(1))]);
    RunConcat(h0, granted, [Model.PtyOutput([y], true), Model.ClientRead(EncodeFrame(SINCE_ONE))]);
    SeenTwice(h5, c, x, y, state, live, base, nextOffset);
  }

  lemma {:induction false} RunConcat(h: Holder, a: seq<Model.Event>, b: seq<Model.Event>)
    requires Model.Inv(h)
    ensures HolderProofs.Run(h, a + b) == HolderProofs.Run(HolderProofs.Run(h, a), b)
    decreases |a|
  {
    hide Model.Inv, Model.Step;
    if a == [] {
      assert a + b == b;
    } else {
      HolderProofs.StepKeepsInv(h, a[0]);
      assert (a + b)[0] == a[0] && (a + b)[1..] == a[1..] + b;
      RunConcat(Model.Step(h, a[0]), a[1..], b);
    }
  }

  lemma RunFirst(h: Holder, ev: Model.Event, rest: seq<Model.Event>)
    requires Model.Inv(h)
    ensures Model.Inv(Model.Step(h, ev))
    ensures HolderProofs.Run(h, [ev] + rest) == HolderProofs.Run(Model.Step(h, ev), rest)
  {
    hide Model.Inv, Model.Step;
    HolderProofs.StepKeepsInv(h, ev);
    assert ([ev] + rest)[1..] == rest;
  }

  lemma RunNone(h: Holder)
    requires Model.Inv(h)
    ensures HolderProofs.Run(h, []) == h
  {
  }

  /** Output, a connection, its claim. */
  lemma Granted(cap: nat, cols: nat, rows: nat, c: Model.Conn, x: byte)
    returns (h: Holder, events: seq<Model.Event>, state: Model.Out)
    requires Model.Inv(Model.Start(cap, cols, rows))
    ensures HolderProofs.Run(Model.Start(cap, cols, rows), events) == h && h.client == Some(c) && c in h.heard
    ensures Stage(h, cap, c, [x], [Model.Sent(c, state), Model.Sent(c, Model.Acquired(1))])
  {
    var h0 := Model.Start(cap, cols, rows);
    var e1, e2, e3 := Model.PtyOutput([x], true), Model.Accept(c), Model.PendingRead(EncodeFrame(ACQUIRE));
    assert Stage(h0, cap, c, [], []);
    Output(h0, cap, c, [], [], x);
    var h1 := Model.Step(h0, e1);
    assert [] + [x] == [x];
    assert h0.client.None? && h0.pending.None? && h0.generation == 0 && h0.heard == map[];
    hide Model.Step, EncodeFrame, HolderProofs.Run, Model.Start;
    Joins(h1, cap, c, [x]);
    var h2 := Model.Step(h1, e2);
    state := Model.State(h1.seqNo, false, h1.Base(), 1);
    Claims(h2, cap, c, [x], [Model.Sent(c, state)]);
    h := Model.Step(h2, e3);
    events := [e1] + ([e2] + ([e3] + []));
    RunFirst(h0, e1, [e2] + ([e3] + []));
    RunFirst(h1, e2, [e3] + []);
    RunFirst(h2, e3, []);
    RunNone(h);
    assert [Model.Sent(c, state)] + [Model.Sent(c, Model.Acquired(1))] == [Model.Sent(c, state), Model.Sent(c, Model.Acquired(1))];
    KnownController(h, c);
  }

  lemma KnownController(h: Holder, c: Model.Conn)
    requires Model.Inv(h) && h.client == Some(c)
    ensures c in h.heard
  {
  }

  /** More output, and the request. */
  lemma Asked(h: Holder, cap: nat, c: Model.Conn, x: byte, y: byte, sent: seq<Model.Sent>)
    returns (r: Holder, live: Model.Out, base: nat)
    requires Stage(h, cap, c, [x], sent) && h.client == Some(c) && c in h.heard && cap >= 1
    ensures Model.Inv(h)
    ensures HolderProofs.Run(h, [Model.PtyOutput([y], true), Model.ClientRead(EncodeFrame(SINCE_ONE))]) == r
    ensures r.history == [x, y] && r.client == Some(c) && live.DataOut? && live.data == [y]
    ensures r.sent == sent + [Model.Sent(c, live), Model.Sent(c, Model.Replay(1, base, 2, false, [y]))]
  {
    var e1, e2 := Model.PtyOutput([y], true), Model.ClientRead(EncodeFrame(SINCE_ONE));
    Output(h, cap, c, [x], sent, y);
    live := Model.DataOut(h.seqNo, [y]);
    var h1 := Model.Step(h, e1);
    base := h1.Base();
    assert [x] + [y] == [x, y] && [x, y][1..] == [y];
    hide Model.Step, EncodeFrame, HolderProofs.Run;
    Asks(h1, cap, c, [x, y], sent + [Model.Sent(c, live)]);
    r := Model.Step(h1, e2);
    RunFirst(h, e1, [e2] + []);
    RunFirst(h1, e2, []);
    RunNone(r);
    assert [e1] + ([e2] + []) == [e1, e2];
    var reply := Model.Sent(c, Model.Replay(1, base, 2, false, [y]));
    assert (sent + [Model.Sent(c, live)]) + [reply] == sent + [Model.Sent(c, live), reply];
  }

  lemma SeenTwice(h: Holder, c: Model.Conn, x: byte, y: byte, state: Model.Out, live: Model.Out, base: nat, nextOffset: nat)
    requires h.history == [x, y] && h.client == Some(c) && live.DataOut? && live.data == [y]
    requires h.sent == [Model.Sent(c, state), Model.Sent(c, Model.Acquired(1)), Model.Sent(c, live),
                        Model.Sent(c, Model.Replay(1, base, 2, false, [y]))]
    ensures Handshake(h, 1, 3, Checkpoint(1, true), [], [])
    ensures Between(h, 1, 3) == [In.DataOut([y])]
    ensures
      var l := Recovered(h, 1, 3, Checkpoint(1, true), nextOffset, [], []);
      l.screen == [y, y] && l.applied == 3
  {
    assert h.sent[4..] == [] && h.sent[2..3] == [Model.Sent(c, live)];
    assert LiveFrames(h.sent[2..3][1..], c) == [];
    assert LiveFrames(h.sent[2..3], c) == [In.DataOut([y])];
    var before := [In.DataOut([y])];
    assert Bytes(before) == [y] by { assert before[1..] == []; assert [y] + [] == [y]; }
    assert Bytes([]) == [];
    RecoveredState(Checkpoint(1, true), nextOffset, before, In.Replay(2, false, [y]), [], []);
    hide Recover;
    assert [y] + [] + [y] + [] == [y, y];
  }
}
