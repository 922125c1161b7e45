/**
 * The server's end of the holder connection: STATE, lease, replay from a checkpoint, then live
 * output. `screen` is every byte written to the terminal since it was last seeded.
 */
module HolderLink {
  import opened Prelude
  import Model = HolderModel
  import HolderProofs
  import opened HolderLive

  datatype In =
    | State(nextOffset: Option<nat>, lease: bool)
    | Acquired
    | Denied
    | DataOut(data: seq<byte>)
    | DumpResp(data: seq<byte>)
    | Replay(end: nat, gap: bool, data: seq<byte>)
    | Closing   // EXIT or EVICTED
    | Other

  /** A saved screen, already matched against this holder incarnation or not. */
  datatype Checkpoint = Checkpoint(offset: nat, sameGeneration: bool)

  datatype Phase = AwaitState | AwaitLease | AwaitReplay | AwaitDump | Steady

  datatype Link = Link(
    checkpoint: Option<Checkpoint>,
    phase: Phase,
    supportsReplay: bool,
    applied: nat,
    screen: seq<byte>,
    buffered: seq<In>,
    finalizing: bool,   // the replay is in the terminal's write queue; its callback has not run
    gap: bool,
    healthy: bool,
    closed: bool)

  function Fresh(checkpoint: Option<Checkpoint>): Link {
    Link(checkpoint, AwaitState, false, 0, [], [], false, false, true, false)
  }

  /** ESC c, the full reset that makes a degraded screen whole again. */
  predicate HasRis(data: seq<byte>) {
    exists i :: 0 <= i < |data| - 1 && data[i] == 0x1b && data[i + 1] == 0x63
  }

  function Handle(l: Link, f: In): Link {
    match f
    case DataOut(data) =>
      if l.closed then l
      else l.(applied := l.applied + |data|, screen := l.screen + data, healthy := l.healthy || HasRis(data))
    case Closing => l.(closed := true)
    case _ => l
  }

  function HandleAll(l: Link, frames: seq<In>): Link
    decreases |frames|
  {
    if frames == [] then l else HandleAll(Handle(l, frames[0]), frames[1..])
  }

  function RequestReplay(l: Link): Link {
    if l.checkpoint.Some? && l.checkpoint.value.sameGeneration && l.checkpoint.value.offset > 0 && l.supportsReplay
    then l.(phase := AwaitReplay, applied := l.checkpoint.value.offset, screen := [])
    else l.(phase := AwaitDump)
  }

  function Finalize(l: Link): Link {
    HandleAll(l.(buffered := [], finalizing := false), l.buffered)
  }

  /** Seed bytes enter the terminal's queue; with none, the handshake ends at once. */
  function Seed(l: Link, data: seq<byte>): Link {
    var l1 := l.(phase := Steady);
    if data == [] then Finalize(l1) else l1.(screen := l1.screen + data, finalizing := true)
  }

  function OnFrame(l: Link, f: In): Link {
    match l.phase
    case AwaitState =>
      if f.State? then
        var l1 := l.(applied := if f.nextOffset.Some? then f.nextOffset.value else 0,
                     supportsReplay := f.nextOffset.Some?);
        if f.lease then l1.(phase := AwaitLease) else RequestReplay(l1)
      else Handle(l, f)
    case AwaitLease =>
      if f.Acquired? then RequestReplay(l)
      else if f.Denied? then l.(phase := Steady, closed := true)
      else l.(buffered := l.buffered + [f])
    case AwaitReplay =>
      if f.Replay? then
        Seed(l.(applied := f.end, gap := f.gap, healthy := l.healthy && !f.gap), f.data)
      else l.(buffered := l.buffered + [f])
    case AwaitDump =>
      if f.DumpResp? then Seed(l, f.data) else l.(buffered := l.buffered + [f])
    case Steady => Handle(l, f)
  }

  /** The terminal has parsed the seed bytes: what was buffered meanwhile is handled now. */
  function OnParsed(l: Link): Link {
    if l.finalizing then Finalize(l) else l
  }

  function OnFrames(l: Link, frames: seq<In>): Link
    decreases |frames|
  {
    if frames == [] then l else OnFrames(OnFrame(l, frames[0]), frames[1..])
  }

  // ───── The session object ─────

  class Session {
    const checkpoint: Option<Checkpoint>
    var phase: Phase
    var supportsReplay: bool
    var appliedOffset: nat
    ghost var screen: seq<byte>
    var buffered: seq<In>
    var finalizing: bool
    var recoveryGap: bool
    var healthy: bool
    var closed: bool

    ghost function View(): Link
      reads this
    {
      Link(checkpoint, phase, supportsReplay, appliedOffset, screen, buffered, finalizing, recoveryGap, healthy, closed)
    }

    constructor (saved: Option<Checkpoint>)
      ensures View() == Fresh(saved)
    {
      checkpoint, phase, supportsReplay, appliedOffset := saved, AwaitState, false, 0;
      screen, buffered, finalizing := [], [], false;
      recoveryGap, healthy, closed := false, true, false;
    }

    method FindRis(data: seq<byte>) returns (found: bool)
      ensures found <==> HasRis(data)
    {
      var i := 0;
      while i + 1 < |data|
        invariant forall j :: 0 <= j < i && j < |data| - 1 ==> !(data[j] == 0x1b && data[j + 1] == 0x63)
      {
        if data[i] == 0x1b && data[i + 1] == 0x63 { return true; }
        i := i + 1;
      }
      return false;
    }

    method HandleHolderFrame(f: In)
      modifies this
      ensures View() == Handle(old(View()), f)
    {
      match f
      case DataOut(data) =>
        if closed { return; }
        appliedOffset := appliedOffset + |data|;
        if !healthy {
          var ris := FindRis(data);
          if ris { healthy := true; }
        }
        screen := screen + data;
      case Closing => closed := true;
      case _ =>
    }

    method Request()
      modifies this
      ensures View() == RequestReplay(old(View()))
    {
      if checkpoint.Some? && checkpoint.value.sameGeneration && checkpoint.value.offset > 0 && supportsReplay {
        screen := [];
        appliedOffset := checkpoint.value.offset;
        phase := AwaitReplay;
      } else {
        phase := AwaitDump;
      }
    }

    /** Handle what was buffered during the handshake, in arrival order. */
    method FinishHandshake()
      modifies this
      ensures View() == Finalize(old(View()))
    {
      var frames := buffered;
      buffered, finalizing := [], false;
      ghost var l := View();
      var i := 0;
      while i < |frames|
        invariant i <= |frames|
        invariant HandleAll(l, frames) == HandleAll(View(), frames[i..])
      {
        HandleHolderFrame(frames[i]);
        assert frames[i..][1..] == frames[i + 1..];
        i := i + 1;
      }
    }

    method SeedTerminal(data: seq<byte>)
      modifies this
      ensures View() == Seed(old(View()), data)
    {
      phase := Steady;
      if |data| > 0 {
        screen := screen + data;
        finalizing := true;
      } else {
        FinishHandshake();
      }
    }

    method Receive(f: In)
      modifies this
      ensures View() == OnFrame(old(View()), f)
    {
      if phase == AwaitState && f.State? {
        appliedOffset := if f.nextOffset.Some? then f.nextOffset.value else 0;
        supportsReplay := f.nextOffset.Some?;
        if f.lease { phase := AwaitLease; } else { Request(); }
        return;
      }
      match phase
      case AwaitLease =>
        if f.Acquired? {
          Request();
        } else if f.Denied? {
          phase, closed := Steady, true;
        } else {
          buffered := buffered + [f];
        }
      case AwaitReplay =>
        if f.Replay? {
          recoveryGap := f.gap;
          if f.gap { healthy := false; }
          appliedOffset := f.end;
          SeedTerminal(f.data);
        } else {
          buffered := buffered + [f];
        }
      case AwaitDump =>
        if f.DumpResp? { SeedTerminal(f.data); } else { buffered := buffered + [f]; }
      case _ => HandleHolderFrame(f);
    }

    method Parsed()
      modifies this
      ensures View() == OnParsed(old(View()))
    {
      if finalizing { FinishHandshake(); }
    }
  }

  // ───── What the handshake leaves on the screen ─────

  /** The raw bytes of a list of live frames. */
  function Bytes(frames: seq<In>): seq<byte>
    requires forall f <- frames :: f.DataOut?
  {
    if frames == [] then [] else frames[0].data + Bytes(frames[1..])
  }

  /** Live frames move the screen and the offset together, and nothing of the handshake. */
  ghost predicate Advanced(l: Link, bytes: seq<byte>, r: Link) {
    r == l.(applied := l.applied + |bytes|, screen := l.screen + bytes, healthy := r.healthy)
  }

  lemma {:induction false} HandleAllLive(l: Link, frames: seq<In>)
    requires (forall f <- frames :: f.DataOut?) && !l.closed
    ensures Advanced(l, Bytes(frames), HandleAll(l, frames))
    decreases |frames|
  {
    if frames == [] {
      assert l.screen + [] == l.screen;
    } else {
      HandleAllLive(Handle(l, frames[0]), frames[1..]);
      assert l.screen + Bytes(frames) == (l.screen + frames[0].data) + Bytes(frames[1..]);
    }
  }

  lemma {:induction false} OnFramesLive(l: Link, frames: seq<In>)
    requires (forall f <- frames :: f.DataOut?) && !l.closed && l.phase == Steady
    ensures Advanced(l, Bytes(frames), OnFrames(l, frames))
    decreases |frames|
  {
    if frames == [] {
      assert l.screen + [] == l.screen;
    } else {
      OnFramesLive(Handle(l, frames[0]), frames[1..]);
      assert l.screen + Bytes(frames) == (l.screen + frames[0].data) + Bytes(frames[1..]);
    }
  }

  lemma {:induction false} OnFramesBuffering(l: Link, frames: seq<In>)
    requires (forall f <- frames :: f.DataOut?) && l.phase == AwaitReplay
    ensures OnFrames(l, frames) == l.(buffered := l.buffered + frames)
    decreases |frames|
  {
    if frames == [] {
      assert l.buffered + [] == l.buffered;
    } else {
      assert frames[0].DataOut?;
      OnFramesBuffering(OnFrame(l, frames[0]), frames[1..]);
      assert (l.buffered + [frames[0]]) + frames[1..] == l.buffered + frames;
    }
  }

  /**
   * A recovery as the wire delivers it: STATE, ACQUIRED, live frames `before` the replay, the
   * replay, then live frames `early` and `late` around the terminal's callback.
   */
  function Recover(checkpoint: Checkpoint, nextOffset: nat, before: seq<In>, replay: In, early: seq<In>, late: seq<In>): Link {
    var greeted := OnFrame(OnFrame(Fresh(Some(checkpoint)), State(Some(nextOffset), true)), Acquired);
    var replayed := OnFrame(OnFrames(greeted, before), replay);
    OnFrames(OnParsed(OnFrames(replayed, early)), late)
  }

  ghost function Waiting(checkpoint: Checkpoint, before: seq<In>): Link {
    Fresh(Some(checkpoint)).(phase := AwaitReplay, supportsReplay := true, applied := checkpoint.offset, buffered := before)
  }

  lemma ReachesWaiting(checkpoint: Checkpoint, nextOffset: nat, before: seq<In>)
    requires checkpoint.sameGeneration && checkpoint.offset > 0 && forall f <- before :: f.DataOut?
    ensures var greeted := OnFrame(OnFrame(Fresh(Some(checkpoint)), State(Some(nextOffset), true)), Acquired);
            OnFrames(greeted, before) == Waiting(checkpoint, before)
  {
    OnFramesBuffering(OnFrame(OnFrame(Fresh(Some(checkpoint)), State(Some(nextOffset), true)), Acquired), before);
    assert [] + before == before;
  }

  /** From the replay on, without seed bytes: what was buffered comes first. */
  lemma EmptyReplay(waiting: Link, replay: In, early: seq<In>)
    requires waiting.phase == AwaitReplay && !waiting.closed && !waiting.finalizing && waiting.screen == []
    requires replay.Replay? && replay.data == []
    requires (forall f <- waiting.buffered :: f.DataOut?) && (forall f <- early :: f.DataOut?)
    ensures var l := OnParsed(OnFrames(OnFrame(waiting, replay), early));
            && l.phase == Steady && !l.closed
            && l.applied == replay.end + |Bytes(waiting.buffered)| + |Bytes(early)|
            && l.screen == Bytes(waiting.buffered) + Bytes(early)
  {
    var seeded := waiting.(phase := Steady, applied := replay.end, gap := replay.gap,
                           healthy := waiting.healthy && !replay.gap, buffered := []);
    HandleAllLive(seeded, waiting.buffered);
    OnFramesLive(HandleAll(seeded, waiting.buffered), early);
    assert [] + Bytes(waiting.buffered) == Bytes(waiting.buffered);
  }

  /** With seed bytes: live frames that beat the terminal's callback overtake what was buffered. */
  lemma SeededReplay(waiting: Link, replay: In, early: seq<In>)
    requires waiting.phase == AwaitReplay && !waiting.closed && !waiting.finalizing && waiting.screen == []
    requires replay.Replay? && replay.data != []
    requires (forall f <- waiting.buffered :: f.DataOut?) && (forall f <- early :: f.DataOut?)
    ensures var l := OnParsed(OnFrames(OnFrame(waiting, replay), early));
            && l.phase == Steady && !l.closed
            && l.applied == replay.end + |Bytes(waiting.buffered)| + |Bytes(early)|
            && l.screen == replay.data + Bytes(early) + Bytes(waiting.buffered)
  {
    var replayed := OnFrame(waiting, replay);
    OnFramesLive(replayed, early);
    var l := OnFrames(replayed, early);
    HandleAllLive(l.(buffered := [], finalizing := false), waiting.buffered);
    assert [] + replay.data == replay.data;
  }

  /** Every byte that reached the terminal, and the offset the server believes it has reached. */
  lemma RecoveredState(checkpoint: Checkpoint, nextOffset: nat, before: seq<In>, replay: In, early: seq<In>, late: seq<In>)
    requires checkpoint.sameGeneration && checkpoint.offset > 0 && replay.Replay?
    requires (forall f <- before :: f.DataOut?) && (forall f <- early :: f.DataOut?) && (forall f <- late :: f.DataOut?)
    ensures var l := Recover(checkpoint, nextOffset, before, replay, early, late);
            && l.applied == replay.end + |Bytes(before)| + |Bytes(early)| + |Bytes(late)|
            && l.screen == if replay.data == []
                           then Bytes(before) + Bytes(early) + Bytes(late)
                           else replay.data + Bytes(early) + Bytes(before) + Bytes(late)
  {
    hide OnFrames, OnParsed;
    ReachesWaiting(checkpoint, nextOffset, before);
    var waiting := Waiting(checkpoint, before);
    if replay.data == [] {
      EmptyReplay(waiting, replay, early);
    } else {
      SeededReplay(waiting, replay, early);
    }
    hide OnFrame;
    OnFramesLive(OnParsed(OnFrames(OnFrame(waiting, replay), early)), late);
  }

  // ───── Against the holder ─────

  /** The live frames among what the holder sent one connection. */
  function LiveFrames(sent: seq<Model.Sent>, c: Model.Conn): seq<In> {
    if sent == [] then []
    else (if sent[0].to == c && sent[0].out.DataOut? then [DataOut(sent[0].out.data)] else []) + LiveFrames(sent[1..], c)
  }

  lemma {:induction false} LiveFramesAreLive(sent: seq<Model.Sent>, c: Model.Conn)
    ensures forall f <- LiveFrames(sent, c) :: f.DataOut?
    ensures Bytes(LiveFrames(sent, c)) == LiveBytes(sent, c)
  {
    if sent != [] {
      LiveFramesAreLive(sent[1..], c);
      var rest := LiveFrames(sent[1..], c);
      if sent[0].to == c && sent[0].out.DataOut? {
        var first := DataOut(sent[0].out.data);
        assert ([first] + rest)[1..] == rest;
      } else {
        assert LiveFrames(sent, c) == rest;
      }
    }
  }

  lemma {:induction false} BytesConcat(a: seq<In>, b: seq<In>)
    requires (forall f <- a :: f.DataOut?) && (forall f <- b :: f.DataOut?)
    ensures Bytes(a + b) == Bytes(a) + Bytes(b)
  {
    if a == [] {
      assert a + b == b;
    } else {
      assert (a + b)[1..] == a[1..] + b;
      BytesConcat(a[1..], b);
    }
  }

  /** `sent[i]` answers the checkpoint's request without a gap; `early + late` is all live output since. */
  ghost predicate Answers(h: Model.Holder, i: nat, checkpoint: Checkpoint, early: seq<In>, late: seq<In>) {
    && i < |h.sent| && h.sent[i].out.Replay? && h.client == Some(h.sent[i].to)
    && !h.sent[i].out.gap
    && h.sent[i].out.want == checkpoint.offset <= h.sent[i].out.end
    && checkpoint.sameGeneration && checkpoint.offset > 0
    && early + late == LiveFrames(h.sent[i + 1..], h.sent[i].to)
  }

  ghost predicate Exact(h: Model.Holder, checkpoint: Checkpoint, l: Link) {
    checkpoint.offset <= |h.history| && l.applied == |h.history| && l.screen == h.history[checkpoint.offset..]
  }

  lemma ContinuedIsExactIff(
      h: Model.Holder, i: nat, checkpoint: Checkpoint, nextOffset: nat, before: seq<In>, early: seq<In>, late: seq<In>)
    requires Answers(h, i, checkpoint, early, late) && Continued(h, i)
    requires forall f <- before :: f.DataOut?
    ensures var out := h.sent[i].out;
            var l := Recover(checkpoint, nextOffset, before, Replay(out.end, out.gap, out.data), early, late);
            && (l.applied == |h.history| <==> Bytes(before) == [])
            && (Exact(h, checkpoint, l) <==> Bytes(before) == [])
  {
    var out, c := h.sent[i].out, h.sent[i].to;
    hide Recover, Continued, HasRis, LiveFrames;
    LiveFramesAreLive(h.sent[i + 1..], c);
    assert (forall f <- early :: f in early + late) && (forall f <- late :: f in early + late);
    BytesConcat(early, late);
    RecoveredState(checkpoint, nextOffset, before, Replay(out.end, out.gap, out.data), early, late);
    StreamFromCheckpoint(h, i, checkpoint.offset);
    var l := Recover(checkpoint, nextOffset, before, Replay(out.end, out.gap, out.data), early, late);
    Spliced(out.data, Bytes(before), Bytes(early), Bytes(late), l.screen);
  }

  lemma Spliced(data: seq<byte>, before: seq<byte>, early: seq<byte>, late: seq<byte>, screen: seq<byte>)
    requires screen == if data == [] then before + early + late else data + early + before + late
    ensures before == [] ==> screen == data + (early + late)
  {
  }

  lemma StreamFromCheckpoint(h: Model.Holder, i: nat, offset: nat)
    requires i < |h.sent| && h.sent[i].out.Replay? && Continued(h, i)
    requires !h.sent[i].out.gap && h.sent[i].out.want == offset <= h.sent[i].out.end
    ensures offset <= |h.history|
    ensures |h.history| == h.sent[i].out.end + |LiveBytes(h.sent[i + 1..], h.sent[i].to)|
    ensures h.history[offset..] == h.sent[i].out.data + LiveBytes(h.sent[i + 1..], h.sent[i].to)
  {
    var end := h.sent[i].out.end;
    assert h.history[..end][offset..] + h.history[end..] == h.history[offset..];
  }

  /**
   * Recovery is exact iff nothing was buffered. In any reachable holder state, take a replay sent
   * to the present controller for its checkpoint's offset, without a gap; `before` are live frames
   * the server got between ACQUIRED and it, `early` and `late` all those since. The server's offset
   * is the holder's byte count, and its screen the stream from the checkpoint on, exactly when
   * `before` carried no byte.
   */
  lemma RecoveryIsExactIff(
      cap: nat, cols: nat, rows: nat, events: seq<Model.Event>, i: nat,
      checkpoint: Checkpoint, nextOffset: nat, before: seq<In>, early: seq<In>, late: seq<In>)
    requires Model.Inv(Model.Start(cap, cols, rows))
    requires Answers(HolderProofs.Run(Model.Start(cap, cols, rows), events), i, checkpoint, early, late)
    requires forall f <- before :: f.DataOut?
    ensures var h := HolderProofs.Run(Model.Start(cap, cols, rows), events);
            var out := h.sent[i].out;
            var l := Recover(checkpoint, nextOffset, before, Replay(out.end, out.gap, out.data), early, late);
            && (l.applied == |h.history| <==> Bytes(before) == [])
            && (Exact(h, checkpoint, l) <==> Bytes(before) == [])
  {
    var start := Model.Start(cap, cols, rows);
    RunLive(start, events);
    hide HolderProofs.Run, Recover;
    ContinuedIsExactIff(HolderProofs.Run(start, events), i, checkpoint, nextOffset, before, early, late);
  }
}
