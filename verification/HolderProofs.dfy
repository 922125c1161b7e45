/** What every turn of the holder's loop keeps, and what that means over whole runs. */
module HolderProofs {
  import opened Prelude
  import Lexer
  import opened Anchors
  import opened Frames
  import opened HolderModel

  // ───── Acting on frames ─────

  /** The bytes typed by a list of controller frames, one entry per DATA_IN. */
  function DataIn(who: Conn, frames: seq<Frame>): seq<Typed> {
    if frames == [] then []
    else (if frames[0].cmd == CMD_DATA_IN then [Typed(who, frames[0].payload)] else []) + DataIn(who, frames[1..])
  }

  lemma {:induction false} DataInConcat(who: Conn, a: seq<Frame>, b: seq<Frame>)
    ensures DataIn(who, a + b) == DataIn(who, a) + DataIn(who, b)
  {
    if a == [] {
      assert a + b == b;
    } else {
      assert (a + b)[1..] == a[1..] + b;
      DataInConcat(who, a[1..], b);
    }
  }

  /** What the controller may be sent while its frames run: answers about the stream as it is now. */
  ghost predicate Answer(h: Holder, s: Sent)
    requires h.Sound()
  {
    && h.client == Some(s.to)
    && (|| s.out == Pong
        || s.out == DumpReply(h)
        || (s.out.Replay? && s.out == ReplayReply(h, s.out.want)))
  }

  /** The frames run so far changed only what their kind may change. */
  ghost predicate Worked(h: Holder, frames: seq<Frame>, r: Holder)
    requires h.Sound() && h.client.Some?
  {
    && r == h.(ptyInput := r.ptyInput, sent := r.sent, cols := r.cols, rows := r.rows)
    && r.ptyInput == h.ptyInput + (if h.alive then DataIn(h.client.value, frames) else [])
    && h.sent <= r.sent
    && forall i :: |h.sent| <= i < |r.sent| ==> Answer(h, r.sent[i])
  }

  lemma RunFrameWorks(h: Holder, f: Frame)
    requires h.Sound() && h.client.Some?
    ensures Worked(h, [f], RunFrame(h, f))
  {
    assert DataIn(h.client.value, [f][1..]) == [];
    assert h.ptyInput + [] == h.ptyInput;
  }

  lemma WorkedTwice(h: Holder, f: Frame, h1: Holder, frames: seq<Frame>, r: Holder)
    requires h.Sound() && h.client.Some?
    requires Worked(h, [f], h1) && Worked(h1, frames, r)
    ensures Worked(h, [f] + frames, r)
  {
    DataInConcat(h.client.value, [f], frames);
    forall i | |h.sent| <= i < |r.sent| ensures Answer(h, r.sent[i]) {
      if i < |h1.sent| {
        assert r.sent[i] == h1.sent[i];
      } else {
        assert Answer(h1, r.sent[i]);
        assert DumpReply(h1) == DumpReply(h);
      }
    }
  }

  /** Running frames types their input, answers their questions, and touches nothing else. */
  lemma {:induction false} RunAllWorks(h: Holder, frames: seq<Frame>)
    requires h.Sound() && h.client.Some?
    ensures Worked(h, frames, RunAll(h, frames))
    decreases |frames|
  {
    if frames == [] {
      assert h.ptyInput + [] == h.ptyInput;
    } else {
      var h1 := RunFrame(h, frames[0]);
      RunFrameWorks(h, frames[0]);
      RunAllWorks(h1, frames[1..]);
      WorkedTwice(h, frames[0], h1, frames[1..], RunAll(h, frames));
      assert [frames[0]] + frames[1..] == frames;
    }
  }

  /** The end of a turn, as one change: the controller's whole frames are taken and acted on. */
  ghost predicate TurnEnds(h: Holder, r: Holder)
    requires h.Sound()
  {
    var frames := if h.client.Some? && h.client.value in h.ran then Decode(h.readerBuf).frames else [];
    && r == h.(readerBuf := r.readerBuf, ran := r.ran, ptyInput := r.ptyInput, sent := r.sent, cols := r.cols, rows := r.rows)
    && r.ran == (if h.client.Some? && h.client.value in h.ran
                 then h.ran[h.client.value := h.ran[h.client.value] + frames] else h.ran)
    && r.ptyInput == h.ptyInput + (if h.client.Some? && h.alive then DataIn(h.client.value, frames) else [])
    && h.sent <= r.sent
    && forall i :: |h.sent| <= i < |r.sent| ==> Answer(h, r.sent[i])
  }

  lemma RunBufferedEnds(h: Holder)
    requires h.Sound()
    ensures TurnEnds(h, RunBuffered(h))
  {
    if h.client.Some? && h.client.value in h.ran {
      var c := h.client.value;
      var d := Decode(h.readerBuf);
      var h1 := h.(readerBuf := d.left, ran := h.ran[c := h.ran[c] + d.frames]);
      var r := RunAll(h1, d.frames);
      RunAllWorks(h1, d.frames);
      AnswersAgree(h1, h, r.sent);
    } else {
      assert h.ptyInput + [] == h.ptyInput;
    }
  }

  lemma AnswersAgree(a: Holder, b: Holder, sent: seq<Sent>)
    requires a.Sound() && b.Sound()
    requires a.client == b.client && a.history == b.history && a.cap == b.cap && a.dropped == b.dropped
    ensures forall i :: 0 <= i < |sent| ==> (Answer(a, sent[i]) <==> Answer(b, sent[i]))
  {
    assert DumpReply(a) == DumpReply(b);
  }

  // ───── The invariant holds in every reachable state ─────

  lemma PeersAreKnown(h: Holder)
    requires Inv(h)
    ensures h.client.Some? ==> h.client.value in h.ran && h.client.value in h.heard
    ensures h.pending.Some? ==> h.pending.value in h.ran && h.pending.value in h.heard
  {
  }

  lemma StartInv(cap: nat, cols: nat, rows: nat)
    ensures Inv(Start(cap, cols, rows))
  {
  }

  /** Inv, but for the controller's whole frames still waiting in the reader. */
  ghost predicate Due(h: Holder) {
    && Books(h)
    && Parked(h)
    && (h.pending.Some? ==> Next(h.pendingBuf).NeedMore?)
    && (forall c <- h.ran :: h.ran[c] == [] || Some(c) == h.client || Accounted(h.heard[c], h.ran[c], c in h.claimed))
    && match h.client
       case None => h.readerBuf == []
       case Some(c) =>
         && c in h.heard
         && Accounted(h.heard[c], h.ran[c] + Decode(h.readerBuf).frames, c in h.claimed)
         && Decode(h.heard[c]).left == Decode(h.readerBuf).left
  }

  lemma RunBufferedInv(h: Holder)
    requires Due(h)
    ensures Inv(RunBuffered(h))
  {
    if h.client.Some? {
      var c := h.client.value;
      var d := Decode(h.readerBuf);
      RunAllWorks(h.(readerBuf := d.left, ran := h.ran[c := h.ran[c] + d.frames]), d.frames);
    }
  }

  lemma ServedIsDue(h: Holder)
    requires Inv(h)
    ensures Due(h)
  {
    if h.client.Some? {
      var c := h.client.value;
      DecodeLeavesNoFrame(h.heard[c]);
      assert Decode(h.readerBuf) == Decoded([], h.readerBuf);
      assert h.ran[c] + [] == h.ran[c];
    }
  }

  lemma AccountedMore(heard: seq<byte>, work: seq<Frame>, claimed: bool, bytes: seq<byte>)
    requires Accounted(heard, work, claimed)
    ensures Accounted(heard + bytes, work + Decode(Decode(heard).left + bytes).frames, claimed)
    ensures Decode(heard + bytes).left == Decode(Decode(heard).left + bytes).left
  {
    hide Next;
    DecodeConcat(heard, bytes);
    var frames, more := Decode(heard).frames, Decode(Decode(heard).left + bytes).frames;
    assert Decode(heard + bytes).frames == frames + more;
    if claimed {
      assert (frames + more)[1..] == frames[1..] + more;
    }
  }

  /** More bytes from the controller: the unfinished frame goes on where it stopped. */
  lemma ClientReadDue(h: Holder, bytes: seq<byte>)
    requires Inv(h) && h.client.Some?
    ensures Due(OnClientRead(h, bytes))
  {
    var c := h.client.value;
    AccountedMore(h.heard[c], h.ran[c], c in h.claimed, bytes);
  }

  /** Promotion as a legacy client: every frame it sent is still to run. */
  lemma PromoteDue(h: Holder)
    requires Books(h) && Parked(h) && AllOrNothing(h) && h.pending.Some?
    ensures Due(Promote(h))
  {
    assert [] + Decode(h.pendingBuf).frames == Decode(h.pendingBuf).frames;
  }

  /** Promotion by claim: every frame behind the ACQUIRE is still to run. */
  lemma AcquireDue(h: Holder)
    requires Books(h) && Parked(h) && AllOrNothing(h) && h.pending.Some?
    requires Next(h.pendingBuf).Got? && Next(h.pendingBuf).frame.cmd == CMD_ACQUIRE
    requires h.client.None? || Takeover(Next(h.pendingBuf).frame.payload)
    ensures Due(Settle(h))
  {
    var p := h.pending.value;
    var cut := Next(h.pendingBuf);
    assert Decode(h.pendingBuf).frames == [cut.frame] + Decode(cut.rest).frames;
    assert [] + Decode(cut.rest).frames == Decode(cut.rest).frames;
  }

  lemma SettleDue(h: Holder)
    requires Books(h) && Parked(h) && Served(h) && AllOrNothing(h) && h.pending.Some?
    ensures Due(Settle(h))
  {
    match Next(h.pendingBuf)
    case NeedMore => ServedIsDue(h);
    case Got(frame, rest) =>
      if frame.cmd != CMD_ACQUIRE {
        PromoteDue(h);
      } else if h.client.Some? && !Takeover(frame.payload) {
        ServedIsDue(Settle(h));
      } else {
        AcquireDue(h);
      }
  }

  lemma PendingReadDue(h: Holder, bytes: seq<byte>)
    requires Inv(h) && h.pending.Some?
    ensures Due(OnPendingRead(h, bytes))
  {
    var c := h.pending.value;
    SettleDue(h.(pendingBuf := h.pendingBuf + bytes, heard := h.heard[c := h.heard[c] + bytes]));
  }

  lemma AcceptInv(h: Holder, c: Conn)
    requires Inv(h) && c !in h.heard
    ensures Inv(OnAccept(h, c))
  {
  }

  lemma PtyOutputInv(h: Holder, data: seq<byte>, delivered: bool)
    requires Inv(h)
    ensures Inv(OnPtyOutput(h, data, delivered))
  {
    GridGrows(h.history, data);
  }

  lemma ArmKeepsBooks(h: Holder, ev: Event)
    requires Inv(h) && Enabled(h, ev)
    ensures if FillsReader(ev) then Due(Arm(h, ev)) else Inv(Arm(h, ev))
  {
    match ev
    case PtyOutput(data, delivered) => PtyOutputInv(h, data, delivered);
    case PtyExit =>
    case Accept(c) => AcceptInv(h, c);
    case PendingRead(bytes) => PendingReadDue(h, bytes);
    case PendingHangup =>
    case ClaimTimeout => PromoteDue(h);
    case ClientRead(bytes) => ClientReadDue(h, bytes);
    case ClientHangup =>
  }

  lemma StepKeepsInv(h: Holder, ev: Event)
    requires Inv(h)
    ensures Inv(Step(h, ev))
  {
    if Enabled(h, ev) {
      ArmKeepsBooks(h, ev);
      if FillsReader(ev) { RunBufferedInv(Arm(h, ev)); }
    }
  }

  ghost function Run(h: Holder, events: seq<Event>): (r: Holder)
    requires Inv(h)
    ensures Inv(r)
    decreases |events|
  {
    if events == [] then h
    else
      StepKeepsInv(h, events[0]);
      Run(Step(h, events[0]), events[1..])
  }
}
