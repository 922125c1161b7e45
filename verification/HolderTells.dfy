/**
 * What the holder tells its connections, and what becomes of those that go (holder/src/main.rs:589-665, 690-692,
 * 722-768): the greeting, the numbers on live output, the end of the PTY.
 */
module HolderTells {
  import opened Prelude
  import opened Frames
  import Anchors
  import opened HolderModel
  import opened HolderProofs

  /** The fifteen bytes of `"takeover":true`. */
  predicate SpelledOut(payload: seq<byte>, i: nat) {
    && i + 15 <= |payload|
    && payload[i..i + 15] == [0x22, 0x74, 0x61, 0x6b, 0x65, 0x6f, 0x76, 0x65, 0x72, 0x22, 0x3a, 0x74, 0x72, 0x75, 0x65]
  }

  lemma SpelledAlike(payload: seq<byte>, i: nat)
    ensures SpelledAt(payload, i, TAKEOVER) <==> SpelledOut(payload, i)
  {
    var text := TAKEOVER;
    assert |text| == 15;
    if i + 15 <= |payload| {
      var part := payload[i..i + 15];
      assert forall k :: 0 <= k < 15 ==> part[k] == payload[i + k];
      var spelled: seq<byte> := [0x22, 0x74, 0x61, 0x6b, 0x65, 0x6f, 0x76, 0x65, 0x72, 0x22, 0x3a, 0x74, 0x72, 0x75, 0x65];
      assert forall k :: 0 <= k < 15 ==> text[k] as int == spelled[k];
    }
  }

  /** A claim asks for takeover exactly when its body has those bytes in it. */
  lemma TakeoverIsSpelled(payload: seq<byte>)
    ensures Takeover(payload) <==> exists i: nat :: SpelledOut(payload, i)
  {
    if Takeover(payload) {
      var i :| 0 <= i <= |payload| - |TAKEOVER| && SpelledAt(payload, i, TAKEOVER);
      SpelledAlike(payload, i);
    }
    if i: nat :| SpelledOut(payload, i) {
      SpelledAlike(payload, i);
      assert |TAKEOVER| == 15;
    }
  }

  // ───── The greeting ─────

  /**
   * A newcomer is greeted before anything else: whether the lease is held, what the ring still has, how far the
   * stream has come; and, behind that, that the PTY is gone if it is. It is parked in the place of any other.
   */
  lemma AcceptGreets(h: Holder, c: Conn)
    requires Inv(h) && c !in h.heard
    ensures
      var r := Step(h, Accept(c));
      && r.sent == h.sent
           + [Sent(c, State(h.seqNo, h.client.Some?, Max(|h.history| - h.cap, 0), |h.history|))]
           + (if h.alive then [] else [Sent(c, Exit)])
      && r.pending == Some(c) && r.pendingBuf == [] && r.client == h.client && r.history == h.history
      && r.ptyInput == h.ptyInput && r.alive == h.alive
  {
    hide Inv;
    var greeted := [Sent(c, State(h.seqNo, h.client.Some?, h.Base(), |h.history|))];
    assert h.sent + greeted + [] == h.sent + greeted;
  }

  /** The number in the greeting is that of the next output. */
  lemma GreetingForetells(h: Holder, c: Conn, data: seq<byte>)
    requires Inv(h) && c !in h.heard && h.alive && data != [] && h.client.Some?
    ensures
      var greeted := Step(h, Accept(c));
      && |greeted.sent| == |h.sent| + 1 && greeted.sent[|h.sent|].out.State?
      && var r := Step(greeted, PtyOutput(data, true));
         r.sent == greeted.sent + [Sent(h.client.value, DataOut(greeted.sent[|h.sent|].out.nextSeq, data))]
  {
    StepKeepsInv(h, Accept(c));
    hide Inv, Anchors.DroppedAfter;
  }

  // ───── Live output ─────

  /** How many reads from the PTY a run holds. */
  ghost function Reads(h: Holder, events: seq<Event>): nat
    requires Inv(h)
    decreases |events|
  {
    if events == [] then 0
    else
      StepKeepsInv(h, events[0]);
      (if events[0].PtyOutput? && Enabled(h, events[0]) then 1 else 0) + Reads(Step(h, events[0]), events[1..])
  }

  lemma OnlyOutputCounts(h: Holder, ev: Event)
    requires Inv(h)
    ensures Step(h, ev).seqNo == if ev.PtyOutput? && Enabled(h, ev) then Wrapped(h.seqNo + 1) else h.seqNo
  {
    if Enabled(h, ev) {
      ArmCounts(h, ev);
      if FillsReader(ev) {
        ArmStaysSound(h, ev);
        RunBufferedEnds(Arm(h, ev));
      }
    }
  }

  lemma ArmCounts(h: Holder, ev: Event)
    requires Inv(h) && Enabled(h, ev)
    ensures Arm(h, ev).seqNo == if ev.PtyOutput? then Wrapped(h.seqNo + 1) else h.seqNo
  {
    hide Inv, Next, Takeover, Anchors.DroppedAfter;
  }

  lemma RunNone(h: Holder)
    requires Inv(h)
    ensures Run(h, []) == h && Reads(h, []) == 0
  {
  }

  lemma RunFirst(h: Holder, events: seq<Event>)
    requires Inv(h) && events != []
    ensures Inv(Step(h, events[0])) && Run(h, events) == Run(Step(h, events[0]), events[1..])
    ensures Reads(h, events) == (if events[0].PtyOutput? && Enabled(h, events[0]) then 1 else 0)
                                + Reads(Step(h, events[0]), events[1..])
  {
    StepKeepsInv(h, events[0]);
    hide Inv, Step, Enabled;
  }

  lemma {:induction false} RunCounts(h: Holder, events: seq<Event>)
    requires Inv(h) && h.seqNo < TWO32
    ensures Run(h, events).seqNo == Wrapped(h.seqNo + Reads(h, events))
    decreases |events|
  {
    hide Inv, Step, Wrapped, Enabled, Run, Reads;
    if events == [] {
      RunNone(h);
      NothingWraps(h.seqNo);
    } else {
      RunFirst(h, events);
      OnlyOutputCounts(h, events[0]);
      WrapsAlike(h.seqNo, Reads(Step(h, events[0]), events[1..]));
      RunCounts(Step(h, events[0]), events[1..]);
    }
  }

  /** Sequence numbers have 32 bits. */
  function Wrapped(n: nat): nat { n % 0x1_0000_0000 }

  lemma NothingWraps(n: nat)
    requires n < TWO32
    ensures Wrapped(n) == n
  {
  }

  lemma WrapsAlike(a: nat, b: nat)
    ensures Wrapped(a + 1) < TWO32 && Wrapped(Wrapped(a + 1) + b) == Wrapped(a + (1 + b))
  {
  }

  /**
   * The n-th read of a run goes to the controller under the number n, counted from 1 and wrapped at 32 bits,
   * whoever else came and went; when it cannot be delivered, the controller is dropped with its unread bytes.
   */
  lemma OutputIsNumbered(cap: nat, cols: nat, rows: nat, events: seq<Event>, data: seq<byte>, delivered: bool)
    requires Inv(Start(cap, cols, rows)) && data != [] && Run(Start(cap, cols, rows), events).alive
    ensures
      var h := Run(Start(cap, cols, rows), events);
      var r := Step(h, PtyOutput(data, delivered));
      var number := Wrapped(1 + Reads(Start(cap, cols, rows), events));
      && r.history == h.history + data
      && (h.client.None? ==> r.sent == h.sent && r.client.None?)
      && (h.client.Some? && delivered ==> r.sent == h.sent + [Sent(h.client.value, DataOut(number, data))] && r.client == h.client)
      && (h.client.Some? && !delivered ==> r.sent == h.sent && r.client.None? && r.readerBuf == [])
  {
    RunCounts(Start(cap, cols, rows), events);
    hide Inv, Anchors.DroppedAfter, Run, Reads;
  }

  // ───── The end of the PTY ─────

  /** The controller is told of the end. */
  lemma ExitIsTold(h: Holder)
    requires Inv(h) && h.alive
    ensures
      var r := Step(h, PtyExit);
      && !r.alive && r.client == h.client && r.history == h.history
      && r.sent == h.sent + (if h.client.Some? then [Sent(h.client.value, Exit)] else [])
  {
    hide Inv;
    assert h.sent + [] == h.sent;
  }

  lemma DeadStep(h: Holder, ev: Event)
    requires Inv(h) && !h.alive
    ensures var r := Step(h, ev);
      !r.alive && r.history == h.history && r.ptyInput == h.ptyInput && r.cols == h.cols && r.rows == h.rows
  {
    if Enabled(h, ev) {
      DeadArm(h, ev);
      if FillsReader(ev) {
        ArmStaysSound(h, ev);
        DeadTurn(Arm(h, ev));
      }
    }
  }

  lemma DeadArm(h: Holder, ev: Event)
    requires Inv(h) && Enabled(h, ev) && !h.alive
    ensures var r := Arm(h, ev);
      !r.alive && r.history == h.history && r.ptyInput == h.ptyInput && r.cols == h.cols && r.rows == h.rows
  {
    hide Inv, Next, Takeover;
  }

  lemma DeadTurn(h: Holder)
    requires h.Sound() && !h.alive
    ensures var r := RunBuffered(h);
      !r.alive && r.history == h.history && r.ptyInput == h.ptyInput && r.cols == h.cols && r.rows == h.rows
  {
    if h.client.Some? && h.client.value in h.ran {
      var c, d := h.client.value, Decode(h.readerBuf);
      DeadFrames(h.(readerBuf := d.left, ran := h.ran[c := h.ran[c] + d.frames]), d.frames);
    }
  }

  lemma {:induction false} DeadFrames(h: Holder, frames: seq<Frame>)
    requires h.Sound() && h.client.Some? && !h.alive
    ensures var r := RunAll(h, frames);
      !r.alive && r.history == h.history && r.ptyInput == h.ptyInput && r.cols == h.cols && r.rows == h.rows
    decreases |frames|
  {
    if frames != [] {
      DeadFrame(h, frames[0]);
      hide RunFrame;
      DeadFrames(RunFrame(h, frames[0]), frames[1..]);
    }
  }

  lemma DeadFrame(h: Holder, f: Frame)
    requires h.Sound() && h.client.Some? && !h.alive
    ensures var r := RunFrame(h, f);
      && r.Sound() && r.client == h.client
      && !r.alive && r.history == h.history && r.ptyInput == h.ptyInput && r.cols == h.cols && r.rows == h.rows
  {
    hide DumpReply, ReplayReply;
  }

  /** After the end the stream is final: no run adds output, types input or changes the size. */
  lemma {:induction false} DeadForGood(h: Holder, events: seq<Event>)
    requires Inv(h) && !h.alive
    ensures var r := Run(h, events);
      !r.alive && r.history == h.history && r.ptyInput == h.ptyInput && r.cols == h.cols && r.rows == h.rows
    decreases |events|
  {
    if events != [] {
      DeadStep(h, events[0]);
      StepKeepsInv(h, events[0]);
      DeadForGood(Step(h, events[0]), events[1..]);
    }
  }

  // ───── Connections that go, or say nothing ─────

  /** A parked connection that hangs up is gone; a controller that does leaves the lease free, its unfinished bytes with it. */
  lemma HangupsLeave(h: Holder)
    requires Inv(h)
    ensures h.pending.Some? ==> Step(h, PendingHangup) == h.(pending := None, pendingBuf := [])
    ensures h.client.Some? ==> Step(h, ClientHangup) == h.(client := None, readerBuf := [])
  {
  }

  /** One that says nothing in time is taken for an older client: it controls the PTY, without a grant. */
  lemma SilenceIsPromoted(h: Holder)
    requires Inv(h) && h.pending.Some?
    ensures
      var r := Step(h, ClaimTimeout);
      && r.client == h.pending && r.pending.None? && r.generation == h.generation && r.history == h.history
      && h.sent <= r.sent && forall i :: |h.sent| <= i < |r.sent| ==> !r.sent[i].out.Acquired?
  {
    ArmStaysSound(h, ClaimTimeout);
    RunBufferedEnds(Promote(h));
  }
}
