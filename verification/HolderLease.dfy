/** The controller lease: who may drive the PTY, and what becomes of each connection's frames. */
module HolderLease {
  import opened Prelude
  import Anchors
  import opened Frames
  import opened HolderModel
  import opened HolderProofs

  // ───── One claim ─────

  /** A whole ACQUIRE is the first thing the parked connection has sent. */
  ghost predicate Claims(h: Holder, bytes: seq<byte>) {
    h.pending.Some? && Next(h.pendingBuf + bytes).Got? && Next(h.pendingBuf + bytes).frame.cmd == 0x0C
  }

  /** A claim without takeover, while the lease is held, is refused and changes nothing about the lease. */
  lemma ClaimOfHeldLeaseIsDenied(h: Holder, bytes: seq<byte>)
    requires Inv(h) && Claims(h, bytes) && h.client.Some?
    requires !Takeover(Next(h.pendingBuf + bytes).frame.payload)
    ensures var r := Step(h, PendingRead(bytes));
            && r.client == h.client && r.generation == h.generation && r.readerBuf == h.readerBuf
            && r.pending == None && r.ptyInput == h.ptyInput
            && r.sent == h.sent + [Sent(h.pending.value, Denied)]
  {
    var settled := OnPendingRead(h, bytes);
    ServedIsDue(h);
    RunBufferedEnds(settled);
    NothingBuffered(h);
    var c := h.client.value;
    assert RunAll(settled.(readerBuf := h.readerBuf, ran := settled.ran[c := settled.ran[c] + []]), [])
           == settled.(readerBuf := h.readerBuf, ran := settled.ran[c := settled.ran[c] + []]);
    assert h.ptyInput + [] == h.ptyInput;
  }

  lemma NothingBuffered(h: Holder)
    requires Inv(h)
    ensures Decode(h.readerBuf) == Decoded([], h.readerBuf)
  {
    if h.client.Some? { DecodeLeavesNoFrame(h.heard[h.client.value]); }
  }

  /** A granted claim: a new generation, announced to the claimant, and to the evicted controller if there was one. */
  lemma TakeoverEvicts(h: Holder, bytes: seq<byte>)
    requires Inv(h) && Claims(h, bytes)
    requires h.client.None? || Takeover(Next(h.pendingBuf + bytes).frame.payload)
    ensures var r := Step(h, PendingRead(bytes));
            && r.client == h.pending && r.pending == None
            && r.generation == h.generation + 1
            && h.sent + [Sent(h.pending.value, Acquired(r.generation))]
                 + (if h.client.Some? then [Sent(h.client.value, Evicted)] else []) <= r.sent
  {
    RunBufferedEnds(OnPendingRead(h, bytes));
  }

  // ───── Generations over a run ─────

  /** Each grant has a generation of its own, and later grants have larger ones. */
  ghost predicate GrantsAscend(h: Holder) {
    && (forall i :: 0 <= i < |h.sent| && h.sent[i].out.Acquired? ==> h.sent[i].out.generation <= h.generation)
    && (forall i, j :: 0 <= i < j < |h.sent| && h.sent[i].out.Acquired? && h.sent[j].out.Acquired? ==>
          h.sent[i].out.generation < h.sent[j].out.generation)
  }

  ghost predicate NoGrants(sent: seq<Sent>, sent': seq<Sent>) {
    sent <= sent' && forall i :: |sent| <= i < |sent'| ==> !sent'[i].out.Acquired?
  }

  lemma SettleGrants(h: Holder)
    requires h.pending.Some? && GrantsAscend(h)
    ensures GrantsAscend(Settle(h)) && Settle(h).generation >= h.generation
  {
    hide Next, Takeover;
  }

  lemma TurnGrants(h: Holder)
    requires h.Sound() && GrantsAscend(h)
    ensures GrantsAscend(RunBuffered(h)) && RunBuffered(h).generation == h.generation
  {
    RunBufferedEnds(h);
    assert NoGrants(h.sent, RunBuffered(h).sent);
  }

  lemma ArmGrantsNothing(h: Holder, ev: Event)
    requires Inv(h) && Enabled(h, ev) && !ev.PendingRead?
    ensures NoGrants(h.sent, Arm(h, ev).sent) && Arm(h, ev).generation == h.generation
  {
    hide Inv, Anchors.DroppedAfter;
  }

  lemma ArmGrants(h: Holder, ev: Event)
    requires Inv(h) && Enabled(h, ev) && GrantsAscend(h)
    ensures GrantsAscend(Arm(h, ev)) && Arm(h, ev).generation >= h.generation
  {
    if ev.PendingRead? {
      var c := h.pending.value;
      SettleGrants(h.(pendingBuf := h.pendingBuf + ev.bytes, heard := h.heard[c := h.heard[c] + ev.bytes]));
    } else {
      ArmGrantsNothing(h, ev);
    }
  }

  lemma StepGrants(h: Holder, ev: Event)
    requires Inv(h) && GrantsAscend(h)
    ensures GrantsAscend(Step(h, ev)) && Step(h, ev).generation >= h.generation
  {
    if Enabled(h, ev) {
      ArmGrants(h, ev);
      ArmKeepsBooks(h, ev);
      if FillsReader(ev) { TurnGrants(Arm(h, ev)); }
    }
  }

  lemma {:induction false} RunGrants(h: Holder, events: seq<Event>)
    requires Inv(h) && GrantsAscend(h)
    ensures GrantsAscend(Run(h, events)) && Run(h, events).generation >= h.generation
    decreases |events|
  {
    if events != [] {
      StepGrants(h, events[0]);
      StepKeepsInv(h, events[0]);
      RunGrants(Step(h, events[0]), events[1..]);
    }
  }

  // ───── Whose input reaches the PTY ─────

  /** What one connection typed, in order. */
  function TypedBy(input: seq<Typed>, c: Conn): seq<seq<byte>> {
    if input == [] then []
    else (if input[0].source == c then [input[0].data] else []) + TypedBy(input[1..], c)
  }

  /** The DATA_IN payloads among some frames, in order. */
  function Payloads(frames: seq<Frame>): seq<seq<byte>> {
    if frames == [] then []
    else (if frames[0].cmd == 0x04 then [frames[0].payload] else []) + Payloads(frames[1..])
  }

  lemma {:induction false} TypedByConcat(a: seq<Typed>, b: seq<Typed>, c: Conn)
    ensures TypedBy(a + b, c) == TypedBy(a, c) + TypedBy(b, c)
  {
    if a == [] {
      assert a + b == b;
    } else {
      assert (a + b)[1..] == a[1..] + b;
      TypedByConcat(a[1..], b, c);
    }
  }

  lemma {:induction false} PayloadsConcat(a: seq<Frame>, b: seq<Frame>)
    ensures Payloads(a + b) == Payloads(a) + Payloads(b)
  {
    if a == [] {
      assert a + b == b;
    } else {
      assert (a + b)[1..] == a[1..] + b;
      PayloadsConcat(a[1..], b);
    }
  }

  lemma {:induction false} DataInTypedBy(who: Conn, frames: seq<Frame>, c: Conn)
    ensures TypedBy(DataIn(who, frames), c) == if who == c then Payloads(frames) else []
  {
    if frames != [] {
      var first := if frames[0].cmd == CMD_DATA_IN then [Typed(who, frames[0].payload)] else [];
      TypedByConcat(first, DataIn(who, frames[1..]), c);
      assert first != [] ==> first[1..] == [];
      DataInTypedBy(who, frames[1..], c);
    }
  }

  /** While the PTY lives, what a connection typed is what it was run for typing; after that, a prefix. */
  ghost predicate InputMatches(h: Holder) {
    && (forall t <- h.ptyInput :: t.source in h.ran)
    && forall c <- h.ran ::
         && TypedBy(h.ptyInput, c) <= Payloads(h.ran[c])
         && (h.alive ==> TypedBy(h.ptyInput, c) == Payloads(h.ran[c]))
  }

  lemma {:induction false} TypedByNobody(input: seq<Typed>, c: Conn)
    requires forall t <- input :: t.source != c
    ensures TypedBy(input, c) == []
  {
    if input != [] { TypedByNobody(input[1..], c); }
  }

  lemma {:induction false} DataInSource(who: Conn, frames: seq<Frame>)
    ensures forall t <- DataIn(who, frames) :: t.source == who
  {
    if frames != [] { DataInSource(who, frames[1..]); }
  }

  lemma TurnInput(h: Holder)
    requires Due(h) && InputMatches(h)
    ensures InputMatches(RunBuffered(h))
  {
    var r := RunBuffered(h);
    RunBufferedEnds(h);
    if h.client.Some? {
      var who := h.client.value;
      var frames := Decode(h.readerBuf).frames;
      var typed := if h.alive then DataIn(who, frames) else [];
      DataInSource(who, frames);
      forall c <- r.ran
        ensures TypedBy(r.ptyInput, c) <= Payloads(r.ran[c])
        ensures r.alive ==> TypedBy(r.ptyInput, c) == Payloads(r.ran[c])
      {
        TypedByConcat(h.ptyInput, typed, c);
        DataInTypedBy(who, frames, c);
        PayloadsConcat(h.ran[who], frames);
      }
    }
  }

  lemma ArmTypesNothing(h: Holder, ev: Event)
    requires Inv(h) && Enabled(h, ev)
    ensures var r := Arm(h, ev);
            && r.ptyInput == h.ptyInput && (r.alive ==> h.alive)
            && r.ran == if ev.Accept? then h.ran[ev.conn := []] else h.ran
  {
    hide Inv, Next, Anchors.DroppedAfter, Takeover;
  }

  lemma ArmInput(h: Holder, ev: Event)
    requires Inv(h) && Enabled(h, ev) && InputMatches(h)
    ensures InputMatches(Arm(h, ev))
  {
    var r := Arm(h, ev);
    ArmTypesNothing(h, ev);
    if ev.Accept? { TypedByNobody(h.ptyInput, ev.conn); }
    forall c <- r.ran
      ensures TypedBy(r.ptyInput, c) <= Payloads(r.ran[c])
      ensures r.alive ==> TypedBy(r.ptyInput, c) == Payloads(r.ran[c])
    {
      if !ev.Accept? || ev.conn != c { assert c in h.ran; }
    }
  }

  lemma StepInput(h: Holder, ev: Event)
    requires Inv(h) && InputMatches(h)
    ensures InputMatches(Step(h, ev))
  {
    if Enabled(h, ev) {
      ArmInput(h, ev);
      ArmKeepsBooks(h, ev);
      if FillsReader(ev) { TurnInput(Arm(h, ev)); }
    }
  }

  lemma {:induction false} RunInput(h: Holder, events: seq<Event>)
    requires Inv(h) && InputMatches(h)
    ensures InputMatches(Run(h, events))
    decreases |events|
  {
    if events != [] {
      StepInput(h, events[0]);
      StepKeepsInv(h, events[0]);
      RunInput(Step(h, events[0]), events[1..]);
    }
  }

  /** In any turn, whatever reaches the PTY comes from the connection that controls it at the end of the turn. */
  lemma OnlyTheControllerTypes(h: Holder, ev: Event)
    requires Inv(h)
    ensures var r := Step(h, ev);
            && h.ptyInput <= r.ptyInput
            && forall i :: |h.ptyInput| <= i < |r.ptyInput| ==> r.client == Some(r.ptyInput[i].source)
  {
    hide Inv, Arm, RunBuffered;
    if Enabled(h, ev) {
      ArmTypesNothing(h, ev);
      if FillsReader(ev) {
        ArmStaysSound(h, ev);
        TurnTypes(Arm(h, ev));
      }
    }
  }

  lemma TurnTypes(h: Holder)
    requires h.Sound()
    ensures var r := RunBuffered(h);
            && r.client == h.client && h.ptyInput <= r.ptyInput
            && forall i :: |h.ptyInput| <= i < |r.ptyInput| ==> r.client == Some(r.ptyInput[i].source)
  {
    RunBufferedEnds(h);
    if h.client.Some? { DataInSource(h.client.value, Decode(h.readerBuf).frames); }
  }

  /**
   * Lease safety over all runs. Generations are granted in ascending order. Each connection either
   * had no frame acted on, or all whole frames it sent (behind its claim, if it claimed) were acted
   * on exactly once and in order; and while the PTY lives its DATA_IN payloads are what it typed.
   */
  lemma LeaseSafety(cap: nat, cols: nat, rows: nat, events: seq<Event>, c: Conn)
    ensures Inv(Start(cap, cols, rows))
    ensures var h := Run(Start(cap, cols, rows), events);
            && GrantsAscend(h)
            && (c in h.ran ==>
                  && (h.ran[c] == [] || Accounted(h.heard[c], h.ran[c], c in h.claimed))
                  && TypedBy(h.ptyInput, c) <= Payloads(h.ran[c])
                  && (h.alive ==> TypedBy(h.ptyInput, c) == Payloads(h.ran[c])))
            && (c !in h.ran ==> TypedBy(h.ptyInput, c) == [])
  {
    var start := Start(cap, cols, rows);
    RunInput(start, events);
    RunGrants(start, events);
    var h := Run(start, events);
    if c !in h.ran { TypedByNobody(h.ptyInput, c); }
  }
}
