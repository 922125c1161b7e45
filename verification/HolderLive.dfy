/** A replay and the live output behind it, put together, are the stream. */
module HolderLive {
  import opened Prelude
  import opened Lexer
  import opened Frames
  import Model = HolderModel
  import opened HolderProofs
  import opened HolderReplay

  type Sent = Model.Sent

  /** The live bytes sent to `c`, in order. */
  function LiveBytes(sent: seq<Sent>, c: Model.Conn): seq<byte> {
    if sent == [] then []
    else (if sent[0].to == c && sent[0].out.DataOut? then sent[0].out.data else []) + LiveBytes(sent[1..], c)
  }

  lemma {:induction false} LiveBytesConcat(a: seq<Sent>, b: seq<Sent>, c: Model.Conn)
    ensures LiveBytes(a + b, c) == LiveBytes(a, c) + LiveBytes(b, c)
  {
    if a == [] {
      assert a + b == b;
    } else {
      assert (a + b)[1..] == a[1..] + b;
      LiveBytesConcat(a[1..], b, c);
    }
  }

  lemma {:induction false} NoLive(sent: seq<Sent>, c: Model.Conn)
    requires forall s <- sent :: !s.out.DataOut?
    ensures LiveBytes(sent, c) == []
  {
    if sent != [] { NoLive(sent[1..], c); }
  }

  /** A replay as the stream stood when it was answered. */
  ghost predicate Faithful(out: Model.Out, stream: seq<byte>)
    requires out.Replay?
  {
    && out.end == |stream|
    && (!out.gap ==> out.data == stream[Min(out.want, out.end)..])
    && (out.gap ==> || (out.data == [] && out.base == out.end)
                    || (GroundAt(stream, out.base) && ReadsAsStream(stream, out.base, out.data)))
  }

  /** Every replay sent to the present controller is continued, without hole or overlap, by its live frames. */
  ghost predicate Continued(h: Holder, i: nat)
    requires i < |h.sent| && h.sent[i].out.Replay?
  {
    var out := h.sent[i].out;
    && out.end <= |h.history|
    && Faithful(out, h.history[..out.end])
    && LiveBytes(h.sent[i + 1..], h.sent[i].to) == h.history[out.end..]
  }

  ghost predicate Live(h: Holder) {
    && (forall i :: 0 <= i < |h.sent| && h.sent[i].out.Replay? ==>
          h.sent[i].to in h.heard && h.pending != Some(h.sent[i].to))
    && (forall i :: 0 <= i < |h.sent| && h.sent[i].out.Replay? && h.client == Some(h.sent[i].to) ==> Continued(h, i))
  }

  lemma StreamIsWhole(s: seq<byte>)
    ensures s[..|s|] == s && s[|s|..] == []
  {
  }

  /** Frames other than live output leave every continuation as it was. */
  lemma SentWithoutLive(h: Holder, h': Holder)
    requires Live(h) && h'.history == h.history && h.heard.Keys <= h'.heard.Keys
    requires h'.client == h.client || h'.client == h.pending || h'.client == None
    requires h'.pending == h.pending || h'.pending == None || h'.pending.value !in h.heard
    requires h.sent <= h'.sent
    requires forall i :: |h.sent| <= i < |h'.sent| ==> !h'.sent[i].out.DataOut? && !h'.sent[i].out.Replay?
    ensures Live(h')
  {
    forall i | 0 <= i < |h'.sent| && h'.sent[i].out.Replay? && h'.client == Some(h'.sent[i].to)
      ensures Continued(h', i)
    {
      assert h'.sent[i] == h.sent[i] && Continued(h, i);
      ContinuedStill(h, h', i);
    }
  }

  lemma ContinuedStill(h: Holder, r: Holder, i: nat)
    requires i < |h.sent| && h.sent[i].out.Replay? && Continued(h, i)
    requires r.history == h.history && h.sent <= r.sent
    requires forall j :: |h.sent| <= j < |r.sent| ==> !r.sent[j].out.DataOut?
    ensures Continued(r, i)
  {
    var extra := r.sent[|h.sent|..];
    assert r.sent[i + 1..] == h.sent[i + 1..] + extra;
    LiveBytesConcat(h.sent[i + 1..], extra, r.sent[i].to);
    NoLive(extra, r.sent[i].to);
  }

  lemma ContinuedAtFirst(h: Holder, r: Holder, i: nat)
    requires h.Sound() && |h.sent| <= i < |r.sent| && r.history == h.history
    requires r.sent[i].out.Replay? && Answer(h, r.sent[i])
    requires forall j :: |h.sent| <= j < |r.sent| ==> !r.sent[j].out.DataOut?
    ensures Continued(r, i)
  {
    ReplyIsFaithful(h, r.sent[i].out.want);
    StreamIsWhole(h.history);
    NoLive(r.sent[i + 1..], r.sent[i].to);
  }

  lemma RunBufferedLive(h: Holder)
    requires Live(h) && Due(h)
    ensures Live(Model.RunBuffered(h))
  {
    hide Model.RunBuffered, Model.SafeTail, ReadsAsStream, Continued;
    var r := Model.RunBuffered(h);
    RunBufferedEnds(h);
    forall i | 0 <= i < |r.sent| && r.sent[i].out.Replay? && r.client == Some(r.sent[i].to)
      ensures Continued(r, i)
    {
      if i < |h.sent| {
        ContinuedStill(h, r, i);
      } else {
        ContinuedAtFirst(h, r, i);
      }
    }
  }

  lemma ReplyIsFaithful(h: Holder, want: nat)
    requires h.Sound()
    ensures Faithful(Model.ReplayReply(h, want), h.history)
  {
    if want < h.Base() { GapReplyIsSafe(h, want); } else { ReplyWithoutGap(h, want); }
  }

  /** One more live frame extends the continuation by the bytes the stream grew. */
  lemma ContinuedMore(h: Holder, h': Holder, i: nat, frame: Sent)
    requires i < |h.sent| && h.sent[i].out.Replay? && Continued(h, i)
    requires frame.to == h.sent[i].to && frame.out.DataOut?
    requires h'.history == h.history + frame.out.data && h'.sent == h.sent + [frame]
    ensures Continued(h', i)
  {
    var end := h.sent[i].out.end;
    assert h'.sent[i + 1..] == h.sent[i + 1..] + [frame];
    LiveBytesConcat(h.sent[i + 1..], [frame], frame.to);
    assert LiveBytes([frame], frame.to) == frame.out.data + LiveBytes([frame][1..], frame.to);
    assert h'.history[..end] == h.history[..end];
    assert h'.history[end..] == h.history[end..] + frame.out.data;
  }

  lemma OutputLive(h: Holder, data: seq<byte>, delivered: bool)
    requires Live(h) && Model.Inv(h)
    ensures Live(Model.OnPtyOutput(h, data, delivered))
  {
    var h' := Model.OnPtyOutput(h, data, delivered);
    if h.client.Some? && delivered {
      var frame := Model.Sent(h.client.value, Model.DataOut(h.seqNo, data));
      forall i | 0 <= i < |h'.sent| && h'.sent[i].out.Replay? && h'.client == Some(h'.sent[i].to)
        ensures Continued(h', i)
      {
        assert h'.sent[i] == h.sent[i];
        ContinuedMore(h, h', i, frame);
      }
    }
  }

  lemma ArmLive(h: Holder, ev: Event)
    requires Model.Inv(h) && Live(h) && Model.Enabled(h, ev)
    ensures Live(Model.Arm(h, ev))
  {
    hide Model.Settle, Continued;
    match ev
    case PtyOutput(data, delivered) => OutputLive(h, data, delivered);
    case PtyExit => SentWithoutLive(h, Model.OnPtyExit(h));
    case Accept(c) => SentWithoutLive(h, Model.OnAccept(h, c));
    case PendingRead(bytes) =>
      var c := h.pending.value;
      SettleSends(h.(pendingBuf := h.pendingBuf + bytes, heard := h.heard[c := h.heard[c] + bytes]));
      SentWithoutLive(h, Model.OnPendingRead(h, bytes));
    case PendingHangup => SentWithoutLive(h, Model.DropPending(h));
    case ClaimTimeout => SentWithoutLive(h, Model.Promote(h));
    case ClientRead(bytes) => SentWithoutLive(h, Model.OnClientRead(h, bytes));
    case ClientHangup => SentWithoutLive(h, h.(client := None, readerBuf := []));
  }

  lemma StepLive(h: Holder, ev: Event)
    requires Model.Inv(h) && Live(h)
    ensures Live(Model.Step(h, ev))
  {
    if Model.Enabled(h, ev) {
      ArmLive(h, ev);
      ArmKeepsBooks(h, ev);
      if Model.FillsReader(ev) { RunBufferedLive(Model.Arm(h, ev)); }
    }
  }

  lemma SettleSends(h: Holder)
    requires h.pending.Some?
    ensures var h' := Model.Settle(h);
            && h'.history == h.history && h'.heard == h.heard && h.sent <= h'.sent
            && (h'.client == h.client || h'.client == h.pending)
            && (h'.pending == h.pending || h'.pending == None)
            && forall i :: |h.sent| <= i < |h'.sent| ==> !h'.sent[i].out.DataOut? && !h'.sent[i].out.Replay?
  {
    hide Model.Takeover;
    match Next(h.pendingBuf)
    case NeedMore =>
    case Got(frame, rest) =>
      hide Next;
      var claimant := h.pending.value;
      if frame.cmd == Model.CMD_ACQUIRE && (h.client.None? || Model.Takeover(frame.payload)) {
        var granted := h.sent + [Model.Sent(claimant, Model.Acquired(h.generation + 1))];
        assert Model.Settle(h).sent ==
               if h.client.Some? then granted + [Model.Sent(h.client.value, Model.Evicted)] else granted;
      }
  }

  lemma {:induction false} RunLive(h: Holder, events: seq<Event>)
    requires Model.Inv(h) && Live(h)
    ensures Live(Run(h, events))
    decreases |events|
  {
    if events != [] {
      StepLive(h, events[0]);
      StepKeepsInv(h, events[0]);
      RunLive(Model.Step(h, events[0]), events[1..]);
    }
  }

  /**
   * Replay plus live output rebuilds the stream: after any run, for each gap-free replay the
   * present controller was sent for an offset within the stream, the replayed bytes followed by
   * the payload of every DATA_OUT since are the stream from that offset to its end.
   */
  lemma ReplayPlusLive(cap: nat, cols: nat, rows: nat, events: seq<Event>, i: nat)
    requires Model.Inv(Model.Start(cap, cols, rows))
    ensures var h := Run(Model.Start(cap, cols, rows), events);
            i < |h.sent| && h.sent[i].out.Replay? && h.client == Some(h.sent[i].to) ==>
              var out := h.sent[i].out;
              !out.gap && out.want <= out.end ==>
                && out.end <= |h.history|
                && out.data + LiveBytes(h.sent[i + 1..], h.sent[i].to) == h.history[out.want..]
  {
    var start := Model.Start(cap, cols, rows);
    var h := Run(start, events);
    RunLive(start, events);
    if i < |h.sent| && h.sent[i].out.Replay? && h.client == Some(h.sent[i].to) {
      var out := h.sent[i].out;
      assert Continued(h, i);
      if !out.gap && out.want <= out.end {
        assert h.history[..out.end][out.want..] + h.history[out.end..] == h.history[out.want..];
      }
    }
  }
}
