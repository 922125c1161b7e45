/**
 * What the controller's frames bring about (holder/src/main.rs:771-870): each question gets one answer, in
 * order and about the stream as it stands, and the last good RESIZE decides the size.
 */
module HolderAnswers {
  import opened Prelude
  import opened Frames
  import opened HolderModel
  import HolderProofs
  import opened HolderReplay

  // ───── Questions and answers ─────

  /** DUMP_REQ, DUMP_SINCE and PING. */
  predicate IsQuestion(f: Frame) {
    f.cmd == 0x06 || f.cmd == 0x10 || f.cmd == 0x0A
  }

  function Questions(frames: seq<Frame>): seq<Frame> {
    if frames == [] then []
    else (if IsQuestion(frames[0]) then [frames[0]] else []) + Questions(frames[1..])
  }

  /** The offset a payload asks for: its first eight bytes, little-endian, or 0 when there are fewer. */
  predicate AsksFrom(payload: seq<byte>, offset: nat) {
    if |payload| >= 8 then offset < TWO64 && payload[..8] == U64Le(offset) else offset == 0
  }

  lemma WantIsAsked(payload: seq<byte>)
    ensures AsksFrom(payload, Want(payload))
    ensures forall offset :: AsksFrom(payload, offset) ==> offset == Want(payload)
  {
    if |payload| >= 8 {
      var low, high := payload[..4], payload[4..8];
      U32BackToBytes(low);
      U32BackToBytes(high);
      LowAndHigh(FromU32Le(low), FromU32Le(high));
      assert payload[..8] == low + high;
      forall offset: nat | AsksFrom(payload, offset) ensures offset == Want(payload) {
        U64RoundTrip(offset);
        assert payload[..8][..4] == low && payload[..8][4..] == high;
      }
    }
  }

  lemma LowAndHigh(low: nat, high: nat)
    requires low < TWO32 && high < TWO32
    ensures low + TWO32 * high < TWO64
    ensures (low + TWO32 * high) % TWO32 == low && (low + TWO32 * high) / TWO32 == high
  {
  }

  /**
   * The answer to one question. A replay names the end of the stream; above the ring's base it has everything
   * from the wanted offset on, below it what can safely be served. A dump is the whole stream while the ring
   * has it all.
   */
  ghost predicate RightAnswer(h: Holder, f: Frame, out: Out)
    requires h.Sound()
  {
    if f.cmd == 0x06 then
      && out.DumpResp?
      && if h.Base() == 0 then out.data == h.history else exists b :: Supplied(h, b, out.data)
    else if f.cmd == 0x10 then
      && out.Replay? && AsksFrom(f.payload, out.want) && out.end == |h.history|
      && (out.gap <==> out.want < h.Base())
      && if out.gap then Supplied(h, out.base, out.data)
         else out.base == h.Base() && out.data == h.history[Min(out.want, out.end)..]
    else f.cmd == 0x0A && out == Pong
  }

  /** One answer for each question, to the controller, in order. */
  ghost predicate Answered(h: Holder, questions: seq<Frame>, sent: seq<Sent>)
    requires h.Sound()
  {
    && |sent| == |questions|
    && forall i :: 0 <= i < |sent| ==> Some(sent[i].to) == h.client && RightAnswer(h, questions[i], sent[i].out)
  }

  lemma DumpIsRight(h: Holder, f: Frame)
    requires h.Sound() && f.cmd == CMD_DUMP_REQ
    ensures RightAnswer(h, f, DumpReply(h))
  {
    hide Supplied, Holder.Sound;
    DumpReplyIsSafe(h);
  }

  lemma SinceIsRight(h: Holder, f: Frame)
    requires h.Sound() && f.cmd == CMD_DUMP_SINCE
    ensures RightAnswer(h, f, ReplayReply(h, Want(f.payload)))
  {
    hide Supplied, Want, AsksFrom;
    WantIsAsked(f.payload);
    if Want(f.payload) < h.Base() {
      GapReplyIsSafe(h, Want(f.payload));
    }
  }

  lemma FrameIsAnswered(h: Holder, f: Frame)
    requires h.Sound() && h.client.Some?
    ensures var r := RunFrame(h, f);
            h.sent <= r.sent && Answered(h, if IsQuestion(f) then [f] else [], r.sent[|h.sent|..])
  {
    if f.cmd == CMD_DUMP_REQ {
      DumpIsRight(h, f);
    } else if f.cmd == CMD_DUMP_SINCE {
      SinceIsRight(h, f);
    } else if f.cmd == CMD_PING {
      assert RightAnswer(h, f, Pong);
    }
    hide RightAnswer, DumpReply, ReplayReply, Want, Holder.Sound;
  }

  lemma SameAnswers(a: Holder, b: Holder, questions: seq<Frame>, sent: seq<Sent>)
    requires a.Sound() && b.Sound()
    requires a.client == b.client && a.history == b.history && a.cap == b.cap && a.dropped == b.dropped
    ensures Answered(a, questions, sent) <==> Answered(b, questions, sent)
  {
    assert forall base, data :: Supplied(a, base, data) <==> Supplied(b, base, data) by {
      assert a.Anchors() == b.Anchors();
      assert forall x :: Usable(a, x) <==> Usable(b, x);
    }
  }

  lemma AnsweredTogether(h: Holder, q1: seq<Frame>, s1: seq<Sent>, q2: seq<Frame>, s2: seq<Sent>)
    requires h.Sound() && Answered(h, q1, s1) && Answered(h, q2, s2)
    ensures Answered(h, q1 + q2, s1 + s2)
  {
    hide RightAnswer;
  }

  lemma FrameChangesLittle(h: Holder, f: Frame)
    requires h.Sound() && h.client.Some?
    ensures var r := RunFrame(h, f);
      && r.Sound() && r.client == h.client && r.history == h.history && r.cap == h.cap && r.dropped == h.dropped
      && r.alive == h.alive
  {
    hide DumpReply, ReplayReply;
  }

  lemma Joined(before: seq<Sent>, middle: seq<Sent>, after: seq<Sent>)
    requires before <= middle <= after
    ensures before <= after && after[|before|..] == middle[|before|..] + after[|middle|..]
  {
  }

  lemma {:induction false} FramesAreAnswered(h: Holder, frames: seq<Frame>)
    requires h.Sound() && h.client.Some?
    ensures var r := RunAll(h, frames);
            h.sent <= r.sent && Answered(h, Questions(frames), r.sent[|h.sent|..])
    decreases |frames|
  {
    if frames != [] {
      hide Answered, RunFrame, IsQuestion, Holder.Sound;
      var h1 := RunFrame(h, frames[0]);
      var r := RunAll(h1, frames[1..]);
      FrameIsAnswered(h, frames[0]);
      FrameChangesLittle(h, frames[0]);
      FramesAreAnswered(h1, frames[1..]);
      SameAnswers(h, h1, Questions(frames[1..]), r.sent[|h1.sent|..]);
      AnsweredTogether(h, if IsQuestion(frames[0]) then [frames[0]] else [], h1.sent[|h.sent|..],
                       Questions(frames[1..]), r.sent[|h1.sent|..]);
      Joined(h.sent, h1.sent, r.sent);
    } else {
      assert h.sent[|h.sent|..] == [];
    }
  }

  /** At the end of a turn every question among the controller's whole frames has been answered, and nothing else was sent. */
  lemma TurnIsAnswered(h: Holder)
    requires h.Sound() && h.client.Some? && h.client.value in h.ran
    ensures var r := RunBuffered(h);
            h.sent <= r.sent && Answered(h, Questions(Decode(h.readerBuf).frames), r.sent[|h.sent|..])
  {
    var c, d := h.client.value, Decode(h.readerBuf);
    var h1 := h.(readerBuf := d.left, ran := h.ran[c := h.ran[c] + d.frames]);
    FramesAreAnswered(h1, d.frames);
    hide Answered;
    SameAnswers(h1, h, Questions(d.frames), RunBuffered(h).sent[|h.sent|..]);
  }

  // ───── Sizes ─────

  function U16Le(n: nat): seq<byte>
    requires n < 0x1_0000
  {
    [n % 256, n / 256]
  }

  /** A RESIZE for a real size: two little-endian 16-bit numbers, neither of them zero. */
  predicate AsksSize(f: Frame, cols: nat, rows: nat) {
    && f.cmd == 0x05 && |f.payload| >= 4
    && 0 < cols < 0x1_0000 && 0 < rows < 0x1_0000
    && f.payload[..2] == U16Le(cols) && f.payload[2..4] == U16Le(rows)
  }

  lemma U16Reads(f: Frame)
    requires f.cmd == CMD_RESIZE && |f.payload| >= 4
    ensures var cols, rows := U16(f.payload, 0), U16(f.payload, 2);
            && (cols > 0 && rows > 0 ==> AsksSize(f, cols, rows))
            && forall c, r :: AsksSize(f, c, r) ==> c == cols && r == rows
  {
    forall c: nat, r: nat | AsksSize(f, c, r) ensures c == U16(f.payload, 0) && r == U16(f.payload, 2) {
      assert f.payload[..2][0] == c % 256 && f.payload[..2][1] == c / 256;
      assert f.payload[2..4][0] == r % 256 && f.payload[2..4][1] == r / 256;
    }
  }

  /** Frame `i` is the last that asks for a size. */
  ghost predicate DecidesSize(frames: seq<Frame>, i: nat, cols: nat, rows: nat) {
    && i < |frames| && AsksSize(frames[i], cols, rows)
    && forall j, c, r :: i < j < |frames| ==> !AsksSize(frames[j], c, r)
  }

  lemma FrameSizes(h: Holder, f: Frame)
    requires h.Sound() && h.client.Some?
    ensures var r := RunFrame(h, f);
            && (forall c, l :: h.alive && AsksSize(f, c, l) ==> r.cols == c && r.rows == l)
            && (!h.alive || (forall c, l :: !AsksSize(f, c, l)) ==> r.cols == h.cols && r.rows == h.rows)
            && r.alive == h.alive
  {
    hide DumpReply, ReplayReply;
    if f.cmd == CMD_RESIZE && |f.payload| >= 4 {
      U16Reads(f);
    }
  }

  /** While the PTY lives, the last RESIZE that asks for a real size decides; without one the size stays. */
  lemma {:induction false} LastSizeWins(h: Holder, frames: seq<Frame>)
    requires h.Sound() && h.client.Some?
    ensures var r := RunAll(h, frames);
            && (forall i, c, l :: h.alive && DecidesSize(frames, i, c, l) ==> r.cols == c && r.rows == l)
            && (!h.alive || (forall i, c, l :: 0 <= i < |frames| ==> !AsksSize(frames[i], c, l)) ==>
                  r.cols == h.cols && r.rows == h.rows)
    decreases |frames|
  {
    if frames != [] {
      hide RunFrame, AsksSize;
      var h1, rest := RunFrame(h, frames[0]), frames[1..];
      FrameChangesLittle(h, frames[0]);
      FrameSizes(h, frames[0]);
      LastSizeWins(h1, rest);
      var r := RunAll(h1, rest);
      forall i: nat, c: nat, l: nat | h.alive && DecidesSize(frames, i, c, l) ensures r.cols == c && r.rows == l {
        if i > 0 {
          assert rest[i - 1] == frames[i] && DecidesSize(rest, i - 1, c, l);
        } else {
          assert AsksSize(frames[0], c, l);
          forall j, c1: nat, l1: nat | 0 <= j < |rest| ensures !AsksSize(rest[j], c1, l1) {
            assert rest[j] == frames[j + 1];
          }
        }
      }
      if forall i, c, l :: 0 <= i < |frames| ==> !AsksSize(frames[i], c, l) {
        forall j, c1: nat, l1: nat | 0 <= j < |rest| ensures !AsksSize(rest[j], c1, l1) {
          assert rest[j] == frames[j + 1];
        }
        assert forall c, l :: !AsksSize(frames[0], c, l);
      }
    }
  }
}
