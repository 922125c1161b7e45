/** What a server that asks the holder for a range of the stream gets, in every reachable state. */
module HolderReplay {
  import opened Prelude
  import opened Lexer
  import opened LexUnits
  import opened Anchors
  import opened Frames
  import Model = HolderModel
  import opened HolderProofs

  type Holder = Model.Holder
  type Event = Model.Event

  // ───── Which anchors survive ─────

  /** The deque holds no anchor below the ring, and, for a ring under 2 MiB, every anchor that is not. */
  ghost predicate AnchorsKept(h: Holder)
    requires h.Sound()
  {
    var grid := Grid(h.history);
    && (forall i :: h.dropped <= i < |grid| ==> grid[i] >= h.Base())
    && (h.cap < ANCHOR_CAP * ANCHOR_GRAIN ==> forall i :: 0 <= i < h.dropped ==> grid[i] < h.Base())
  }

  /** Eviction at the cap takes only anchors at least 2 MiB behind the newest. */
  lemma EvictedAreOld(stream: seq<byte>, i: nat)
    requires i < |Grid(stream)| - ANCHOR_CAP
    ensures Grid(stream)[i] + ANCHOR_CAP * ANCHOR_GRAIN <= |stream|
  {
    var last := |Grid(stream)| - 1;
    GridInBounds(stream, last);
    GridSpread(stream, i, last);
    assert (last - i) * ANCHOR_GRAIN >= ANCHOR_CAP * ANCHOR_GRAIN;
  }

  lemma DroppedAreBelow(h: Holder, data: seq<byte>)
    requires h.Sound() && AnchorsKept(h) && h.cap < ANCHOR_CAP * ANCHOR_GRAIN
    ensures var stream := h.history + data;
            forall i :: 0 <= i < DroppedAfter(h.history, h.dropped, h.cap, data) ==>
              Grid(stream)[i] < Max(|stream| - h.cap, 0)
  {
    var stream := h.history + data;
    var base := Max(|stream| - h.cap, 0);
    GridGrows(h.history, data);
    forall i | 0 <= i < DroppedAfter(h.history, h.dropped, h.cap, data) ensures Grid(stream)[i] < base {
      if i < h.dropped {
        assert Grid(stream)[i] == Grid(h.history)[i];
      } else if i < |Grid(stream)| - ANCHOR_CAP {
        EvictedAreOld(stream, i);
      }
    }
  }

  lemma OutputKeepsAnchors(h: Holder, data: seq<byte>, delivered: bool)
    requires h.Sound() && AnchorsKept(h)
    ensures Model.OnPtyOutput(h, data, delivered).Sound()
    ensures AnchorsKept(Model.OnPtyOutput(h, data, delivered))
  {
    hide Model.Inv, Grid;
    var stream := h.history + data;
    var dropped := DroppedAfter(h.history, h.dropped, h.cap, data);
    GridAscends(stream);
    if h.cap < ANCHOR_CAP * ANCHOR_GRAIN {
      DroppedAreBelow(h, data);
    }
  }

  lemma GridAscends(stream: seq<byte>)
    ensures forall i, j :: 0 <= i <= j < |Grid(stream)| ==> Grid(stream)[i] <= Grid(stream)[j]
  {
    forall i, j | 0 <= i <= j < |Grid(stream)| ensures Grid(stream)[i] <= Grid(stream)[j] {
      GridSpread(stream, i, j);
    }
  }

  /** Only PTY output moves the stream and its anchors. */
  lemma OnlyOutputMoves(h: Holder, ev: Event)
    requires Model.Inv(h) && (ev.PtyOutput? ==> !Model.Enabled(h, ev))
    ensures var h' := Model.Step(h, ev);
            h'.history == h.history && h'.dropped == h.dropped && h'.cap == h.cap
  {
    if Model.Enabled(h, ev) {
      ArmMovesNothing(h, ev);
      if Model.FillsReader(ev) { RunBufferedEnds(Model.Arm(h, ev)); }
    }
  }

  lemma ArmMovesNothing(h: Holder, ev: Event)
    requires Model.Inv(h) && Model.Enabled(h, ev) && !ev.PtyOutput?
    ensures var h' := Model.Arm(h, ev);
            h'.history == h.history && h'.dropped == h.dropped && h'.cap == h.cap
  {
    hide Model.Inv, Next, Model.Takeover;
  }

  lemma {:induction false} RunKeepsAnchors(h: Holder, events: seq<Event>)
    requires Model.Inv(h) && AnchorsKept(h)
    ensures AnchorsKept(Run(h, events))
    decreases |events|
  {
    if events != [] {
      StepKeepsInv(h, events[0]);
      if events[0].PtyOutput? && Model.Enabled(h, events[0]) {
        OutputKeepsAnchors(h, events[0].data, events[0].delivered);
      } else {
        OnlyOutputMoves(h, events[0]);
      }
      RunKeepsAnchors(Model.Step(h, events[0]), events[1..]);
    }
  }

  // ───── Replies across a gap ─────

  /** A reply that starts at `base` reads, from Ground, exactly as the real stream does there. */
  ghost predicate ReadsAsStream(stream: seq<byte>, base: nat, data: seq<byte>) {
    && base <= |stream|
    && data == stream[base..]
    && forall k :: 0 <= k <= |data| ==> Lex(Ground, data[..k]) == Lex(Ground, stream[..base + k])
  }

  lemma TailReads(stream: seq<byte>, base: nat)
    requires GroundAt(stream, base)
    ensures ReadsAsStream(stream, base, stream[base..])
  {
    var data := stream[base..];
    forall k | 0 <= k <= |data| ensures Lex(Ground, data[..k]) == Lex(Ground, stream[..base + k]) {
      assert data[..k] == stream[base..base + k];
      ReplayFromGround(stream, base, base + k);
    }
  }

  /** An offset a reply may start at: a surviving anchor that the ring still covers. */
  ghost predicate Usable(h: Holder, a: nat)
    requires h.Sound()
  {
    h.Base() <= a < |h.history| && exists k :: 0 <= k < |h.Anchors()| && h.Anchors()[k] == a
  }

  /** All bytes from the first usable offset on; nothing only when there is none. */
  ghost predicate Supplied(h: Holder, base: nat, data: seq<byte>)
    requires h.Sound()
  {
    if exists a :: Usable(h, a) then
      Usable(h, base) && (forall a :: Usable(h, a) ==> base <= a) && data == h.history[base..]
    else base == |h.history| && data == []
  }

  lemma SafeTailServes(h: Holder)
    requires h.Sound()
    ensures Supplied(h, Model.SafeTail(h).0, Model.SafeTail(h).1)
  {
    FirstAtOrAfterFinds(h.Anchors(), h.Base());
    GridAscends(h.history);
    forall k, l | 0 <= k <= l < |h.Anchors()| ensures h.Anchors()[k] <= h.Anchors()[l] {
      assert h.Anchors()[k] == Grid(h.history)[h.dropped + k] && h.Anchors()[l] == Grid(h.history)[h.dropped + l];
    }
  }

  lemma SuppliedReads(h: Holder, base: nat, data: seq<byte>)
    requires h.Sound() && Supplied(h, base, data) && base < |h.history|
    ensures GroundAt(h.history, base) && ReadsAsStream(h.history, base, data)
  {
    var k :| 0 <= k < |h.Anchors()| && h.Anchors()[k] == base;
    GridInBounds(h.history, h.dropped + k);
    TailReads(h.history, base);
  }

  /**
   * Gap-safe replay: asked for bytes the ring no longer has, the holder says so, and sends all it has from
   * the first usable offset on, where the lexer, run over the whole stream, is between tokens; it sends
   * nothing only when no such offset survives.
   */
  lemma GapReplyIsSafe(h: Holder, want: nat)
    requires h.Sound() && want < h.Base()
    ensures var r := Model.ReplayReply(h, want);
            && r.want == want && r.gap && r.end == |h.history|
            && Supplied(h, r.base, r.data)
            && (|| (r.data == [] && r.base == r.end)
                || (r.base >= h.Base() && GroundAt(h.history, r.base) && ReadsAsStream(h.history, r.base, r.data)))
  {
    SafeTailServes(h);
    var r := Model.ReplayReply(h, want);
    if r.base < |h.history| {
      SuppliedReads(h, r.base, r.data);
    }
  }

  /** In terms of the stream's units, whatever it has yet to say: the reply starts with a whole one. */
  lemma GapReplyStartsAUnit(h: Holder, want: nat, more: seq<byte>, units: seq<Unit>) returns (i: nat)
    requires h.Sound() && want < h.Base() && AllWhole(units) && h.history + more == Spell(units)
    requires Model.ReplayReply(h, want).data != []
    ensures var r := Model.ReplayReply(h, want);
            i <= |units| && r.base == |Spell(units[..i])| && r.data + more == Spell(units[i..])
  {
    GapReplyIsSafe(h, want);
    i := CutAtGround(h.history, more, units, Model.ReplayReply(h, want).base);
  }

  /** Without a gap the reply completes what the server has: its `want` bytes and the reply are the whole stream. */
  lemma ReplyWithoutGap(h: Holder, want: nat)
    requires h.Sound() && h.Base() <= want
    ensures var r := Model.ReplayReply(h, want);
            && !r.gap && r.end == |h.history|
            && if want <= |h.history| then h.history[..want] + r.data == h.history else r.data == []
  {
    if want <= |h.history| {
      assert h.history[..want] + h.history[want..] == h.history;
    }
  }

  /** The older full dump is the whole stream, or, once the ring has overflowed, served like a gap. */
  lemma DumpReplyIsSafe(h: Holder)
    requires h.Sound()
    ensures var data := Model.DumpReply(h).data;
            && (h.Base() == 0 ==> data == h.history)
            && (h.Base() > 0 ==> exists b :: Supplied(h, b, data))
            && (data == [] || exists b :: GroundAt(h.history, b) && ReadsAsStream(h.history, b, data))
  {
    if h.Base() > 0 {
      SafeTailServes(h);
      var (base, data) := Model.SafeTail(h);
      assert Model.DumpReply(h).data == data && Supplied(h, base, Model.DumpReply(h).data);
      if data != [] {
        SuppliedReads(h, base, data);
      }
    } else {
      assert h.history[..0] == [] && h.history[0..] == h.history;
      assert GroundAt(h.history, 0) && ReadsAsStream(h.history, 0, h.history);
    }
  }

  /**
   * Nothing safe is withheld: with a ring under 512 x 4096 bytes, in every reachable state the
   * reply across a gap starts no later than any ground offset a grain past the ring's base.
   */
  lemma TailStartsEarly(cap: nat, cols: nat, rows: nat, events: seq<Event>, want: nat, g: nat)
    requires cap < 2097152
    requires Model.Inv(Model.Start(cap, cols, rows))
    ensures var h := Run(Model.Start(cap, cols, rows), events);
            GroundAt(h.history, g) && h.Base() + 4095 <= g ==>
              && (exists k :: 0 <= k < |h.Anchors()| && g - 4096 < h.Anchors()[k] <= g)
              && (want < h.Base() ==>
                    var r := Model.ReplayReply(h, want);
                    r.base <= g && r.data == h.history[r.base..])
              && (h.Base() > 0 ==>
                    exists b: nat :: h.Base() <= b <= g && Model.DumpReply(h).data == h.history[b..])
  {
    var start := Model.Start(cap, cols, rows);
    var h := Run(start, events);
    RunKeepsAnchors(start, events);
    RunKeepsCap(start, events);
    hide Run, Model.Inv;
    if GroundAt(h.history, g) && h.Base() + ANCHOR_GRAIN - 1 <= g {
      TailOf(h, want, g);
    }
  }

  lemma TailOf(h: Holder, want: nat, g: nat)
    requires h.Sound() && AnchorsKept(h) && h.cap < ANCHOR_CAP * ANCHOR_GRAIN
    requires GroundAt(h.history, g) && h.Base() + ANCHOR_GRAIN - 1 <= g
    ensures exists k :: 0 <= k < |h.Anchors()| && g - ANCHOR_GRAIN < h.Anchors()[k] <= g
    ensures want < h.Base() ==> var r := Model.ReplayReply(h, want); r.base <= g && r.data == h.history[r.base..]
    ensures h.Base() > 0 ==> exists b: nat :: h.Base() <= b <= g && Model.DumpReply(h).data == h.history[b..]
  {
    hide Grid, Model.ReplayReply, Model.DumpReply, Supplied;
    var i := GridComplete(h.history, g);
    assert i >= h.dropped;
    assert h.Anchors()[i - h.dropped] == Grid(h.history)[i];
    AnchorIsServed(h, i - h.dropped);
    DumpIsServed(h, i - h.dropped);
    if want < h.Base() {
      GapReplyIsSafe(h, want);
    }
  }

  lemma AnchorIsServed(h: Holder, k: nat)
    requires h.Sound() && k < |h.Anchors()| && h.Anchors()[k] >= h.Base()
    ensures forall base: nat, data :: Supplied(h, base, data) ==>
      h.Base() <= base <= h.Anchors()[k] && base <= |h.history| && data == h.history[base..]
  {
    Model.GridBounds(h.history);
    var a := h.Anchors()[k];
    assert a == Grid(h.history)[h.dropped + k];
    assert a < |h.history| ==> Usable(h, a);
  }

  lemma DumpIsServed(h: Holder, k: nat)
    requires h.Sound() && k < |h.Anchors()| && h.Anchors()[k] >= h.Base()
    ensures h.Base() > 0 ==>
      exists b: nat :: h.Base() <= b <= h.Anchors()[k] && b <= |h.history| && Model.DumpReply(h).data == h.history[b..]
  {
    DumpReplyIsSafe(h);
    AnchorIsServed(h, k);
  }

  lemma {:induction false} RunKeepsCap(h: Holder, events: seq<Event>)
    requires Model.Inv(h)
    ensures Run(h, events).cap == h.cap
    decreases |events|
  {
    if events != [] {
      StepKeepsInv(h, events[0]);
      if !(events[0].PtyOutput? && Model.Enabled(h, events[0])) { OnlyOutputMoves(h, events[0]); }
      RunKeepsCap(Model.Step(h, events[0]), events[1..]);
    }
  }

  // ───── The bound is exact ─────

  const PLAIN: byte := 0x78  // 'x'

  function Plain(n: nat): seq<byte> { seq(n, _ => PLAIN) }

  function Multiples(n: nat): seq<nat> { seq(n, i => i * ANCHOR_GRAIN) }

  lemma {:induction false} PlainIsGround(n: nat)
    ensures Lex(Ground, Plain(n)) == Ground
  {
    if n > 0 {
      PlainIsGround(n - 1);
      assert Plain(n)[..n - 1] == Plain(n - 1);
    }
  }

  lemma {:induction false} PlainGrid(n: nat)
    ensures Grid(Plain(n)) == Multiples(n / ANCHOR_GRAIN + 1)
  {
    if n == 0 {
      assert Multiples(1) == [0];
    } else {
      PlainGrid(n - 1);
      PlainIsGround(n);
      assert Plain(n)[..n - 1] == Plain(n - 1);
      var m := (n - 1) / ANCHOR_GRAIN;
      assert Last(Multiples(m + 1)) == m * ANCHOR_GRAIN;
      assert Multiples(m + 2) == Multiples(m + 1) + [(m + 1) * ANCHOR_GRAIN];
    }
  }

  /** The deque never holds more anchors than its cap, however the output is cut into reads. */
  lemma {:induction false} RunCapsAnchors(h: Holder, events: seq<Event>)
    requires Model.Inv(h) && |Grid(h.history)| - ANCHOR_CAP <= h.dropped
    ensures |Grid(Run(h, events).history)| - ANCHOR_CAP <= Run(h, events).dropped
    decreases |events|
  {
    hide Model.Inv, Grid;
    if events != [] {
      StepKeepsInv(h, events[0]);
      if !(events[0].PtyOutput? && Model.Enabled(h, events[0])) {
        OnlyOutputMoves(h, events[0]);
      }
      RunCapsAnchors(Model.Step(h, events[0]), events[1..]);
    }
  }

  function EnoughText(cap: nat): seq<byte> { Plain((cap / 4096 + 1) * 4096) }

  /**
   * A ring of 512 x 4096 bytes or more breaks the promise: after enough plain text, however the reads cut it
   * and whatever happens in between, an anchor that the ring still covers has been evicted to make room.
   */
  lemma LargeRingLosesAnchors(cap: nat, cols: nat, rows: nat, events: seq<Event>)
    requires cap >= 2097152 && Model.Inv(Model.Start(cap, cols, rows))
    requires Run(Model.Start(cap, cols, rows), events).history == EnoughText(cap)
    ensures var h := Run(Model.Start(cap, cols, rows), events);
            1 < h.dropped <= |Grid(h.history)| && Grid(h.history)[1] >= h.Base() > 0
  {
    var start := Model.Start(cap, cols, rows);
    var q := cap / ANCHOR_GRAIN + 1;
    Model.GridBounds([]);
    PlainGrid(0);
    assert Plain(0) == [];
    RunCapsAnchors(start, events);
    RunKeepsCap(start, events);
    PlainGrid(q * ANCHOR_GRAIN);
    assert q * ANCHOR_GRAIN / ANCHOR_GRAIN == q;
  }

  /** Reads of one grain each, which the holder's 64 KiB buffer always allows. */
  function ShortReads(n: nat): seq<Event> {
    seq(n, _ => Model.PtyOutput(Plain(ANCHOR_GRAIN), true))
  }

  lemma {:induction false} ShortReadsBuildText(h: Holder, n: nat)
    requires Model.Inv(h) && h.alive
    ensures Run(h, ShortReads(n)).history == h.history + Plain(n * ANCHOR_GRAIN)
    decreases n
  {
    hide Model.Inv;
    if n == 0 {
      assert h.history + Plain(0) == h.history;
    } else {
      var ev := Model.PtyOutput(Plain(ANCHOR_GRAIN), true);
      assert ShortReads(n)[0] == ev && ShortReads(n)[1..] == ShortReads(n - 1);
      StepKeepsInv(h, ev);
      ShortReadsBuildText(Model.Step(h, ev), n - 1);
      Associate(h.history, Plain(ANCHOR_GRAIN), Plain((n - 1) * ANCHOR_GRAIN));
      assert Plain(ANCHOR_GRAIN) + Plain((n - 1) * ANCHOR_GRAIN) == Plain(n * ANCHOR_GRAIN);
    }
  }

  /** Such runs exist. */
  lemma LargeRingIsFilled(cap: nat, cols: nat, rows: nat)
    requires Model.Inv(Model.Start(cap, cols, rows))
    ensures Run(Model.Start(cap, cols, rows), ShortReads(cap / ANCHOR_GRAIN + 1)).history == EnoughText(cap)
  {
    ShortReadsBuildText(Model.Start(cap, cols, rows), cap / ANCHOR_GRAIN + 1);
    assert [] + EnoughText(cap) == EnoughText(cap);
  }
}
