/**
 * The handshake with the holder, whichever way it goes (packages/server/src/session.ts:520-667, 687-741): by
 * checkpoint or by dump, with a lease or without, granted or denied; and what makes a degraded screen whole.
 */
module HolderHandshake {
  import opened Prelude
  import opened HolderLink

  ghost predicate AllLive(frames: seq<In>) {
    forall f <- frames :: f.DataOut?
  }

  /** A checkpoint of this incarnation, at a real offset, with a holder that tells its own. */
  predicate Usable(checkpoint: Option<Checkpoint>, nextOffset: Option<nat>) {
    checkpoint.Some? && checkpoint.value.sameGeneration && checkpoint.value.offset > 0 && nextOffset.Some?
  }

  /** STATE, and, where the holder grants leases, output that arrives while the claim is in flight, and ACQUIRED. */
  function Greet(checkpoint: Option<Checkpoint>, nextOffset: Option<nat>, lease: bool, meanwhile: seq<In>): Link {
    var l := OnFrame(Fresh(checkpoint), State(nextOffset, lease));
    if lease then OnFrame(OnFrames(l, meanwhile), Acquired) else l
  }

  lemma {:induction false} Buffering(l: Link, frames: seq<In>)
    requires AllLive(frames) && (l.phase == AwaitLease || l.phase == AwaitReplay || l.phase == AwaitDump)
    ensures OnFrames(l, frames) == l.(buffered := l.buffered + frames)
    decreases |frames|
  {
    if frames == [] {
      assert l.buffered + [] == l.buffered;
    } else {
      assert frames[0].DataOut?;
      Buffering(OnFrame(l, frames[0]), frames[1..]);
      assert (l.buffered + [frames[0]]) + frames[1..] == l.buffered + frames;
    }
  }

  /** A replay is asked for exactly with a usable checkpoint, from its offset on; otherwise a dump. All output so far waits. */
  lemma GreetedAsks(checkpoint: Option<Checkpoint>, nextOffset: Option<nat>, lease: bool, meanwhile: seq<In>, before: seq<In>)
    requires AllLive(meanwhile) && AllLive(before) && (!lease ==> meanwhile == [])
    ensures
      var l := OnFrames(Greet(checkpoint, nextOffset, lease, meanwhile), before);
      && (Usable(checkpoint, nextOffset) ==> l.phase == AwaitReplay && l.applied == checkpoint.value.offset)
      && (!Usable(checkpoint, nextOffset) ==>
            l.phase == AwaitDump && l.applied == if nextOffset.Some? then nextOffset.value else 0)
      && l.screen == [] && l.buffered == meanwhile + before
      && !l.closed && !l.finalizing && l.healthy && !l.gap
  {
    hide OnFrames;
    if lease {
      Buffering(OnFrame(Fresh(checkpoint), State(nextOffset, lease)), meanwhile);
    }
    Buffering(Greet(checkpoint, nextOffset, lease, meanwhile), before);
    assert [] + before == before && [] + meanwhile == meanwhile;
  }

  lemma {:induction false} EarlyHandled(l: Link, early: seq<In>)
    requires AllLive(early) && l.phase == AwaitState && !l.closed
    ensures OnFrames(l, early) == HandleAll(l, early)
    decreases |early|
  {
    if early != [] {
      assert early[0].DataOut?;
      EarlyHandled(Handle(l, early[0]), early[1..]);
    }
  }

  /** Output ahead of STATE is shown; a checkpoint's screen then takes its place, and without one it stays. */
  lemma OutputAheadOfState(checkpoint: Option<Checkpoint>, early: seq<In>, nextOffset: Option<nat>)
    requires AllLive(early)
    ensures
      var l := OnFrames(Fresh(checkpoint), early);
      var told := OnFrame(l, State(nextOffset, false));
      && l.screen == Bytes(early) && l.applied == |Bytes(early)| && l.phase == AwaitState
      && (Usable(checkpoint, nextOffset) ==> told.screen == [] && told.applied == checkpoint.value.offset)
      && (!Usable(checkpoint, nextOffset) ==>
            told.screen == Bytes(early) && told.applied == if nextOffset.Some? then nextOffset.value else 0)
  {
    EarlyHandled(Fresh(checkpoint), early);
    HandleAllLive(Fresh(checkpoint), early);
    assert [] + Bytes(early) == Bytes(early);
  }

  // ───── What reaches the screen ─────

  /** A repaint from scratch: ESC c somewhere in the bytes. */
  predicate Repaints(data: seq<byte>) {
    exists i :: 0 <= i < |data| - 1 && data[i] == 27 && data[i + 1] == 99
  }

  predicate SomeRepaint(frames: seq<In>) {
    exists i :: 0 <= i < |frames| && frames[i].DataOut? && Repaints(frames[i].data)
  }

  lemma SomeRepaintConcat(a: seq<In>, b: seq<In>)
    ensures SomeRepaint(a + b) <==> SomeRepaint(a) || SomeRepaint(b)
  {
    hide Repaints;
    if SomeRepaint(a) {
      var i :| 0 <= i < |a| && a[i].DataOut? && Repaints(a[i].data);
      assert (a + b)[i] == a[i];
    }
    if SomeRepaint(b) {
      var i :| 0 <= i < |b| && b[i].DataOut? && Repaints(b[i].data);
      assert (a + b)[|a| + i] == b[i];
    }
  }

  lemma FirstRepaints(frames: seq<In>)
    requires frames != []
    ensures SomeRepaint(frames) <==> (frames[0].DataOut? && Repaints(frames[0].data)) || SomeRepaint(frames[1..])
  {
    SomeRepaintConcat([frames[0]], frames[1..]);
    assert [frames[0]] + frames[1..] == frames;
    hide Repaints;
    assert SomeRepaint([frames[0]]) ==> frames[0].DataOut? && Repaints(frames[0].data);
    assert [frames[0]][0] == frames[0];
  }

  /** Handled one by one, live frames heal a degraded screen exactly when one of them repaints it. */
  lemma {:induction false} Heals(l: Link, frames: seq<In>)
    requires AllLive(frames) && !l.closed
    ensures var r := HandleAll(l, frames);
      (r.healthy <==> l.healthy || SomeRepaint(frames))
      && (l.phase == Steady ==> OnFrames(l, frames) == r)
    decreases |frames|
  {
    if frames != [] {
      FirstRepaints(frames);
      assert frames[0].DataOut?;
      Heals(Handle(l, frames[0]), frames[1..]);
    }
  }

  /** After the seed: the rest of the handshake and what follows it. */
  function AfterSeed(seeded: Link, early: seq<In>, late: seq<In>): Link {
    OnFrames(OnParsed(OnFrames(seeded, early)), late)
  }

  ghost predicate Ends(l: Link, data: seq<byte>, early: seq<In>, late: seq<In>, r: Link)
    requires AllLive(l.buffered) && AllLive(early) && AllLive(late)
  {
    && r.phase == Steady && !r.closed && !r.finalizing && r.buffered == [] && r.gap == l.gap
    && r.applied == l.applied + |Bytes(l.buffered)| + |Bytes(early)| + |Bytes(late)|
    && r.screen == l.screen + (if data == [] then Bytes(l.buffered) + Bytes(early) else data + Bytes(early) + Bytes(l.buffered))
                   + Bytes(late)
    && (r.healthy <==> l.healthy || SomeRepaint(l.buffered) || SomeRepaint(early) || SomeRepaint(late))
  }

  lemma LiveFrames(l: Link, frames: seq<In>)
    requires AllLive(frames) && !l.closed && l.phase == Steady
    ensures var r := OnFrames(l, frames);
      && r == HandleAll(l, frames)
      && r == l.(applied := l.applied + |Bytes(frames)|, screen := l.screen + Bytes(frames),
                 healthy := l.healthy || SomeRepaint(frames))
  {
    Heals(l, frames);
    HandleAllLive(l, frames);
    hide HandleAll, OnFrames, SomeRepaint, Bytes;
  }

  lemma SeedEnds(l: Link, data: seq<byte>, early: seq<In>, late: seq<In>)
    requires AllLive(l.buffered) && AllLive(early) && AllLive(late) && !l.closed && !l.finalizing
    ensures Ends(l, data, early, late, AfterSeed(Seed(l, data), early, late))
  {
    hide OnFrames, HandleAll, SomeRepaint, Bytes;
    var l1 := l.(phase := Steady);
    if data == [] {
      LiveFrames(l1.(buffered := []), l.buffered);
      var drained := Seed(l, data);
      LiveFrames(drained, early);
      LiveFrames(OnFrames(drained, early), late);
      Associate(l.screen, Bytes(l.buffered), Bytes(early));
    } else {
      var seeded := Seed(l, data);
      LiveFrames(seeded, early);
      var overtaken := OnFrames(seeded, early);
      LiveFrames(overtaken.(buffered := [], finalizing := false), l.buffered);
      LiveFrames(OnParsed(overtaken), late);
      Associate(l.screen, data, Bytes(early));
      Associate(l.screen, data + Bytes(early), Bytes(l.buffered));
    }
  }

  /**
   * Without a usable checkpoint: the dump, then what was buffered around it. The offset goes on from the one
   * that STATE told and never learns where the dump ends.
   */
  lemma DumpEnds(checkpoint: Option<Checkpoint>, nextOffset: Option<nat>, lease: bool, meanwhile: seq<In>,
                 before: seq<In>, data: seq<byte>, early: seq<In>, late: seq<In>)
    requires !Usable(checkpoint, nextOffset) && (!lease ==> meanwhile == [])
    requires AllLive(meanwhile) && AllLive(before) && AllLive(early) && AllLive(late)
    ensures
      var waiting := OnFrames(Greet(checkpoint, nextOffset, lease, meanwhile), before);
      && waiting.buffered == meanwhile + before && waiting.screen == [] && waiting.healthy
      && waiting.applied == (if nextOffset.Some? then nextOffset.value else 0)
      && Ends(waiting, data, early, late, AfterSeed(OnFrame(waiting, DumpResp(data)), early, late))
  {
    GreetedAsks(checkpoint, nextOffset, lease, meanwhile, before);
    hide OnFrames, Greet, Ends, AfterSeed;
    var waiting := OnFrames(Greet(checkpoint, nextOffset, lease, meanwhile), before);
    SeedEnds(waiting, data, early, late);
  }

  /** With one: the replay takes its end as the offset; across a gap the screen is degraded until something repaints it. */
  lemma ReplayEnds(checkpoint: Option<Checkpoint>, nextOffset: Option<nat>, lease: bool, meanwhile: seq<In>,
                   before: seq<In>, replay: In, early: seq<In>, late: seq<In>)
    requires Usable(checkpoint, nextOffset) && (!lease ==> meanwhile == []) && replay.Replay?
    requires AllLive(meanwhile) && AllLive(before) && AllLive(early) && AllLive(late)
    ensures
      var waiting := OnFrames(Greet(checkpoint, nextOffset, lease, meanwhile), before);
      var told := waiting.(applied := replay.end, gap := replay.gap, healthy := !replay.gap);
      && told.buffered == meanwhile + before && told.screen == []
      && Ends(told, replay.data, early, late, AfterSeed(OnFrame(waiting, replay), early, late))
  {
    GreetedAsks(checkpoint, nextOffset, lease, meanwhile, before);
    hide OnFrames, Greet, Ends, AfterSeed;
    var waiting := OnFrames(Greet(checkpoint, nextOffset, lease, meanwhile), before);
    SeedEnds(waiting.(applied := replay.end, gap := replay.gap, healthy := !replay.gap), replay.data, early, late);
  }

  // ───── Closing ─────

  /** A refused claim closes the session: nothing is asked for, nothing that was buffered is shown. */
  lemma DeniedCloses(checkpoint: Option<Checkpoint>, nextOffset: Option<nat>, meanwhile: seq<In>, after: seq<In>)
    requires AllLive(meanwhile)
    ensures
      var claimed := OnFrames(OnFrame(Fresh(checkpoint), State(nextOffset, true)), meanwhile);
      var l := OnFrames(OnFrame(claimed, Denied), after);
      l.closed && l.phase == Steady && l.screen == []
  {
    Buffering(OnFrame(Fresh(checkpoint), State(nextOffset, true)), meanwhile);
    var claimed := OnFrames(OnFrame(Fresh(checkpoint), State(nextOffset, true)), meanwhile);
    ClosedForGood(OnFrame(claimed, Denied), after);
  }

  /** EXIT and EVICTED close a running session, and a closed one shows and counts nothing more. */
  lemma {:induction false} ClosedForGood(l: Link, frames: seq<In>)
    requires l.phase == Steady && l.closed
    ensures OnFrames(l, frames) == l
    decreases |frames|
  {
    if frames != [] {
      ClosedForGood(OnFrame(l, frames[0]), frames[1..]);
    }
  }

  lemma ClosingCloses(l: Link, frames: seq<In>)
    requires l.phase == Steady
    ensures var r := OnFrames(OnFrame(l, Closing), frames); r.closed && r.screen == l.screen && r.applied == l.applied
  {
    ClosedForGood(OnFrame(l, Closing), frames);
  }
}
