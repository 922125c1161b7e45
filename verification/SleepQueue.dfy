/**
 * What becomes of input that arrives at a gated pane (packages/server/src/agent-sleep.ts:515-570, 642-659):
 * every byte is accepted or counted as dropped, every record starts one wake at most, and a wake that
 * succeeds writes exactly what was accepted, in order.
 */
module SleepQueue {
  import opened Prelude
  import opened PassiveInput
  import opened SleepModel
  import opened SleepRuns

  /** The chunks of what was offered that fit a queue of 64 KiB, one after the other. */
  function Fitting(offered: seq<Chunk>): seq<Chunk> {
    if offered == [] then []
    else
      var kept, last := Fitting(offered[..|offered| - 1]), offered[|offered| - 1];
      if Total(kept) + |last| <= 65536 then kept + [last] else kept
  }

  lemma TotalSnoc(chunks: seq<Chunk>, last: Chunk)
    ensures Total(chunks + [last]) == Total(chunks) + |last|
  {
    assert (chunks + [last])[..|chunks|] == chunks;
  }

  lemma FittingSnoc(offered: seq<Chunk>, last: Chunk)
    ensures Fitting(offered + [last])
         == if Total(Fitting(offered)) + |last| <= 65536 then Fitting(offered) + [last] else Fitting(offered)
  {
    assert (offered + [last])[..|offered|] == offered;
  }

  /** The books of an active record: the queue is what fitted, and nothing offered goes uncounted. */
  predicate Balanced(p: Pane, offered: seq<Chunk>) {
    Active(p) ==>
      var r := p.record.value;
      && r.queue == Fitting(offered)
      && r.queuedBytes == Total(r.queue) <= 65536
      && r.queuedBytes + r.dropped == Total(offered)
  }

  lemma OfferKeepsBalance(s: State, data: Chunk)
    requires Active(s.pane) && Balanced(s.pane, s.log.offered)
    ensures Balanced(Offer(s, data).pane, Offer(s, data).log.offered)
  {
    TotalSnoc(s.log.offered, data);
    TotalSnoc(s.pane.record.value.queue, data);
    FittingSnoc(s.log.offered, data);
  }

  lemma WriteKeepsBalance(s: State, who: Writer, data: Chunk)
    requires Balanced(s.pane, s.log.offered)
    ensures Balanced(Write(s, who, data).pane, Write(s, who, data).log.offered)
  {
    if Active(s.pane) {
      OfferKeepsBalance(s, data);
    }
  }

  lemma StepKeepsBalance(s: State, ev: Event)
    requires Balanced(s.pane, s.log.offered)
    ensures Balanced(Step(s, ev).pane, Step(s, ev).log.offered)
  {
    hide Write, IsPassive;
    if ev.Arrive? {
      WriteKeepsBalance(s, Viewer, ev.data);
    } else if ev.FlushNext? && Flushes(s, ev.key) && s.tasks.wakes[ev.key].rest != [] {
      var rest := s.tasks.wakes[ev.key].rest;
      WriteKeepsBalance(s.(tasks := s.tasks.(wakes := s.tasks.wakes[ev.key := Flushing(rest[1..])])), Wake(ev.key), rest[0]);
    }
  }

  /** Over every run, serialized or not: accepted and dropped bytes are all the bytes that were offered. */
  lemma {:induction false} RunIsBalanced(saved: Saved, events: seq<Event>)
    ensures var s := Run(Restored(saved), events); Balanced(s.pane, s.log.offered)
  {
    hide Step, Balanced;
    if events == [] {
      RestoredIsBalanced(saved);
    } else {
      RunIsBalanced(saved, events[..|events| - 1]);
      StepKeepsBalance(Run(Restored(saved), events[..|events| - 1]), events[|events| - 1]);
    }
  }

  lemma RestoredIsBalanced(saved: Saved)
    ensures Balanced(Restored(saved).pane, Restored(saved).log.offered)
  {
  }

  // ---- One wake per record ----------------------------------------------------------------------

  function WrittenBy(key: nat, pty: seq<Written>): seq<Chunk> {
    if pty == [] then []
    else
      var front, last := WrittenBy(key, pty[..|pty| - 1]), pty[|pty| - 1];
      if last.who == Wake(key) then front + [last.data] else front
  }

  lemma WrittenBySnoc(key: nat, pty: seq<Written>, last: Written)
    ensures WrittenBy(key, pty + [last])
         == if last.who == Wake(key) then WrittenBy(key, pty) + [last.data] else WrittenBy(key, pty)
  {
    assert (pty + [last])[..|pty|] == pty;
  }

  /** The writes that a wake tried, with their fates. */
  function TriedBy(key: nat, tried: seq<Tried>): seq<Tried> {
    if tried == [] then []
    else
      var front, last := TriedBy(key, tried[..|tried| - 1]), tried[|tried| - 1];
      if last.who == Wake(key) then front + [last] else front
  }

  function Datas(tried: seq<Tried>): seq<Chunk> {
    if tried == [] then [] else Datas(tried[..|tried| - 1]) + [tried[|tried| - 1].data]
  }

  function ReachedOf(tried: seq<Tried>): seq<Chunk> {
    if tried == [] then []
    else
      var front, last := ReachedOf(tried[..|tried| - 1]), tried[|tried| - 1];
      if last.fate == Reached then front + [last.data] else front
  }

  lemma TriedBySnoc(key: nat, tried: seq<Tried>, last: Tried)
    ensures TriedBy(key, tried + [last])
         == if last.who == Wake(key) then TriedBy(key, tried) + [last] else TriedBy(key, tried)
  {
    assert (tried + [last])[..|tried|] == tried;
  }

  lemma SnocTried(tried: seq<Tried>, last: Tried)
    ensures Datas(tried + [last]) == Datas(tried) + [last.data]
    ensures ReachedOf(tried + [last]) == if last.fate == Reached then ReachedOf(tried) + [last.data] else ReachedOf(tried)
  {
    assert (tried + [last])[..|tried|] == tried;
  }

  lemma WriteTries(s: State, who: Writer, data: Chunk)
    ensures Write(s, who, data).log.tried == s.log.tried + [Tried(who, data, FateOf(s.pane, data))]
    ensures FateOf(s.pane, data) == Reached <==> Write(s, who, data).log.pty == s.log.pty + [Written(who, data)]
    ensures FateOf(s.pane, data) != Reached ==> Write(s, who, data).log.pty == s.log.pty
  {
  }

  /** Written chunks are those tried that reached the PTY. */
  predicate PtyAgrees(s: State, key: nat) {
    WrittenBy(key, s.log.pty) == ReachedOf(TriedBy(key, s.log.tried))
  }

  lemma WriteAgrees(s: State, who: Writer, data: Chunk, key: nat)
    requires PtyAgrees(s, key)
    ensures PtyAgrees(Write(s, who, data), key)
  {
    hide Write, FateOf, WrittenBy, TriedBy, ReachedOf;
    WriteTries(s, who, data);
    var tried := Tried(who, data, FateOf(s.pane, data));
    TriedBySnoc(key, s.log.tried, tried);
    SnocTried(TriedBy(key, s.log.tried), tried);
    WrittenBySnoc(key, s.log.pty, Written(who, data));
  }

  lemma StepAgrees(s: State, ev: Event, key: nat)
    requires PtyAgrees(s, key)
    ensures PtyAgrees(Step(s, ev), key)
  {
    hide Write, WrittenBy, TriedBy, ReachedOf;
    if ev.Arrive? {
      WriteAgrees(s, Viewer, ev.data, key);
    } else if ev.FlushNext? && Flushes(s, ev.key) && s.tasks.wakes[ev.key].rest != [] {
      var rest := s.tasks.wakes[ev.key].rest;
      WriteAgrees(s.(tasks := s.tasks.(wakes := s.tasks.wakes[ev.key := Flushing(rest[1..])])), Wake(ev.key), rest[0], key);
    }
  }

  lemma {:induction false} RunAgrees(s: State, events: seq<Event>, key: nat)
    requires PtyAgrees(s, key)
    ensures PtyAgrees(Run(s, events), key)
  {
    hide Step, PtyAgrees;
    if events != [] {
      RunAgrees(s, events[..|events| - 1], key);
      StepAgrees(Run(s, events[..|events| - 1]), events[|events| - 1], key);
    }
  }

  predicate KeysGrow(s: State) {
    && (forall i :: 0 <= i < |s.log.started| ==> s.log.started[i] < s.log.next)
    && (s.pane.record.Some? ==> s.pane.record.value.key < s.log.next)
    && (s.pane.record.Some? && s.pane.record.value.phase == Sleeping ==> s.pane.record.value.key !in s.log.started)
    && (forall k :: k in s.tasks.wakes ==> k in s.log.started)
  }

  predicate StartedOnce(s: State) {
    forall i, j :: 0 <= i < j < |s.log.started| ==> s.log.started[i] != s.log.started[j]
  }

  /** A wake tries no write before its agent is up. */
  ghost predicate SilentBefore(s: State) {
    forall k: nat :: k !in s.log.started || Waits(s, k) ==> TriedBy(k, s.log.tried) == []
  }

  ghost predicate Orderly(s: State) {
    KeysGrow(s) && StartedOnce(s) && SilentBefore(s)
  }

  lemma StartWakeIsOrderly(s: State)
    requires Orderly(s) && s.pane.record.Some? && s.pane.record.value.phase == Sleeping
    ensures Orderly(StartWake(s))
  {
    var key := s.pane.record.value.key;
    assert key !in s.log.started;
    assert TriedBy(key, s.log.tried) == [];
    forall k: nat | k !in StartWake(s).log.started || Waits(StartWake(s), k) ensures TriedBy(k, s.log.tried) == [] {
      assert k !in s.log.started || Waits(s, k) || k == key by {
        if k in s.log.started && k != key {
          assert k in s.log.started + [key];
        }
      }
    }
  }

  lemma NotedIsOrderly(s: State, who: Writer, data: Chunk)
    requires Orderly(s) && (who.Wake? ==> Flushes(s, who.key))
    ensures Orderly(Noted(s, who, data))
  {
    hide TriedBy, FateOf;
    var tried := Tried(who, data, FateOf(s.pane, data));
    forall k: nat | k !in s.log.started || Waits(s, k) ensures TriedBy(k, s.log.tried + [tried]) == [] {
      TriedBySnoc(k, s.log.tried, tried);
      if who == Wake(k) {
        FlushingIsNotWaiting(s, k);
      }
    }
  }

  lemma FlushingIsNotWaiting(s: State, key: nat)
    requires KeysGrow(s) && Flushes(s, key)
    ensures key in s.log.started && !Waits(s, key)
  {
  }

  lemma OfferIsOrderly(s: State, data: Chunk)
    requires Orderly(s) && s.pane.record.Some?
    ensures Orderly(Offer(s, data))
  {
    hide TriedBy;
    assert forall k :: Waits(Offer(s, data), k) <==> Waits(s, k);
  }

  lemma WriteIsOrderly(s: State, who: Writer, data: Chunk)
    requires Orderly(s)
    requires who.Wake? ==> Flushes(s, who.key)
    ensures Orderly(Write(s, who, data))
  {
    hide TriedBy, Orderly;
    var noted := Noted(s, who, data);
    NotedIsOrderly(s, who, data);
    if s.pane.dead {
    } else if s.pane.gate && Active(s.pane) {
      if !IsPassive(data) {
        OfferIsOrderly(noted, data);
        if s.pane.record.value.phase == Sleeping {
          StartWakeIsOrderly(Offer(noted, data));
        }
      }
    } else {
      PtyIsNoMatter(noted, noted.log.pty + [Written(who, data)]);
    }
  }

  lemma PtyIsNoMatter(s: State, pty: seq<Written>)
    requires Orderly(s)
    ensures Orderly(s.(log := s.log.(pty := pty)))
  {
    hide TriedBy;
    var after := s.(log := s.log.(pty := pty));
    assert forall k :: Waits(after, k) <==> Waits(s, k);
  }

  lemma QuietIsOrderly(s: State, after: State)
    requires Orderly(s) && KeysGrow(after)
    requires after.log.started == s.log.started && after.log.tried == s.log.tried
    requires forall k :: Waits(after, k) ==> Waits(s, k)
    ensures Orderly(after)
  {
  }

  lemma WakeReadyIsOrderly(s: State, key: nat, ok: bool)
    requires Orderly(s) && Waits(s, key)
    ensures Orderly(OnWakeReady(s, key, ok))
  {
    hide TriedBy, SilentBefore, StartedOnce;
    QuietIsOrderly(s, OnWakeReady(s, key, ok));
  }

  lemma StepIsOrderly(s: State, ev: Event)
    requires Orderly(s)
    ensures Orderly(Step(s, ev))
  {
    hide Write, IsPassive, TriedBy, SilentBefore, StartedOnce, OnWakeReady, OnFlushNext;
    if ev.Arrive? {
      WriteIsOrderly(s, Viewer, ev.data);
    } else if ev.WakeCall? {
      if CanWake(s.pane) {
        StartWakeIsOrderly(s);
      }
    } else if ev.FlushNext? {
      if Flushes(s, ev.key) {
        FlushIsOrderly(s, ev.key);
      }
    } else if ev.WakeReady? {
      if Waits(s, ev.key) {
        WakeReadyIsOrderly(s, ev.key, ev.ok);
      }
    } else {
      QuietIsOrderly(s, Step(s, ev));
    }
  }

  lemma FlushIsOrderly(s: State, key: nat)
    requires Orderly(s) && Flushes(s, key)
    ensures Orderly(OnFlushNext(s, key))
  {
    hide Write, TriedBy, SilentBefore, StartedOnce;
    var rest := s.tasks.wakes[key].rest;
    if rest != [] {
      OrderlyTasks(s, key, Flushing(rest[1..]));
      WriteIsOrderly(s.(tasks := s.tasks.(wakes := s.tasks.wakes[key := Flushing(rest[1..])])), Wake(key), rest[0]);
    } else {
      QuietIsOrderly(s, OnFlushNext(s, key));
    }
  }

  /** Over every run, no record starts two wakes. */
  lemma {:induction false} RunIsOrderly(saved: Saved, events: seq<Event>)
    ensures Orderly(Run(Restored(saved), events))
  {
    hide Step, Orderly;
    if events == [] {
      RestoredIsOrderly(saved);
    } else {
      RunIsOrderly(saved, events[..|events| - 1]);
      StepIsOrderly(Run(Restored(saved), events[..|events| - 1]), events[|events| - 1]);
    }
  }

  lemma RestoredIsOrderly(saved: Saved)
    ensures Orderly(Restored(saved))
  {
  }

  lemma OneWakePerRecord(saved: Saved, events: seq<Event>, i: nat, j: nat)
    requires i < j < |Run(Restored(saved), events).log.started|
    ensures Run(Restored(saved), events).log.started[i] != Run(Restored(saved), events).log.started[j]
  {
    RunIsOrderly(saved, events);
  }

  // ---- Writing the queue ------------------------------------------------------------------------

  /** No new gate goes in and the session lives. */
  predicate Calm(events: seq<Event>) {
    forall i :: 0 <= i < |events| ==> !events[i].SleepInstalls? && !events[i].Ends?
  }

  /** What the wake has yet to write. */
  function Remaining(s: State, key: nat): seq<Chunk>
    requires key in s.tasks.wakes ==> s.tasks.wakes[key].Flushing?
  {
    if key in s.tasks.wakes then s.tasks.wakes[key].rest else []
  }

  predicate Open(s: State, key: nat) {
    && s.pane.record.None? && !s.pane.dead
    && (key in s.tasks.wakes ==> s.tasks.wakes[key].Flushing?)
  }

  lemma FlushStep(s: State, key: nat, ev: Event)
    requires Open(s, key) && !ev.SleepInstalls? && !ev.Ends?
    ensures Open(Step(s, ev), key)
    ensures WrittenBy(key, Step(s, ev).log.pty) + Remaining(Step(s, ev), key)
         == WrittenBy(key, s.log.pty) + Remaining(s, key)
  {
    hide WrittenBy;
    if ev.Arrive? {
      WrittenBySnoc(key, s.log.pty, Written(Viewer, ev.data));
    } else if ev.FlushNext? && Flushes(s, ev.key) {
      var rest := s.tasks.wakes[ev.key].rest;
      if rest != [] {
        WrittenBySnoc(key, s.log.pty, Written(Wake(ev.key), rest[0]));
        if ev.key == key {
          Associate(WrittenBy(key, s.log.pty), [rest[0]], rest[1..]);
          assert [rest[0]] + rest[1..] == rest;
        }
      }
    }
  }

  lemma {:induction false} FlushRun(s: State, key: nat, events: seq<Event>)
    requires Open(s, key) && Calm(events)
    ensures Open(Run(s, events), key)
    ensures WrittenBy(key, Run(s, events).log.pty) + Remaining(Run(s, events), key)
         == WrittenBy(key, s.log.pty) + Remaining(s, key)
  {
    hide Step, WrittenBy;
    if events != [] {
      FlushRun(s, key, events[..|events| - 1]);
      FlushStep(Run(s, events[..|events| - 1]), key, events[|events| - 1]);
    }
  }

  lemma NothingTried(saved: Saved, events: seq<Event>, key: nat)
    requires Waits(Run(Restored(saved), events), key)
    ensures TriedBy(key, Run(Restored(saved), events).log.tried) == []
    ensures PtyAgrees(Restored(saved), key)
  {
    RunIsOrderly(saved, events);
  }

  lemma NothingReached(s: State, key: nat)
    requires PtyAgrees(s, key) && TriedBy(key, s.log.tried) == []
    ensures WrittenBy(key, s.log.pty) == []
  {
  }

  /**
   * From the moment a wake hears that its agent is up until no new gate goes in, what it has written and
   * what it has left are the accepted chunks in arrival order; when it is through, it has written them all.
   */
  lemma WakeWritesTheQueue(saved: Saved, events: seq<Event>, key: nat, later: seq<Event>)
    requires var s := Run(Restored(saved), events); Waits(s, key) && Active(s.pane) && !s.pane.dead
    requires Calm(later)
    ensures
      var s := Run(Restored(saved), events);
      var t := Run(Step(s, WakeReady(key, true)), later);
      && Open(t, key)
      && WrittenBy(key, t.log.pty) + Remaining(t, key) == Fitting(s.log.offered)
      && (key !in t.tasks.wakes ==> WrittenBy(key, t.log.pty) == Fitting(s.log.offered))
  {
    hide Run, WrittenBy, Fitting;
    var s := Run(Restored(saved), events);
    RunIsBalanced(saved, events);
    RunIsOrderly(saved, events);
    var up := Step(s, WakeReady(key, true));
    FlushRun(up, key, later);
    NothingTried(saved, events, key);
    RunAgrees(Restored(saved), events, key);
    assert WrittenBy(key, s.log.pty) == [] by { NothingReached(s, key); }
    assert [] + Fitting(s.log.offered) == Fitting(s.log.offered);
  }

  // ---- Whatever happens meanwhile ---------------------------------------------------------------

  /** What a wake has not written yet. */
  function LeftOf(s: State, key: nat): seq<Chunk> {
    if Flushes(s, key) then s.tasks.wakes[key].rest else []
  }

  /** The wake was started and has stopped waiting. */
  predicate Served(s: State, key: nat) {
    key in s.log.started && !Waits(s, key)
  }

  /** A chunk that a gate takes is offered to the record behind that gate. */
  lemma TakenIsOffered(s: State, who: Writer, data: Chunk)
    requires FateOf(s.pane, data) == Taken
    ensures Active(s.pane) && Write(s, who, data).log.offered == s.log.offered + [data]
  {
  }

  /** One flush step moves the first chunk left over to those tried. */
  lemma FlushTries(s: State, key: nat)
    requires Flushes(s, key) && s.tasks.wakes[key].rest != []
    ensures
      var rest, after := s.tasks.wakes[key].rest, OnFlushNext(s, key);
      && after.log.tried == s.log.tried + [Tried(Wake(key), rest[0], FateOf(s.pane, rest[0]))]
  {
    hide Write;
    var rest := s.tasks.wakes[key].rest;
    var before := s.(tasks := s.tasks.(wakes := s.tasks.wakes[key := Flushing(rest[1..])]));
    WriteTries(before, Wake(key), rest[0]);
  }

  /** A write can start a wake, but of no record that has had one. */
  lemma WriteSparesPast(s: State, who: Writer, data: Chunk, key: nat)
    requires Orderly(s) && Served(s, key)
    ensures Served(Write(s, who, data), key) && LeftOf(Write(s, who, data), key) == LeftOf(s, key)
  {
    hide WrittenBy;
  }

  lemma OrderlyTasks(s: State, key: nat, task: WakeTask)
    requires Orderly(s) && Flushes(s, key) && task.Flushing?
    ensures Orderly(s.(tasks := s.tasks.(wakes := s.tasks.wakes[key := task])))
  {
    hide WrittenBy;
    var after := s.(tasks := s.tasks.(wakes := s.tasks.wakes[key := task]));
    QuietIsOrderly(s, after);
  }

  lemma FlushMovesOn(s: State, key: nat, other: nat)
    requires Orderly(s) && Served(s, key) && Flushes(s, other)
    ensures Served(OnFlushNext(s, other), key)
    ensures Datas(TriedBy(key, OnFlushNext(s, other).log.tried)) + LeftOf(OnFlushNext(s, other), key)
         == Datas(TriedBy(key, s.log.tried)) + LeftOf(s, key)
  {
    hide Write, WrittenBy, TriedBy, Datas, FateOf, Orderly;
    var rest := s.tasks.wakes[other].rest;
    if rest != [] {
      var before := s.(tasks := s.tasks.(wakes := s.tasks.wakes[other := Flushing(rest[1..])]));
      OrderlyTasks(s, other, Flushing(rest[1..]));
      WriteSparesPast(before, Wake(other), rest[0], key);
      FlushTries(s, other);
      var tried := Tried(Wake(other), rest[0], FateOf(s.pane, rest[0]));
      TriedBySnoc(key, s.log.tried, tried);
      if other == key {
        SnocTried(TriedBy(key, s.log.tried), tried);
        Associate(Datas(TriedBy(key, s.log.tried)), [rest[0]], rest[1..]);
        assert [rest[0]] + rest[1..] == rest;
      }
    }
  }

  lemma StepMovesOn(s: State, ev: Event, key: nat)
    requires Orderly(s) && Served(s, key)
    ensures Served(Step(s, ev), key)
    ensures Datas(TriedBy(key, Step(s, ev).log.tried)) + LeftOf(Step(s, ev), key)
         == Datas(TriedBy(key, s.log.tried)) + LeftOf(s, key)
  {
    hide Write, WrittenBy, TriedBy, Datas, FateOf, SilentBefore, StartedOnce;
    if ev.Arrive? {
      WriteTries(s, Viewer, ev.data);
      WriteSparesPast(s, Viewer, ev.data, key);
      TriedBySnoc(key, s.log.tried, Tried(Viewer, ev.data, FateOf(s.pane, ev.data)));
    } else if ev.FlushNext? && Flushes(s, ev.key) {
      FlushMovesOn(s, key, ev.key);
    }
  }

  lemma {:induction false} RunMovesOn(s: State, events: seq<Event>, key: nat)
    requires Orderly(s) && Served(s, key)
    ensures Orderly(Run(s, events)) && Served(Run(s, events), key)
    ensures Datas(TriedBy(key, Run(s, events).log.tried)) + LeftOf(Run(s, events), key)
         == Datas(TriedBy(key, s.log.tried)) + LeftOf(s, key)
  {
    hide Step, Orderly, TriedBy, Datas, LeftOf, Served;
    if events != [] {
      var before := Run(s, events[..|events| - 1]);
      RunMovesOn(s, events[..|events| - 1], key);
      StepIsOrderly(before, events[|events| - 1]);
      StepMovesOn(before, events[|events| - 1], key);
    }
  }

  lemma NoneIsNothing()
    ensures Datas([]) == []
  {
  }

  /**
   * Whatever happens after a wake hears that its agent is up, what it has handed on and what it has left are
   * the accepted chunks in arrival order. What it handed on reached the PTY, was offered to the record of a
   * newer gate, or fell to a dead session; nothing is dropped on the way and nothing written twice.
   */
  lemma WakeHandsOverTheQueue(saved: Saved, events: seq<Event>, key: nat, later: seq<Event>)
    requires var s := Run(Restored(saved), events); Waits(s, key) && Active(s.pane)
    ensures
      var s := Run(Restored(saved), events);
      var t := Run(Step(s, WakeReady(key, true)), later);
      && Datas(TriedBy(key, t.log.tried)) + LeftOf(t, key) == Fitting(s.log.offered)
      && (key !in t.tasks.wakes ==> Datas(TriedBy(key, t.log.tried)) == Fitting(s.log.offered))
      && WrittenBy(key, t.log.pty) == ReachedOf(TriedBy(key, t.log.tried))
  {
    hide Run, WrittenBy, Fitting, TriedBy, Datas, ReachedOf;
    var s := Run(Restored(saved), events);
    RunIsBalanced(saved, events);
    RunIsOrderly(saved, events);
    var up := Step(s, WakeReady(key, true));
    StepIsOrderly(s, WakeReady(key, true));
    NothingTried(saved, events, key);
    NoneIsNothing();
    RunAgrees(Restored(saved), events, key);
    StepAgrees(s, WakeReady(key, true), key);
    RunMovesOn(up, later, key);
    RunAgrees(up, later, key);
    assert [] + Fitting(s.log.offered) == Fitting(s.log.offered);
  }
}
