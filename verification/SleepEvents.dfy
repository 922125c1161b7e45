/**
 * What becomes of a pane, event by event (packages/server/src/agent-sleep.ts:434-585, 634-664): who starts and
 * who ends a sleep, when a wake starts, and what a failure leaves.
 */
module SleepEvents {
  import opened Prelude
  import opened PassiveInput
  import opened SleepModel
  import opened SleepProofs
  import opened SleepQueue

  // ---- Falling asleep ---------------------------------------------------------------------------

  /** A call of sleep gets in exactly on a live pane that is not asleep and has no sleep in flight; a failure mark goes either way. */
  lemma SleepGetsInIff(s: State, id: nat)
    requires id !in s.tasks.sleeps
    ensures
      var after := Step(s, SleepCall(id));
      && (At(after, id, Admitted) <==> !Active(s.pane) && !s.tasks.inFlight && !s.pane.dead)
      && (id in after.tasks.sleeps ==> At(after, id, Admitted))
      && after.pane == (if Active(s.pane) then s.pane else s.pane.(record := None))
      && after.log == s.log && after.tasks.wakes == s.tasks.wakes
  {
  }

  /** From being let in to being gated: screen first, then record and gate, with an empty queue and a key of its own. */
  lemma SleepTakesHold(s: State, id: nat)
    requires At(s, id, Admitted)
    ensures
      var acted := Step(s, SleepActs(id));
      var gated := Step(acted, SleepInstalls(id));
      && acted.pane == s.pane.(frozen := true) && acted.tasks.inFlight
      && Active(gated.pane) && gated.pane.gate && gated.pane.frozen && At(gated, id, Installed)
      && gated.pane.record.value == Record(s.log.next, Sleeping, [], 0, 0, false)
      && gated.log.next == s.log.next + 1 && gated.log.pty == s.log.pty
  {
  }

  /** A refused call leaves no trace; one that gives up leaves a live pane; either way the next may come in. */
  lemma SleepEnds(s: State, id: nat)
    ensures At(s, id, Admitted) ==>
      var after := Step(s, SleepRefused(id));
      after.pane == s.pane && id !in after.tasks.sleeps && after.tasks.inFlight == s.tasks.inFlight
    ensures At(s, id, Installed) ==>
      var undone := Step(s, SleepGivesUp(id));
      var after := Step(undone, SleepReturns(id));
      && after.pane == s.pane.(record := None, gate := false, frozen := false)
      && id !in after.tasks.sleeps && !after.tasks.inFlight
    ensures At(s, id, Installed) ==>
      var after := Step(s, SleepReturns(id));
      after.pane == s.pane && id !in after.tasks.sleeps && !after.tasks.inFlight
  {
  }

  // ---- Waking -----------------------------------------------------------------------------------

  /** A wake starts exactly for a sleeper of a live pane, by a call or by real input; it waits under the record's key. */
  lemma WakeStartsIff(s: State, ev: Event)
    requires ev == WakeCall || (ev.Arrive? && s.pane.gate)
    ensures
      var after := Step(s, ev);
      var starts := s.pane.record.Some? && s.pane.record.value.phase == Sleeping && !s.pane.dead
                    && (ev.Arrive? ==> !IsPassive(ev.data));
      && (starts ==>
            && after.pane.record.Some? && after.pane.record.value.phase == Waking && !after.pane.record.value.started
            && after.pane.record.value.key == s.pane.record.value.key && Waits(after, s.pane.record.value.key)
            && after.log.started == s.log.started + [s.pane.record.value.key])
      && (!starts ==>
            && after.tasks == s.tasks && after.log.started == s.log.started
            && (after.pane.record.Some? && after.pane.record.value.phase == Waking <==>
                s.pane.record.Some? && s.pane.record.value.phase == Waking))
  {
  }

  /** The wake hears of the agent exactly while it waits; a failure that the user mended is forgotten; a sleeper sleeps on. */
  lemma AgentStartIsNoted(s: State)
    requires s.pane.record.Some?
    ensures
      var was, after := s.pane.record.value, Step(s, AgentStart);
      && after == s.(pane := s.pane.(record := after.pane.record))
      && after.pane.record == match was.phase
                              case Sleeping => Some(was)
                              case Waking => Some(Record(was.key, Waking, was.queue, was.queuedBytes, was.dropped, true))
                              case Failed => None
  {
  }

  /**
   * A wake that fails leaves a mark, a live pane and an empty queue: what was accepted for the agent is gone
   * and is never written. One that succeeds leaves neither mark nor gate, and the queue in its hands.
   */
  lemma WakeEndsEitherWay(s: State, key: nat, ok: bool)
    requires Waits(s, key)
    ensures
      var after := Step(s, WakeReady(key, ok));
      && after.log == s.log
      && match s.pane.record
         case None => after.pane == s.pane && key !in after.tasks.wakes
         case Some(was) =>
           && !after.pane.gate && !after.pane.frozen && !Active(after.pane)
           && if ok then after.pane.record.None? && after.tasks.wakes[key := Waiting] == s.tasks.wakes[key := Waiting]
                         && Flushes(after, key) && after.tasks.wakes[key].rest == was.queue
              else key !in after.tasks.wakes
                   && after.pane.record == Some(Record(was.key, Failed, [], 0, was.dropped, was.started))
  {
  }

  /** A wake that has written its queue is over, and changes nothing any more. */
  lemma EmptyFlushEnds(s: State, key: nat)
    requires Flushes(s, key) && s.tasks.wakes[key].rest == []
    ensures
      var after := Step(s, FlushNext(key));
      && key !in after.tasks.wakes && after.pane == s.pane && after.log == s.log && after.tasks.sleeps == s.tasks.sleeps
      && forall other :: other != key && other in s.tasks.wakes ==>
           other in after.tasks.wakes && after.tasks.wakes[other] == s.tasks.wakes[other]
  {
  }

  /** Only a failure can be dismissed. */
  lemma DismissalsIff(s: State)
    ensures
      var after := Step(s, Dismiss);
      && after == s.(pane := s.pane.(record := after.pane.record))
      && after.pane.record == if s.pane.record.Some? && s.pane.record.value.phase == Failed then None else s.pane.record
  {
  }

  // ---- Input ------------------------------------------------------------------------------------

  /** Input over a gated sleeper: reports are swallowed, the rest is queued while 64 KiB hold it and counted otherwise. */
  lemma GatedInput(s: State, data: Chunk)
    requires !s.pane.dead && s.pane.gate && Active(s.pane)
    ensures
      var was, after := s.pane.record.value, Step(s, Arrive(data));
      && after.log.pty == s.log.pty && Active(after.pane)
      && var r := after.pane.record.value;
         if IsPassive(data) then r == was
         else if was.queuedBytes + |data| <= 65536 then
           r.queue == was.queue + [data] && r.queuedBytes == was.queuedBytes + |data| && r.dropped == was.dropped
         else r.queue == was.queue && r.queuedBytes == was.queuedBytes && r.dropped == was.dropped + |data|
  {
  }

  /** Over anyone else it reaches the PTY of a live pane, and nothing of a dead one. */
  lemma PlainInput(s: State, data: Chunk)
    requires s.pane.dead || !s.pane.gate || !Active(s.pane)
    ensures
      var after := Step(s, Arrive(data));
      && after.pane == s.pane && after.tasks == s.tasks
      && after.log.pty == if s.pane.dead then s.log.pty else s.log.pty + [Written(Viewer, data)]
  {
  }

  // ---- The ends ---------------------------------------------------------------------------------

  /** Once the session has ended no sleep gets in, no wake starts and nothing is written, whatever happens. */
  lemma {:induction false} DeadStaysDead(s: State, events: seq<Event>)
    ensures
      var ended := Step(s, Ends);
      var after := Run(ended, events);
      after.pane.dead && after.log.pty == s.log.pty && after.log.started == s.log.started
  {
    if events != [] {
      DeadStaysDead(s, events[..|events| - 1]);
      DeadStep(Run(Step(s, Ends), events[..|events| - 1]), events[|events| - 1]);
    }
  }

  lemma DeadStep(s: State, ev: Event)
    requires s.pane.dead
    ensures Step(s, ev).pane.dead && Step(s, ev).log.pty == s.log.pty && Step(s, ev).log.started == s.log.started
  {
  }

  /** Forgetting a pane drops its record and no more. */
  lemma Forgotten(s: State)
    ensures Step(s, Forget) == s.(pane := s.pane.(record := None))
  {
  }

  /** After a restart of the server a saved sleeper is gated and frozen and can be woken, a failure is only marked. */
  lemma RestoredPanes(saved: Saved)
    ensures
      var s := Restored(saved);
      && !s.pane.dead && !s.tasks.inFlight && s.tasks.sleeps == map[] && s.tasks.wakes == map[]
      && (saved == Asleep ==> s.pane.gate && s.pane.frozen && CanWake(s.pane) && s.pane.record.value.queue == [])
      && (saved == Broken ==> !s.pane.gate && !s.pane.frozen && s.pane.record.Some? && s.pane.record.value.phase == Failed)
      && (saved == Awake ==> !s.pane.gate && !s.pane.frozen && s.pane.record.None?)
      && (s.pane.record.Some? ==> s.pane.record.value.key < s.log.next)
  {
  }
}
