/** What every event keeps, and exactly when a call of sleep may act (packages/server/src/agent-sleep.ts:446-664). */
module SleepProofs {
  import opened Prelude
  import opened PassiveInput
  import opened SleepModel

  // ---- The gate ---------------------------------------------------------------------------------

  /** While an agent sleeps or wakes, the gate is in and the screen frozen. */
  predicate Gated(p: Pane) {
    Active(p) ==> p.gate && p.frozen
  }

  predicate NobodyWaits(t: Tasks) {
    forall k :: k in t.wakes ==> t.wakes[k] != Waiting
  }

  /** Nothing can thaw the screen or put another record in before the gate goes in. */
  predicate Undisturbed(s: State) {
    s.pane.frozen && (s.pane.record.None? || (s.pane.record.value.phase == Failed && NobodyWaits(s.tasks)))
  }

  predicate Past(t: Tasks, id: nat) {
    id in t.sleeps && t.sleeps[id] != Admitted
  }

  ghost predicate OneInFlight(t: Tasks) {
    && (forall a, b :: Past(t, a) && Past(t, b) ==> a == b)
    && (forall a :: Past(t, a) ==> t.inFlight)
    && (t.inFlight ==> exists a :: Past(t, a))
  }

  predicate WakingWaits(s: State) {
    s.pane.record.Some? && s.pane.record.value.phase == Waking ==> Waits(s, s.pane.record.value.key)
  }

  ghost predicate Guarded(s: State) {
    && Gated(s.pane)
    && (forall id :: At(s, id, Freezing) ==> Undisturbed(s))
    && OneInFlight(s.tasks)
    && WakingWaits(s)
  }

  /** A sleep that acts now: nobody else is past the checks, and no record or waiting wake can interfere. */
  predicate MayAct(s: State) {
    && !s.tasks.inFlight
    && (s.pane.record.None? || (s.pane.record.value.phase == Failed && NobodyWaits(s.tasks)))
  }

  predicate Lawful(s: State, ev: Event) {
    ev.SleepActs? && At(s, ev.id, Admitted) ==> MayAct(s)
  }

  lemma StartWakeKeepsGuard(s: State)
    requires Guarded(s) && s.pane.record.Some? && s.pane.record.value.phase == Sleeping
    ensures Guarded(StartWake(s))
  {
    assert StartWake(s).tasks.sleeps == s.tasks.sleeps;
    forall id | At(StartWake(s), id, Freezing) ensures Undisturbed(StartWake(s)) {
      assert At(s, id, Freezing);
    }
    OneInFlightSame(s.tasks, StartWake(s).tasks);
  }

  lemma OneInFlightSame(before: Tasks, after: Tasks)
    requires OneInFlight(before) && after.sleeps == before.sleeps && after.inFlight == before.inFlight
    ensures OneInFlight(after)
  {
    assert forall a :: Past(before, a) <==> Past(after, a);
  }

  lemma OfferKeepsGuard(s: State, data: Chunk)
    requires Guarded(s) && Active(s.pane)
    ensures Guarded(Offer(s, data))
  {
    forall id | At(Offer(s, data), id, Freezing) ensures Undisturbed(Offer(s, data)) {
      assert At(s, id, Freezing);
    }
  }

  lemma WriteKeepsGuard(s: State, who: Writer, data: Chunk)
    requires Guarded(s)
    ensures Guarded(Write(s, who, data))
  {
    var noted := Noted(s, who, data);
    SameSleepsKeepGuard(s, noted);
    if !s.pane.dead && s.pane.gate && Active(s.pane) && !IsPassive(data) {
      OfferKeepsGuard(noted, data);
      if s.pane.record.value.phase == Sleeping {
        StartWakeKeepsGuard(Offer(noted, data));
      }
    } else {
      SameSleepsKeepGuard(s, Write(s, who, data));
    }
  }

  /** Tasks and pane change, the sleeps do not. */
  lemma SameSleepsKeepGuard(before: State, after: State)
    requires Guarded(before) && Gated(after.pane) && WakingWaits(after)
    requires after.tasks.sleeps == before.tasks.sleeps && after.tasks.inFlight == before.tasks.inFlight
    requires Undisturbed(before) ==> Undisturbed(after)
    ensures Guarded(after)
  {
    OneInFlightSame(before.tasks, after.tasks);
    forall id | At(after, id, Freezing) ensures Undisturbed(after) {
      assert At(before, id, Freezing);
    }
  }

  lemma WakeEventKeepsGuard(s: State, ev: Event)
    requires Guarded(s) && (ev.WakeReady? || ev.FlushNext?)
    ensures Guarded(Step(s, ev))
  {
    match ev
    case WakeReady(key, ok) =>
      if Waits(s, key) {
        SameSleepsKeepGuard(s, OnWakeReady(s, key, ok));
      }
    case FlushNext(key) =>
      if Flushes(s, key) {
        var rest := s.tasks.wakes[key].rest;
        if rest == [] {
          SameSleepsKeepGuard(s, OnFlushNext(s, key));
        } else {
          var before := s.(tasks := s.tasks.(wakes := s.tasks.wakes[key := Flushing(rest[1..])]));
          SameSleepsKeepGuard(s, before);
          WriteKeepsGuard(before, Wake(key), rest[0]);
        }
      }
  }

  lemma SleepEventKeepsGuard(s: State, ev: Event)
    requires Guarded(s) && Lawful(s, ev)
    requires ev.SleepCall? || ev.SleepRefused? || ev.SleepActs? || ev.SleepInstalls? || ev.SleepGivesUp? || ev.SleepReturns?
    ensures Guarded(Step(s, ev))
  {
    var after := Step(s, ev);
    var id := ev.id;
    assert forall a :: a != id ==> (Past(after.tasks, a) <==> Past(s.tasks, a));
    if At(s, id, Freezing) || At(s, id, Installed) || At(s, id, Undone) {
      assert Past(s.tasks, id);
    }
    if ev.SleepActs? && At(s, id, Admitted) {
      assert Past(after.tasks, id);
    }
    OneInFlightAfter(s, ev);
    forall a | At(after, a, Freezing) ensures Undisturbed(after) {
      if a != id {
        assert At(s, a, Freezing) && Past(s.tasks, a);
      }
    }
  }

  lemma OneInFlightAfter(s: State, ev: Event)
    requires Guarded(s) && Lawful(s, ev)
    requires ev.SleepCall? || ev.SleepRefused? || ev.SleepActs? || ev.SleepInstalls? || ev.SleepGivesUp? || ev.SleepReturns?
    ensures OneInFlight(Step(s, ev).tasks)
  {
    var before, after := s.tasks, Step(s, ev).tasks;
    var id := ev.id;
    assert forall a :: a != id ==> (Past(after, a) <==> Past(before, a));
    if At(s, id, Freezing) || At(s, id, Installed) || At(s, id, Undone) {
      assert Past(before, id);
    }
    if after.inFlight {
      if before.inFlight {
        var a :| Past(before, a);
        assert Past(after, a);
      } else {
        assert Past(after, id);
      }
    }
  }

  lemma StepKeepsGuard(s: State, ev: Event)
    requires Guarded(s) && Lawful(s, ev)
    ensures Guarded(Step(s, ev))
  {
    hide Guarded, OnWakeReady, OnFlushNext;
    if ev.WakeReady? || ev.FlushNext? {
      WakeEventKeepsGuard(s, ev);
    } else if ev.Arrive? {
      WriteKeepsGuard(s, Viewer, ev.data);
    } else if ev.WakeCall? {
      if CanWake(s.pane) {
        StartWakeKeepsGuard(s);
      }
    } else if ev.AgentStart? || ev.Dismiss? || ev.Ends? || ev.Forget? {
      QuietEventKeepsGuard(s, ev);
    } else {
      SleepEventKeepsGuard(s, ev);
    }
  }

  lemma QuietEventKeepsGuard(s: State, ev: Event)
    requires Guarded(s) && (ev.AgentStart? || ev.Dismiss? || ev.Ends? || ev.Forget?)
    ensures Guarded(Step(s, ev))
  {
    SameSleepsKeepGuard(s, Step(s, ev));
  }
}
