/** The sleeper over whole runs (packages/server/src/agent-sleep.ts:434-664). */
module SleepRuns {
  import opened Prelude
  import opened PassiveInput
  import opened SleepModel
  import opened SleepProofs

  lemma RunSnoc(s: State, events: seq<Event>, ev: Event)
    ensures Run(s, events + [ev]) == Step(Run(s, events), ev)
  {
    assert (events + [ev])[..|events|] == events;
  }

  // ---- The gate over a run ----------------------------------------------------------------------

  ghost predicate LawfulRun(s: State, events: seq<Event>) {
    events != [] ==>
      LawfulRun(s, events[..|events| - 1]) && Lawful(Run(s, events[..|events| - 1]), events[|events| - 1])
  }

  lemma LawfulSnoc(s: State, events: seq<Event>, ev: Event)
    requires LawfulRun(s, events) && Lawful(Run(s, events), ev)
    ensures LawfulRun(s, events + [ev])
  {
    assert (events + [ev])[..|events|] == events;
  }

  lemma {:induction false} RunKeepsGuard(s: State, events: seq<Event>)
    requires Guarded(s) && LawfulRun(s, events)
    ensures Guarded(Run(s, events))
  {
    hide Guarded, Step;
    if events != [] {
      RunKeepsGuard(s, events[..|events| - 1]);
      StepKeepsGuard(Run(s, events[..|events| - 1]), events[|events| - 1]);
    }
  }

  lemma RestoredIsGuarded(saved: Saved)
    ensures Guarded(Restored(saved))
  {
  }

  /** When no sleep acts against another, a sleeping or waking pane is gated and frozen, and no input gets through. */
  lemma SleepersAreGated(saved: Saved, events: seq<Event>, data: Chunk)
    requires LawfulRun(Restored(saved), events)
    ensures
      var s := Run(Restored(saved), events);
      Active(s.pane) ==> s.pane.gate && s.pane.frozen && Step(s, Arrive(data)).log.pty == s.log.pty
  {
    hide Restored, Run, IsPassive;
    RestoredIsGuarded(saved);
    RunKeepsGuard(Restored(saved), events);
  }

  // ---- When sleep may act -----------------------------------------------------------------------

  ghost predicate StaysGated(s: State) {
    forall events :: LawfulRun(s, events) ==> Gated(Run(s, events).pane)
  }

  lemma LawfulActStaysGated(s: State, id: nat)
    requires Guarded(s) && At(s, id, Admitted) && MayAct(s)
    ensures StaysGated(Step(s, SleepActs(id)))
  {
    hide Step;
    var acted := Step(s, SleepActs(id));
    StepKeepsGuard(s, SleepActs(id));
    forall events | LawfulRun(acted, events) ensures Gated(Run(acted, events).pane) {
      RunKeepsGuard(acted, events);
    }
  }

  lemma NothingRun(s: State)
    ensures LawfulRun(s, []) && Run(s, []) == s
  {
  }

  /** One more event on a run that leads from `from` to `s`. */
  lemma Extend(from: State, s: State, events: seq<Event>, ev: Event)
    requires LawfulRun(from, events) && Run(from, events) == s && Lawful(s, ev)
    ensures LawfulRun(from, events + [ev]) && Run(from, events + [ev]) == Step(s, ev)
  {
    LawfulSnoc(from, events, ev);
    RunSnoc(from, events, ev);
  }

  lemma Broken(from: State, events: seq<Event>)
    requires LawfulRun(from, events) && !Gated(Run(from, events).pane)
    ensures !StaysGated(from)
  {
  }

  /** A waiting wake with a record to end thaws the screen, and then the late gate goes in. */
  lemma ThawThenInstall(from: State, s: State, events: seq<Event>, key: nat, id: nat)
    requires LawfulRun(from, events) && Run(from, events) == s
    requires Waits(s, key) && s.pane.record.Some? && At(s, id, Freezing)
    ensures !StaysGated(from)
  {
    hide LawfulRun, Run, StaysGated;
    Extend(from, s, events, WakeReady(key, true));
    var thawed := Step(s, WakeReady(key, true));
    Extend(from, thawed, events + [WakeReady(key, true)], SleepInstalls(id));
    Broken(from, events + [WakeReady(key, true)] + [SleepInstalls(id)]);
  }

  /** A sleeping record can be woken, and then the same happens. */
  lemma WakeThawInstall(from: State, s: State, events: seq<Event>, id: nat)
    requires LawfulRun(from, events) && Run(from, events) == s
    requires CanWake(s.pane) && At(s, id, Freezing)
    ensures !StaysGated(from)
  {
    hide LawfulRun, Run, StaysGated;
    Extend(from, s, events, WakeCall);
    ThawThenInstall(from, Step(s, WakeCall), events + [WakeCall], s.pane.record.value.key, id);
  }

  lemma OtherInstallsFirst(from: State, s: State, events: seq<Event>, other: nat, id: nat)
    requires LawfulRun(from, events) && Run(from, events) == s
    requires At(s, other, Freezing) && At(s, id, Freezing) && other != id && !s.pane.dead
    ensures !StaysGated(from)
  {
    hide LawfulRun, Run, StaysGated;
    Extend(from, s, events, SleepInstalls(other));
    WakeThawInstall(from, Step(s, SleepInstalls(other)), events + [SleepInstalls(other)], id);
  }

  lemma OtherGivesUp(from: State, s: State, events: seq<Event>, other: nat, id: nat)
    requires LawfulRun(from, events) && Run(from, events) == s
    requires At(s, other, Installed) && At(s, id, Freezing)
    ensures !StaysGated(from)
  {
    hide LawfulRun, Run, StaysGated;
    Extend(from, s, events, SleepGivesUp(other));
    Extend(from, Step(s, SleepGivesUp(other)), events + [SleepGivesUp(other)], SleepInstalls(id));
    Broken(from, events + [SleepGivesUp(other)] + [SleepInstalls(id)]);
  }

  lemma FreshId(ids: set<nat>) returns (id: nat)
    ensures forall i :: i in ids ==> i < id
  {
    if ids == {} {
      id := 0;
    } else {
      var i :| i in ids;
      var rest := FreshId(ids - {i});
      id := Max(rest, i + 1);
      forall j | j in ids ensures j < id {
        assert j != i ==> j in ids - {i};
      }
    }
  }

  /** The in-flight mark is cleared by whoever returns first, so a third call can get in. */
  lemma OtherReturns(from: State, s: State, events: seq<Event>, other: nat, id: nat)
    requires LawfulRun(from, events) && Run(from, events) == s
    requires At(s, other, Undone) && At(s, id, Freezing) && other != id
    requires !s.pane.dead && !Active(s.pane) && (s.pane.record.Some? ==> NobodyWaits(s.tasks))
    ensures !StaysGated(from)
  {
    hide LawfulRun, Run, StaysGated;
    var third := FreshId(s.tasks.sleeps.Keys);
    var e1 := events + [SleepReturns(other)];
    Extend(from, s, events, SleepReturns(other));
    var s1 := Step(s, SleepReturns(other));
    assert third !in s.tasks.sleeps;
    Extend(from, s1, e1, SleepCall(third));
    var s2 := Step(s1, SleepCall(third));
    Extend(from, s2, e1 + [SleepCall(third)], SleepActs(third));
    var s3 := Step(s2, SleepActs(third));
    OtherInstallsFirst(from, s3, e1 + [SleepCall(third)] + [SleepActs(third)], third, id);
  }

  /**
   * On a live pane, a call of sleep may act exactly when nothing else is in flight and no record or waiting
   * wake is there to interfere. The code checks this before its awaits and not again after them.
   */
  lemma ActIsSafeIff(s: State, id: nat)
    requires Guarded(s) && At(s, id, Admitted) && !s.pane.dead
    ensures StaysGated(Step(s, SleepActs(id))) <==> MayAct(s)
  {
    hide LawfulRun, Run, StaysGated;
    var acted := Step(s, SleepActs(id));
    NothingRun(acted);
    if MayAct(s) {
      LawfulActStaysGated(s, id);
    } else if s.pane.record.Some? && s.pane.record.value.phase == Sleeping {
      WakeThawInstall(acted, acted, [], id);
    } else if s.pane.record.Some? && s.pane.record.value.phase == Waking {
      ThawThenInstall(acted, acted, [], s.pane.record.value.key, id);
    } else if s.pane.record.Some? && !NobodyWaits(s.tasks) {
      var key :| key in s.tasks.wakes && s.tasks.wakes[key] == Waiting;
      ThawThenInstall(acted, acted, [], key, id);
    } else {
      var other :| Past(s.tasks, other);
      match s.tasks.sleeps[other]
      case Freezing => OtherInstallsFirst(acted, acted, [], other, id);
      case Installed => OtherGivesUp(acted, acted, [], other, id);
      case Undone => OtherReturns(acted, acted, [], other, id);
    }
  }

  /** The race from a cold start: two calls pass the checks together, and the second is left with a gate on a live screen. */
  lemma TwoSleepsRace()
    ensures
      var pane := Run(Restored(Awake), [SleepCall(0), SleepCall(1), SleepActs(0), SleepActs(1),
                                        SleepInstalls(0), SleepGivesUp(0), SleepInstalls(1)]).pane;
      Active(pane) && pane.gate && !pane.frozen
  {
    var s := Restored(Awake);
    RunSnoc(s, [], SleepCall(0));
    RunSnoc(s, [SleepCall(0)], SleepCall(1));
    var e2 := [SleepCall(0), SleepCall(1)];
    RunSnoc(s, e2, SleepActs(0));
    RunSnoc(s, e2 + [SleepActs(0)], SleepActs(1));
    var e4 := e2 + [SleepActs(0)] + [SleepActs(1)];
    RunSnoc(s, e4, SleepInstalls(0));
    RunSnoc(s, e4 + [SleepInstalls(0)], SleepGivesUp(0));
    RunSnoc(s, e4 + [SleepInstalls(0)] + [SleepGivesUp(0)], SleepInstalls(1));
    assert e4 + [SleepInstalls(0)] + [SleepGivesUp(0)] + [SleepInstalls(1)]
        == [SleepCall(0), SleepCall(1), SleepActs(0), SleepActs(1), SleepInstalls(0), SleepGivesUp(0), SleepInstalls(1)];
    assert [] + [SleepCall(0)] == [SleepCall(0)] && [SleepCall(0)] + [SleepCall(1)] == e2;
  }
}
