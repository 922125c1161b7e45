/**
 * A condition the callers can see (packages/server/src/agent-sleep.ts:446-479): as long as no call of sleep is
 * made while another is under way, the gate invariant holds over every run.
 */
module SleepSerial {
  import opened Prelude
  import opened PassiveInput
  import opened SleepModel
  import opened SleepProofs
  import opened SleepRuns

  /** A call of sleep is made only when none is under way. */
  predicate OneAtATime(s: State, ev: Event) {
    ev.SleepCall? ==> s.tasks.sleeps == map[]
  }

  ghost predicate SerialRun(s: State, events: seq<Event>) {
    events != [] ==>
      SerialRun(s, events[..|events| - 1]) && OneAtATime(Run(s, events[..|events| - 1]), events[|events| - 1])
  }

  /** One call at most, and until it acts there is no record and nothing in flight. */
  predicate Alone(s: State) {
    && (forall a, b :: a in s.tasks.sleeps && b in s.tasks.sleeps ==> a == b)
    && (forall a :: a in s.tasks.sleeps && s.tasks.sleeps[a] == Admitted ==>
          s.pane.record.None? && !s.tasks.inFlight)
  }

  lemma WriteStaysAlone(s: State, who: Writer, data: Chunk)
    requires Alone(s)
    ensures Alone(Write(s, who, data))
  {
  }

  lemma StepStaysAlone(s: State, ev: Event)
    requires Alone(s) && OneAtATime(s, ev)
    ensures Alone(Step(s, ev))
  {
    hide Write;
    if ev.Arrive? {
      WriteStaysAlone(s, Viewer, ev.data);
    } else if ev.FlushNext? && Flushes(s, ev.key) && s.tasks.wakes[ev.key].rest != [] {
      var rest := s.tasks.wakes[ev.key].rest;
      WriteStaysAlone(s.(tasks := s.tasks.(wakes := s.tasks.wakes[ev.key := Flushing(rest[1..])])), Wake(ev.key), rest[0]);
    }
  }

  lemma {:induction false} SerialIsLawful(s: State, events: seq<Event>)
    requires Alone(s) && SerialRun(s, events)
    ensures Alone(Run(s, events)) && LawfulRun(s, events)
  {
    hide Step;
    if events != [] {
      SerialIsLawful(s, events[..|events| - 1]);
      StepStaysAlone(Run(s, events[..|events| - 1]), events[|events| - 1]);
    }
  }

  /** With one call of sleep at a time, a sleeping or waking pane is gated and frozen and no input gets through. */
  lemma SerialSleepersAreGated(saved: Saved, events: seq<Event>, data: Chunk)
    requires SerialRun(Restored(saved), events)
    ensures
      var s := Run(Restored(saved), events);
      Active(s.pane) ==> s.pane.gate && s.pane.frozen && Step(s, Arrive(data)).log.pty == s.log.pty
  {
    hide Run, Step, LawfulRun, SerialRun;
    SerialIsLawful(Restored(saved), events);
    SleepersAreGated(saved, events, data);
  }
}
