/**
 * The sleeper's fields for one pane and the stretches of code between awaits that change them in place
 * (packages/server/src/agent-sleep.ts:363-367, 434-585, 634-664). Each stretch keeps the gate in and the
 * screen frozen over a sleeper, the queue's books, and one wake per record.
 */
module SleepLoop {
  import opened Prelude
  import opened PassiveInput
  import opened SleepModel
  import opened SleepProofs
  import opened SleepQueue

  class PaneSleeper {
    var record: Option<Record>
    var gate: bool
    var frozen: bool
    var dead: bool
    var inFlight: bool
    var sleeps: map<nat, SleepTask>
    var wakes: map<nat, WakeTask>
    var next: nat
    var pty: seq<Written>
    ghost var offered: seq<Chunk>
    ghost var started: seq<nat>
    ghost var tried: seq<Tried>

    ghost function View(): State
      reads this
    {
      State(Pane(record, gate, frozen, dead), Tasks(inFlight, sleeps, wakes), Log(next, offered, started, pty, tried))
    }

    /** Between two stretches. */
    ghost predicate Valid()
      reads this
    {
      Sound(View())
    }

    /** The record is asleep or on its way up. */
    predicate Sleeper()
      reads `record
    {
      record.Some? && record.value.phase != Failed
    }

    constructor (saved: Saved)
      ensures Valid()
      ensures Sleeper() <==> saved == Asleep
      ensures View() == Restored(saved)
    {
      record := if saved == Awake then None
                else Some(Record(0, if saved == Asleep then Sleeping else Failed, [], 0, 0, false));
      gate, frozen, dead, inFlight := saved == Asleep, saved == Asleep, false, false;
      sleeps, wakes, pty := map[], map[], [];
      next := if saved == Awake then 0 else 1;
      offered, started, tried := [], [], [];
      new;
      RestoredIsSound(saved);
    }

    method BeginWake()
      requires record.Some?
      modifies `record, `wakes, `started
      ensures View() == StartWake(old(View()))
    {
      record := Some(record.value.(phase := Waking, started := false));
      wakes := wakes[record.value.key := Waiting];
      started := started + [record.value.key];
    }

    method Accept(data: Chunk)
      requires record.Some?
      modifies `record, `offered
      ensures View() == Offer(old(View()), data)
    {
      var r := record.value;
      if r.queuedBytes + |data| <= QUEUE_MAX {
        record := Some(r.(queue := r.queue + [data], queuedBytes := r.queuedBytes + |data|));
      } else {
        record := Some(r.(dropped := r.dropped + |data|));
      }
      offered := offered + [data];
    }

    /** The closure that install puts in as the input gate. */
    method Gate(data: Chunk) returns (taken: bool)
      modifies `record, `wakes, `started, `offered
      ensures taken == Active(old(View()).pane)
      ensures View() == if taken then GateTakes(old(View()), data) else old(View())
    {
      if record.None? || record.value.phase == Failed {
        return false;
      }
      taken := true;
      if IsPassive(data) {
        return;
      }
      Accept(data);
      if record.value.phase == Sleeping {
        BeginWake();
      }
    }

    method WriteThrough(who: Writer, data: Chunk)
      modifies `record, `wakes, `started, `offered, `tried, `pty
      ensures View() == Write(old(View()), who, data)
    {
      tried := tried + [Tried(who, data, FateOf(View().pane, data))];
      if dead {
        return;
      }
      if gate {
        var taken := Gate(data);
        if taken {
          return;
        }
      }
      pty := pty + [Written(who, data)];
    }

    /** A viewer types. Over a sleeper nothing reaches the PTY, and real input starts the wake and is kept while it fits. */
    method Input(data: Chunk)
      requires Valid()
      modifies `record, `wakes, `started, `offered, `tried, `pty
      ensures Valid()
      ensures old(Sleeper()) ==> Sleeper() && pty == old(pty)
      ensures old(Sleeper()) && !dead && !IsPassive(data) ==>
        record.value.phase == Waking && record.value.queue == Fitting(old(offered) + [data])
      ensures !old(Sleeper()) && !dead ==> pty == old(pty) + [Written(Viewer, data)]
      ensures View() == Step(old(View()), Arrive(data))
    {
      StepIsSound(View(), Arrive(data));
      SleeperIsGated(View());
      if Sleeper() {
        AfterArrival(View(), data);
      }
      WriteThrough(Viewer, data);
    }

    /** The start of sleep, up to its first await. Nobody is admitted over a sleeper or a call in flight. */
    method CallSleep(id: nat) returns (admitted: bool)
      requires Valid() && id !in sleeps
      modifies `record, `sleeps
      ensures Valid()
      ensures admitted <==> id in sleeps
      ensures admitted ==> !old(Sleeper()) && !inFlight && !dead && record.None?
      ensures View() == Step(old(View()), SleepCall(id))
    {
      StepIsSound(View(), SleepCall(id));
      if record.Some? && record.value.phase == Failed {
        record := None;
      }
      if record.Some? || inFlight || dead {
        return false;
      }
      sleeps := sleeps[id := Admitted];
      admitted := true;
    }

    /** The call acts, while it may: from here to the gate nothing can thaw the screen. */
    method Act(id: nat)
      requires Valid() && At(View(), id, Admitted) && MayAct(View())
      modifies `inFlight, `frozen, `sleeps
      ensures Valid() && Undisturbed(View())
      ensures View() == Step(old(View()), SleepActs(id))
    {
      StepIsSound(View(), SleepActs(id));
      inFlight := true;
      frozen := true;
      sleeps := sleeps[id := Freezing];
    }

    /** The gate goes in over a frozen screen, with an empty queue. */
    method Install(id: nat)
      requires Valid() && At(View(), id, Freezing)
      modifies `record, `gate, `sleeps, `next, `offered
      ensures Valid()
      ensures Sleeper() && gate && frozen && record.value.queue == []
      ensures View() == Step(old(View()), SleepInstalls(id))
    {
      StepIsSound(View(), SleepInstalls(id));
      SleeperIsGated(Step(View(), SleepInstalls(id)));
      record := Some(Record(next, Sleeping, [], 0, 0, false));
      gate := true;
      sleeps := sleeps[id := SleepTask.Installed];
      next := next + 1;
      offered := [];
    }

    /** Everything is undone: the pane is as before the call. */
    method GiveUp(id: nat)
      requires Valid() && At(View(), id, SleepTask.Installed)
      modifies `record, `gate, `frozen, `sleeps
      ensures Valid()
      ensures record.None? && !gate && !frozen
      ensures View() == Step(old(View()), SleepGivesUp(id))
    {
      StepIsSound(View(), SleepGivesUp(id));
      record := None;
      gate := false;
      frozen := false;
      sleeps := sleeps[id := Undone];
    }

    /** The last of a call: no other is past its checks. */
    method Return(id: nat)
      requires Valid() && (At(View(), id, SleepTask.Installed) || At(View(), id, Undone))
      modifies `sleeps, `inFlight
      ensures Valid()
      ensures id !in sleeps && forall a :: a in sleeps ==> sleeps[a] == Admitted
      ensures View() == Step(old(View()), SleepReturns(id))
    {
      StepIsSound(View(), SleepReturns(id));
      OnlyOneWasPast(View(), id);
      sleeps := sleeps - {id};
      inFlight := false;
    }

    /** However often it is called, a record has one wake; while it waits the gate stays in. */
    method CallWake() returns (ok: bool)
      requires Valid()
      modifies `record, `wakes, `started
      ensures Valid()
      ensures ok ==> record.Some? && record.value.phase == Waking && gate && frozen && Waits(View(), record.value.key)
      ensures ok <==> old(Sleeper()) && !dead
      ensures |started| <= |old(started)| + 1 && StartedOnce(View())
      ensures View() == Step(old(View()), WakeCall)
    {
      StepIsSound(View(), WakeCall);
      SleeperIsGated(Step(View(), WakeCall));
      if record.None? || dead {
        return false;
      }
      if record.value.phase == Waking {
        return true;
      }
      if record.value.phase == Failed {
        return false;
      }
      BeginWake();
      ok := true;
    }

    /** What wake does once it knows whether the agent came up: on success it takes along exactly what was accepted. */
    method Ready(key: nat, ok: bool)
      requires Valid() && Waits(View(), key)
      modifies `record, `gate, `frozen, `wakes
      ensures Valid() && !Sleeper()
      ensures ok && old(Sleeper()) ==> Flushes(View(), key) && wakes[key].rest == Fitting(offered)
      ensures old(record).Some? ==> !gate && !frozen
      ensures View() == Step(old(View()), WakeReady(key, ok))
    {
      StepIsSound(View(), WakeReady(key, ok));
      wakes := wakes - {key};
      if record.None? {
        return;
      }
      var cur := record.value;
      gate := false;
      frozen := false;
      if !ok {
        record := Some(cur.(phase := Failed, queue := [], queuedBytes := 0));
        return;
      }
      record := None;
      wakes := wakes[key := Flushing(cur.queue)];
      assert wakes == old(wakes)[key := Flushing(cur.queue)];
    }

    /** One turn of the loop that writes the queue: what is handed on and what is left stay the same chunks in order. */
    method FlushOne(key: nat)
      requires Valid() && Flushes(View(), key)
      modifies `record, `wakes, `started, `offered, `tried, `pty
      ensures Valid()
      ensures Datas(TriedBy(key, tried)) + LeftOf(View(), key)
           == Datas(TriedBy(key, old(tried))) + LeftOf(old(View()), key)
      ensures old(Sleeper()) ==> Sleeper() && pty == old(pty)
      ensures View() == Step(old(View()), FlushNext(key))
    {
      StepIsSound(View(), FlushNext(key));
      SleeperIsGated(View());
      AfterFlush(View(), key);
      var rest := wakes[key].rest;
      if rest == [] {
        wakes := wakes - {key};
        return;
      }
      wakes := wakes[key := Flushing(rest[1..])];
      WriteThrough(Wake(key), rest[0]);
    }

    /** The start hook marks a wake or clears a failure; a sleeper stays one, with its queue. */
    method NoteAgentStart()
      requires Valid()
      modifies `record
      ensures Valid()
      ensures Sleeper() == old(Sleeper())
      ensures Sleeper() ==> record.value == old(record).value.(started := record.value.started)
      ensures !Sleeper() ==> record.None?
      ensures View() == Step(old(View()), AgentStart)
    {
      StepIsSound(View(), AgentStart);
      if record.None? {
        return;
      }
      if record.value.phase == Waking {
        record := Some(record.value.(started := true));
      }
      if record.value.phase == Failed {
        record := None;
      }
    }

    /** Only a failure can be dismissed; a sleeper keeps its record. */
    method DismissFailure() returns (ok: bool)
      requires Valid()
      modifies `record
      ensures Valid()
      ensures ok ==> record.None?
      ensures !ok ==> record == old(record)
      ensures old(Sleeper()) ==> !ok
      ensures View() == Step(old(View()), Dismiss)
    {
      StepIsSound(View(), Dismiss);
      ok := record.Some? && record.value.phase == Failed;
      if ok {
        record := None;
      }
    }

    method ForgetPane()
      requires Valid()
      modifies `record
      ensures Valid() && record.None?
      ensures View() == Step(old(View()), Forget)
    {
      StepIsSound(View(), Forget);
      record := None;
    }
  }

  // ---- What the stretches keep ------------------------------------------------------------------

  /** Gate and screen, the queue's books, and the order of wakes. */
  ghost predicate Sound(s: State) {
    Guarded(s) && Balanced(s.pane, s.log.offered) && Orderly(s)
  }

  lemma StepIsSound(s: State, ev: Event)
    requires Sound(s) && Lawful(s, ev)
    ensures Sound(Step(s, ev))
  {
    hide Guarded, Balanced, Orderly, Step;
    StepKeepsGuard(s, ev);
    StepKeepsBalance(s, ev);
    StepIsOrderly(s, ev);
  }

  lemma RestoredIsSound(saved: Saved)
    ensures Sound(Restored(saved))
  {
  }

  lemma SleeperIsGated(s: State)
    requires Sound(s)
    ensures Active(s.pane) ==> s.pane.gate && s.pane.frozen
    ensures s.pane.record.Some? && s.pane.record.value.phase == Waking ==> Waits(s, s.pane.record.value.key)
    ensures StartedOnce(s)
  {
  }

  lemma OnlyOneWasPast(s: State, id: nat)
    requires Sound(s) && Past(s.tasks, id)
    ensures forall a :: a in s.tasks.sleeps && a != id ==> s.tasks.sleeps[a] == Admitted
  {
    forall a | a in s.tasks.sleeps && a != id ensures s.tasks.sleeps[a] == Admitted {
      assert Past(s.tasks, a) <==> s.tasks.sleeps[a] != Admitted;
    }
  }

  /** Input over a sleeper: the PTY is spared, and the queue is what fits of all that was offered. */
  lemma AfterArrival(s: State, data: Chunk)
    requires Sound(s) && Active(s.pane)
    ensures
      var after := Step(s, Arrive(data));
      && Active(after.pane) && after.log.pty == s.log.pty
      && (!s.pane.dead && !IsPassive(data) ==>
            after.pane.record.value.phase == Waking && after.pane.record.value.queue == Fitting(s.log.offered + [data]))
  {
    StepKeepsBalance(s, Arrive(data));
  }

  lemma AfterFlush(s: State, key: nat)
    requires Sound(s) && Flushes(s, key)
    ensures
      var after := Step(s, FlushNext(key));
      && Datas(TriedBy(key, after.log.tried)) + LeftOf(after, key) == Datas(TriedBy(key, s.log.tried)) + LeftOf(s, key)
      && (Active(s.pane) ==> Active(after.pane) && after.log.pty == s.log.pty)
  {
    hide Step, TriedBy, Datas, LeftOf, Guarded, Balanced;
    assert Served(s, key) by { FlushingIsNotWaiting(s, key); }
    StepMovesOn(s, FlushNext(key), key);
    if Active(s.pane) {
      SleeperIsGated(s);
      FlushSparesThePty(s, key);
    }
  }

  lemma GateSparesThePty(s: State, who: Writer, data: Chunk)
    requires Active(s.pane) && s.pane.gate
    ensures Active(Write(s, who, data).pane) && Write(s, who, data).log.pty == s.log.pty
  {
  }

  lemma FlushSparesThePty(s: State, key: nat)
    requires Active(s.pane) && s.pane.gate && Flushes(s, key)
    ensures Active(Step(s, FlushNext(key)).pane) && Step(s, FlushNext(key)).log.pty == s.log.pty
  {
    hide Write;
    var rest := s.tasks.wakes[key].rest;
    if rest != [] {
      GateSparesThePty(s.(tasks := s.tasks.(wakes := s.tasks.wakes[key := Flushing(rest[1..])])), Wake(key), rest[0]);
    }
  }
}
