/**
 * One pane of the agent sleeper (packages/server/src/agent-sleep.ts:434-585, 634-664;
 * packages/server/src/session.ts:841-870, 994-1001). An event is what runs from one await to the next.
 */
module SleepModel {
  import opened Prelude
  import opened PassiveInput

  const QUEUE_MAX := 65536

  type Chunk = seq<byte>

  datatype Phase = Sleeping | Waking | Failed

  /** An entry of the live map. Its key tells it from earlier records of the same pane. */
  datatype Record = Record(key: nat, phase: Phase, queue: seq<Chunk>, queuedBytes: nat, dropped: nat, started: bool)

  /** How far a call of sleep is: past its first checks, screen frozen, gate installed, being undone. */
  datatype SleepTask = Admitted | Freezing | Installed | Undone

  /** How far a wake is: waiting for the agent, or writing the queue of the record it ended. */
  datatype WakeTask = Waiting | Flushing(rest: seq<Chunk>)

  datatype Writer = Viewer | Wake(key: nat)

  datatype Written = Written(who: Writer, data: Chunk)

  /** What became of a write: it reached the PTY, the gate took or swallowed it, or the session was dead. */
  datatype Fate = Reached | Taken | Swallowed | Lost

  datatype Tried = Tried(who: Writer, data: Chunk, fate: Fate)

  datatype Pane = Pane(record: Option<Record>, gate: bool, frozen: bool, dead: bool)

  /** Calls under way; a wake goes by the key of the record that it flipped. */
  datatype Tasks = Tasks(inFlight: bool, sleeps: map<nat, SleepTask>, wakes: map<nat, WakeTask>)

  /**
   * History: keys given out, input offered to the current record, wakes started, what reached the PTY, and
   * every write that was tried.
   */
  datatype Log = Log(next: nat, offered: seq<Chunk>, started: seq<nat>, pty: seq<Written>, tried: seq<Tried>)

  datatype State = State(pane: Pane, tasks: Tasks, log: Log)

  datatype Event =
    | Arrive(data: Chunk)
    | AgentStart
    | Dismiss
    | SleepCall(id: nat)
    | SleepRefused(id: nat)
    | SleepActs(id: nat)
    | SleepInstalls(id: nat)
    | SleepGivesUp(id: nat)
    | SleepReturns(id: nat)
    | WakeCall
    | WakeReady(key: nat, ok: bool)
    | FlushNext(key: nat)
    | Ends
    | Forget

  function Total(chunks: seq<Chunk>): nat {
    if chunks == [] then 0 else Total(chunks[..|chunks| - 1]) + |chunks[|chunks| - 1]|
  }

  /** The record holds the gate: asleep or on the way up. */
  predicate Active(p: Pane) {
    p.record.Some? && p.record.value.phase != Failed
  }

  // ---- Input ------------------------------------------------------------------------------------

  /** The part of wake before its first await. */
  function StartWake(s: State): State
    requires s.pane.record.Some?
  {
    var r := s.pane.record.value;
    s.(pane := s.pane.(record := Some(r.(phase := Waking, started := false))),
       tasks := s.tasks.(wakes := s.tasks.wakes[r.key := Waiting]),
       log := s.log.(started := s.log.started + [r.key]))
  }

  function Enqueue(r: Record, data: Chunk): Record {
    if r.queuedBytes + |data| <= QUEUE_MAX
    then r.(queue := r.queue + [data], queuedBytes := r.queuedBytes + |data|)
    else r.(dropped := r.dropped + |data|)
  }

  function Offer(s: State, data: Chunk): State
    requires s.pane.record.Some?
  {
    s.(pane := s.pane.(record := Some(Enqueue(s.pane.record.value, data))),
       log := s.log.(offered := s.log.offered + [data]))
  }

  /** The installed gate, when its record is active. */
  function GateTakes(s: State, data: Chunk): State
    requires Active(s.pane)
  {
    if IsPassive(data) then s
    else if s.pane.record.value.phase == Sleeping then StartWake(Offer(s, data))
    else Offer(s, data)
  }

  function FateOf(p: Pane, data: Chunk): Fate {
    if p.dead then Lost
    else if p.gate && Active(p) then (if IsPassive(data) then Swallowed else Taken)
    else Reached
  }

  function Noted(s: State, who: Writer, data: Chunk): State {
    s.(log := s.log.(tried := s.log.tried + [Tried(who, data, FateOf(s.pane, data))]))
  }

  function Write(s: State, who: Writer, data: Chunk): State {
    var noted := Noted(s, who, data);
    if s.pane.dead then noted
    else if s.pane.gate && Active(s.pane) then GateTakes(noted, data)
    else noted.(log := noted.log.(pty := s.log.pty + [Written(who, data)]))
  }

  // ---- Sleeping ---------------------------------------------------------------------------------

  /** The first check of sleep: no active record and nothing in flight. */
  predicate Admissible(s: State) {
    !Active(s.pane) && !s.tasks.inFlight
  }

  function OnSleepCall(s: State, id: nat): State {
    var cleared := if Active(s.pane) then s else s.(pane := s.pane.(record := None));
    if id in s.tasks.sleeps || !Admissible(cleared) || s.pane.dead then cleared
    else cleared.(tasks := s.tasks.(sleeps := s.tasks.sleeps[id := Admitted]))
  }

  predicate At(s: State, id: nat, task: SleepTask) {
    id in s.tasks.sleeps && s.tasks.sleeps[id] == task
  }

  function Without<T>(tasks: map<nat, T>, id: nat): map<nat, T> {
    tasks - {id}
  }

  /** All checks have passed. The code does not repeat the first one here. */
  function OnSleepActs(s: State, id: nat): State {
    s.(pane := s.pane.(frozen := true),
       tasks := s.tasks.(inFlight := true, sleeps := s.tasks.sleeps[id := Freezing]))
  }

  function OnSleepInstalls(s: State, id: nat): State {
    s.(pane := s.pane.(record := Some(Record(s.log.next, Sleeping, [], 0, 0, false)), gate := true),
       tasks := s.tasks.(sleeps := s.tasks.sleeps[id := Installed]),
       log := s.log.(next := s.log.next + 1, offered := []))
  }

  /** The agent would not exit: everything is undone. */
  function OnSleepGivesUp(s: State, id: nat): State {
    s.(pane := s.pane.(record := None, gate := false, frozen := false),
       tasks := s.tasks.(sleeps := s.tasks.sleeps[id := Undone]))
  }

  function OnSleepReturns(s: State, id: nat): State {
    s.(tasks := s.tasks.(inFlight := false, sleeps := Without(s.tasks.sleeps, id)))
  }

  // ---- Waking -----------------------------------------------------------------------------------

  predicate CanWake(p: Pane) {
    p.record.Some? && p.record.value.phase == Sleeping && !p.dead
  }

  predicate Waits(s: State, key: nat) {
    key in s.tasks.wakes && s.tasks.wakes[key] == Waiting
  }

  /** The wake hears whether the agent came up; it looks its record up again by pane. */
  function OnWakeReady(s: State, key: nat, ok: bool): State {
    var gone := s.tasks.(wakes := Without(s.tasks.wakes, key));
    if s.pane.record.None? then s.(tasks := gone)
    else
      var cur := s.pane.record.value;
      var thawed := s.pane.(gate := false, frozen := false);
      if !ok then
        s.(pane := thawed.(record := Some(cur.(phase := Failed, queue := [], queuedBytes := 0))), tasks := gone)
      else
        s.(pane := thawed.(record := None),
           tasks := s.tasks.(wakes := s.tasks.wakes[key := Flushing(cur.queue)]))
  }

  predicate Flushes(s: State, key: nat) {
    key in s.tasks.wakes && s.tasks.wakes[key].Flushing?
  }

  function OnFlushNext(s: State, key: nat): State
    requires Flushes(s, key)
  {
    var rest := s.tasks.wakes[key].rest;
    if rest == [] then s.(tasks := s.tasks.(wakes := Without(s.tasks.wakes, key)))
    else Write(s.(tasks := s.tasks.(wakes := s.tasks.wakes[key := Flushing(rest[1..])])), Wake(key), rest[0])
  }

  function OnAgentStart(s: State): State {
    if s.pane.record.None? then s
    else match s.pane.record.value.phase
      case Sleeping => s
      case Waking => s.(pane := s.pane.(record := Some(s.pane.record.value.(started := true))))
      case Failed => s.(pane := s.pane.(record := None))
  }

  function OnDismiss(s: State): State {
    if s.pane.record.Some? && s.pane.record.value.phase == Failed then s.(pane := s.pane.(record := None)) else s
  }

  function Step(s: State, ev: Event): State {
    match ev
    case Arrive(data) => Write(s, Viewer, data)
    case AgentStart => OnAgentStart(s)
    case Dismiss => OnDismiss(s)
    case SleepCall(id) => OnSleepCall(s, id)
    case SleepRefused(id) => if At(s, id, Admitted) then s.(tasks := s.tasks.(sleeps := Without(s.tasks.sleeps, id))) else s
    case SleepActs(id) => if At(s, id, Admitted) then OnSleepActs(s, id) else s
    case SleepInstalls(id) => if At(s, id, Freezing) then OnSleepInstalls(s, id) else s
    case SleepGivesUp(id) => if At(s, id, Installed) then OnSleepGivesUp(s, id) else s
    case SleepReturns(id) => if At(s, id, Installed) || At(s, id, Undone) then OnSleepReturns(s, id) else s
    case WakeCall => if CanWake(s.pane) then StartWake(s) else s
    case WakeReady(key, ok) => if Waits(s, key) then OnWakeReady(s, key, ok) else s
    case FlushNext(key) => if Flushes(s, key) then OnFlushNext(s, key) else s
    case Ends => s.(pane := s.pane.(dead := true))
    case Forget => s.(pane := s.pane.(record := None))
  }

  function Run(s: State, events: seq<Event>): State {
    if events == [] then s else Step(Run(s, events[..|events| - 1]), events[|events| - 1])
  }

  // ---- Start of the server ----------------------------------------------------------------------

  datatype Saved = Awake | Asleep | Broken

  /** What restore makes of the saved metadata: gate and frozen screen for a sleeper, a bare mark for a failure. */
  function Restored(saved: Saved): State {
    var idle := Tasks(false, map[], map[]);
    match saved
    case Awake => State(Pane(None, false, false, false), idle, Log(0, [], [], [], []))
    case Asleep => State(Pane(Some(Record(0, Sleeping, [], 0, 0, false)), true, true, false), idle, Log(1, [], [], [], []))
    case Broken => State(Pane(Some(Record(0, Failed, [], 0, 0, false)), false, false, false), idle, Log(1, [], [], [], []))
  }
}
