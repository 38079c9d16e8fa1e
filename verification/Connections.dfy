/**
 The shared cells of the client's connections (bambu-farm-client/src/api.rs) as a step machine:
 one step for every lock section of connect, disconnect, send, the init loop and any number of
 background tasks.  Calls of connect and disconnect do not overlap; everything else interleaves.

 A connect call draws a fresh generation.  The channel that the call creates is named after that
 generation, which is how a sender found in `MSG_TX` can be traced to its connection.
 */
module Connections {
  import opened Wrappers

  type Device = string
  type Generation = nat

  datatype Active = Active(device: Device, generation: Generation)

  /** What an API call still has to do once the old connection is gone. */
  datatype Then = Reconnect(device: Device) | Report(device: Device)

  /** How far the API call in progress has got. */
  datatype Api =
    | Idle
    | Matched(device: Device)
    | Taken(was: Active, next: Then)
    | Canceled(was: Active, next: Then)
    | Removed(device: Device, next: Then)
    | Ready(device: Device)
    | Inserted(made: Active)
    | Activated(made: Active)
    | Reporting(device: Device)
    | Forgetting(device: Device)
    | Forgot(device: Device)

  /** Where a background task is. */
  datatype Phase = Starting | Joining | Running | Checking(status: int) | Emitting(status: int) | Clearing | Done

  datatype Task = Task(device: Device, phase: Phase)

  datatype Event = Event(device: Device, task: Option<Generation>, status: int)

  datatype State = State(
    active: Option<Active>,
    senders: map<Device, Generation>,
    current: Option<Device>,
    api: Api,
    tasks: map<Generation, Task>,
    canceled: set<Generation>,
    receivers: set<Generation>,
    used: set<Generation>,
    lookups: map<nat, Active>,
    accepted: seq<Active>,
    events: seq<Event>)

  const INIT := State(None, map[], None, Idle, map[], {}, {}, {}, map[], [], [])

  datatype Step =
    // connect and disconnect, in the order their lock sections run
    | BeginConnect(device: Device)
    | BeginDisconnect(device: Device)
    | Take
    | Cancel
    | Remove
    | ClearCurrent
    | Insert(made: Generation)
    | Activate
    | Spawn
    | ReportDisconnect
    | Forget
    | ForgetCurrent
    // a background task
    | StartFails(task: Generation)
    | StreamOpens(task: Generation)
    | Join(task: Generation)
    | SeesCancel(task: Generation)
    | SeesDisconnect(task: Generation)
    | EndsQuietly(task: Generation)
    | Check(task: Generation)
    | Emit(task: Generation)
    | Clear(task: Generation)
    | DropReceiver(task: Generation)
    // sends and the init loop
    | Lookup(call: nat, device: Device)
    | TrySend(call: nat, room: bool)
    | ClearSenders

  function Forgetful(cell: Option<Device>, device: Device): Option<Device> {
    if cell == Some(device) then None else cell
  }

  function Continue(next: Then): Api {
    match next
    case Reconnect(device) => Ready(device)
    case Report(device) => Reporting(device)
  }

  /** `take()` on ACTIVE, and what follows when it held a connection. */
  function AfterTake(s: State, next: Then): State {
    match s.active
    case None => s.(api := Continue(next))
    case Some(was) => s.(active := None, api := Taken(was, next))
  }

  function Moved(s: State, g: Generation, phase: Phase): State
    requires g in s.tasks
  {
    s.(tasks := s.tasks[g := s.tasks[g].(phase := phase)])
  }

  predicate At(s: State, g: Generation, phase: Phase) {
    g in s.tasks && s.tasks[g].phase == phase
  }

  predicate IsActive(s: State, g: Generation)
    requires g in s.tasks
  {
    s.active == Some(Active(s.tasks[g].device, g))
  }

  predicate Enabled(s: State, step: Step) {
    match step
    case BeginConnect(_) => s.api == Idle
    case BeginDisconnect(_) => s.api == Idle
    case Take => s.api.Matched?
    case Cancel => s.api.Taken?
    case Remove => s.api.Canceled?
    case ClearCurrent => s.api.Removed?
    case Insert(made) => s.api.Ready? && made !in s.used
    case Activate => s.api.Inserted?
    case Spawn => s.api.Activated?
    case ReportDisconnect => s.api.Reporting?
    case Forget => s.api.Forgetting?
    case ForgetCurrent => s.api.Forgot?
    case StartFails(g) => At(s, g, Starting)
    case StreamOpens(g) => At(s, g, Starting)
    case Join(g) => At(s, g, Joining)
    case SeesCancel(g) => At(s, g, Running) && g in s.canceled
    case SeesDisconnect(g) => At(s, g, Running)
    case EndsQuietly(g) => At(s, g, Running)
    case Check(g) => g in s.tasks && s.tasks[g].phase.Checking?
    case Emit(g) => g in s.tasks && s.tasks[g].phase.Emitting?
    case Clear(g) => At(s, g, Clearing)
    case DropReceiver(g) => g in s.receivers && g in s.tasks
    case Lookup(call, _) => call !in s.lookups
    case TrySend(call, _) => call in s.lookups
    case ClearSenders => true
  }

  function Apply(s: State, step: Step): State
    requires Enabled(s, step)
  {
    match step
    case BeginConnect(device) => AfterTake(s, Reconnect(device))
    case BeginDisconnect(device) =>
      if s.active.Some? && s.active.value.device == device then s.(api := Matched(device)) else s.(api := Forgetting(device))
    case Take => AfterTake(s, Report(s.api.device))
    case Cancel => s.(canceled := s.canceled + {s.api.was.generation}, api := Canceled(s.api.was, s.api.next))
    case Remove => s.(senders := s.senders - {s.api.was.device}, api := Removed(s.api.was.device, s.api.next))
    case ClearCurrent => s.(current := Forgetful(s.current, s.api.device), api := Continue(s.api.next))
    case Insert(made) =>
      s.(senders := s.senders[s.api.device := made], receivers := s.receivers + {made}, used := s.used + {made},
         api := Inserted(Active(s.api.device, made)))
    case Activate => s.(active := Some(s.api.made), api := Activated(s.api.made))
    case Spawn => s.(tasks := s.tasks[s.api.made.generation := Task(s.api.made.device, Starting)], api := Idle)
    case ReportDisconnect => s.(events := s.events + [Event(s.api.device, None, 2)], api := Idle)
    case Forget => s.(senders := s.senders - {s.api.device}, api := Forgot(s.api.device))
    case ForgetCurrent => s.(current := Forgetful(s.current, s.api.device), api := Idle)
    case StartFails(g) => Moved(s, g, Checking(1))
    case StreamOpens(g) => Moved(s, g, Joining)
    case Join(g) => Moved(s, g, Running).(current := Some(s.tasks[g].device))
    case SeesCancel(g) => Moved(s, g, Checking(2))
    case SeesDisconnect(g) => Moved(s, g, Checking(2))
    case EndsQuietly(g) => Moved(s, g, Clearing)
    case Check(g) => Moved(s, g, if IsActive(s, g) then Emitting(s.tasks[g].phase.status) else Clearing)
    case Emit(g) =>
      Moved(s, g, Clearing).(events := s.events + [Event(s.tasks[g].device, Some(g), s.tasks[g].phase.status)])
    case Clear(g) =>
      if IsActive(s, g) then
        Moved(s, g, Done).(active := None, senders := s.senders - {s.tasks[g].device},
                           current := Forgetful(s.current, s.tasks[g].device))
      else Moved(s, g, Done)
    case DropReceiver(g) => s.(receivers := s.receivers - {g})
    case Lookup(call, device) =>
      if device in s.senders then s.(lookups := s.lookups[call := Active(device, s.senders[device])]) else s
    case TrySend(call, room) =>
      var sent := s.lookups[call];
      var found := s.(lookups := s.lookups - {call});
      if room && sent.generation in s.receivers then found.(accepted := s.accepted + [sent]) else found
    case ClearSenders => s.(senders := map[])
  }

  /** The steps happen one after the other, each of them possible when it happens. */
  predicate Runs(s: State, steps: seq<Step>)
    decreases |steps|
  {
    steps == [] || (Enabled(s, steps[0]) && Runs(Apply(s, steps[0]), steps[1..]))
  }

  function After(s: State, steps: seq<Step>): State
    requires Runs(s, steps)
    decreases |steps|
  {
    if steps == [] then s else After(Apply(s, steps[0]), steps[1..])
  }

  // ----- what every step keeps -----

  /** The one connection whose sender can be in the map: ACTIVE's, or that of the call half done. */
  function Owner(s: State): Option<Active> {
    match s.api
    case Taken(was, _) => Some(was)
    case Canceled(was, _) => Some(was)
    case Inserted(made) => Some(made)
    case _ => s.active
  }

  predicate SendersOwned(s: State) {
    forall d | d in s.senders :: Owner(s) == Some(Active(d, s.senders[d]))
  }

  /** Where each stage of a call leaves ACTIVE. */
  predicate CellsFit(s: State) {
    match s.api
    case Idle => true
    case Matched(device) => s.active.Some? ==> s.active.value.device == device
    case Taken(_, _) => s.active.None?
    case Canceled(_, _) => s.active.None?
    case Removed(_, _) => s.active.None?
    case Ready(_) => s.active.None?
    case Inserted(_) => s.active.None?
    case Activated(made) => s.active == Some(made)
    case Reporting(_) => s.active.None?
    case Forgetting(device) => s.active.Some? ==> s.active.value.device != device
    case Forgot(device) => s.active.Some? ==> s.active.value.device != device
  }

  /** A drawn generation is in use by its call, and its task starts only when the call ends. */
  predicate GenerationsFit(s: State) {
    && s.tasks.Keys <= s.used && s.canceled <= s.used && s.receivers <= s.used
    && (Owner(s).Some? ==> Owner(s).value.generation in s.used)
    && (s.api.Inserted? || s.api.Activated? ==> s.api.made.generation in s.used && s.api.made.generation !in s.tasks)
    && (s.active.Some? && !s.api.Activated? ==>
        s.active.value.generation in s.tasks && s.tasks[s.active.value.generation].device == s.active.value.device)
    && (forall c | c in s.lookups :: s.lookups[c].generation in s.used)
  }

  /** The generation was drawn and can no longer be, or become, the one in ACTIVE. */
  predicate Gone(s: State, g: Generation) {
    && g in s.used
    && (s.active.Some? ==> s.active.value.generation != g)
    && (s.api.Inserted? ==> s.api.made.generation != g)
  }

  predicate CanceledGone(s: State) {
    forall g | g in s.canceled :: Gone(s, g)
  }

  function EventsOf(events: seq<Event>, g: Generation): nat {
    if events == [] then 0
    else EventsOf(events[..|events| - 1], g) + if events[|events| - 1].task == Some(g) then 1 else 0
  }

  /** A task has emitted nothing until it is about to clear, and at most one event then. */
  function Allowed(s: State, g: Generation): nat {
    if g in s.tasks && s.tasks[g].phase in {Clearing, Done} then 1 else 0
  }

  ghost predicate EventsFit(s: State) {
    forall g :: EventsOf(s.events, g) <= Allowed(s, g)
  }

  ghost predicate Inv(s: State) {
    SendersOwned(s) && CellsFit(s) && GenerationsFit(s) && CanceledGone(s) && EventsFit(s)
  }

  predicate IsTaskStep(step: Step) {
    step.StartFails? || step.StreamOpens? || step.Join? || step.SeesCancel? || step.SeesDisconnect? ||
    step.EndsQuietly? || step.Check? || step.Emit? || step.Clear? || step.DropReceiver?
  }

  /** A task step moves that task on; only clearing the connection in ACTIVE touches the shared cells. */
  predicate TaskEffects(s: State, t: State, g: Generation) {
    && t.api == s.api && t.used == s.used && t.canceled == s.canceled && t.lookups == s.lookups
    && t.receivers <= s.receivers && t.tasks.Keys == s.tasks.Keys
    && (forall h | h in s.tasks :: t.tasks[h].device == s.tasks[h].device && (h != g ==> t.tasks[h] == s.tasks[h]))
    && g in s.tasks
    && ((t.active == s.active && t.senders == s.senders)
        || (IsActive(s, g) && t.active == None && t.senders == s.senders - {s.tasks[g].device}))
  }

  lemma StartStep(s: State, step: Step)
    requires Enabled(s, step) && (step.StartFails? || step.StreamOpens? || step.Join?)
    ensures TaskEffects(s, Apply(s, step), step.task)
  {
  }

  lemma PhaseStep(s: State, step: Step)
    requires Enabled(s, step) && (step.SeesCancel? || step.SeesDisconnect? || step.EndsQuietly? || step.Check?)
    ensures TaskEffects(s, Apply(s, step), step.task)
  {
  }

  lemma QuietStep(s: State, step: Step)
    requires Enabled(s, step) && (step.Emit? || step.DropReceiver?)
    ensures TaskEffects(s, Apply(s, step), step.task)
  {
  }

  lemma ClearStep(s: State, step: Step)
    requires Enabled(s, step) && step.Clear?
    ensures TaskEffects(s, Apply(s, step), step.task)
  {
  }

  lemma TaskStep(s: State, step: Step)
    requires Enabled(s, step) && IsTaskStep(step)
    ensures TaskEffects(s, Apply(s, step), step.task)
  {
    if step.Clear? {
      ClearStep(s, step);
    } else if step.Emit? || step.DropReceiver? {
      QuietStep(s, step);
    } else if step.StartFails? || step.StreamOpens? || step.Join? {
      StartStep(s, step);
    } else {
      PhaseStep(s, step);
    }
  }

  lemma TaskKeepsCells(s: State, t: State, g: Generation)
    requires Inv(s) && TaskEffects(s, t, g)
    ensures CellsFit(t) && SendersOwned(t)
  {
    hide EventsFit, CanceledGone;
    assert IsActive(s, g) ==> Owner(s) == s.active && !s.api.Activated?;
    assert Owner(t) == Owner(s) || (IsActive(s, g) && t.active == None);
  }

  lemma TaskKeepsGenerations(s: State, t: State, g: Generation)
    requires Inv(s) && TaskEffects(s, t, g)
    ensures GenerationsFit(t)
  {
    hide EventsFit, CanceledGone, SendersOwned;
  }

  lemma StepKeepsCells(s: State, step: Step)
    requires Inv(s) && Enabled(s, step)
    ensures CellsFit(Apply(s, step)) && SendersOwned(Apply(s, step))
  {
    hide EventsFit, CanceledGone, TaskEffects;
    if IsTaskStep(step) {
      TaskStep(s, step);
      hide Apply, Enabled, GenerationsFit, CellsFit, SendersOwned, IsActive;
      TaskKeepsCells(s, Apply(s, step), step.task);
    } else {
      hide GenerationsFit;
    }
  }

  lemma ConnectKeepsGenerations(s: State, step: Step)
    requires Inv(s) && Enabled(s, step) && (step.Insert? || step.Activate? || step.Spawn?)
    ensures GenerationsFit(Apply(s, step))
  {
    hide EventsFit, CanceledGone, SendersOwned;
  }

  lemma StepKeepsGenerations(s: State, step: Step)
    requires Inv(s) && Enabled(s, step)
    ensures GenerationsFit(Apply(s, step))
  {
    hide EventsFit, CanceledGone, TaskEffects;
    if IsTaskStep(step) {
      hide Apply, Enabled, GenerationsFit, CellsFit, SendersOwned, IsActive;
      TaskStep(s, step);
      TaskKeepsGenerations(s, Apply(s, step), step.task);
    } else if step.Insert? || step.Activate? || step.Spawn? {
      ConnectKeepsGenerations(s, step);
    }
  }

  lemma StepStaysGone(s: State, step: Step, g: Generation)
    requires Inv(s) && Enabled(s, step) && Gone(s, g)
    ensures Gone(Apply(s, step), g)
  {
    hide EventsFit, CanceledGone, SendersOwned, CellsFit;
    if IsTaskStep(step) {
      hide Apply, Enabled, GenerationsFit, IsActive;
      TaskStep(s, step);
    }
  }

  /** A cancel signal goes only to the connection just taken out of ACTIVE. */
  lemma StepKeepsCanceled(s: State, step: Step)
    requires Inv(s) && Enabled(s, step)
    ensures CanceledGone(Apply(s, step))
  {
    hide EventsFit, SendersOwned;
    forall g | g in Apply(s, step).canceled ensures Gone(Apply(s, step), g) {
      if g in s.canceled {
        StepStaysGone(s, step, g);
      }
    }
  }

  lemma EventsSnoc(events: seq<Event>, e: Event, g: Generation)
    ensures EventsOf(events + [e], g) == EventsOf(events, g) + if e.task == Some(g) then 1 else 0
  {
    assert (events + [e])[..|events|] == events;
  }

  /** Only a passed check emits, and the task that emits goes straight to clearing. */
  lemma EventsOfStep(s: State, step: Step, g: Generation)
    requires Enabled(s, step)
    ensures EventsOf(Apply(s, step).events, g) == EventsOf(s.events, g) + if step == Emit(g) then 1 else 0
  {
    hide EventsOf;
    if step.Emit? {
      EventsSnoc(s.events, Event(s.tasks[step.task].device, Some(step.task), s.tasks[step.task].phase.status), g);
    } else if step.ReportDisconnect? {
      EventsSnoc(s.events, Event(s.api.device, None, 2), g);
    }
  }

  lemma AllowedGrows(s: State, step: Step, g: Generation)
    requires Enabled(s, step) && GenerationsFit(s)
    ensures Allowed(s, g) + (if step == Emit(g) then 1 else 0) <= Allowed(Apply(s, step), g)
  {
    if !IsTaskStep(step) {
      AllowedKept(s, step, g);
    }
  }

  lemma AllowedKept(s: State, step: Step, g: Generation)
    requires Enabled(s, step) && GenerationsFit(s) && !IsTaskStep(step)
    ensures Allowed(s, g) <= Allowed(Apply(s, step), g)
  {
  }

  lemma StepKeepsEvents(s: State, step: Step)
    requires Inv(s) && Enabled(s, step)
    ensures EventsFit(Apply(s, step))
  {
    hide CanceledGone, SendersOwned, CellsFit, GenerationsFit, Enabled, Apply, EventsOf;
    forall g ensures EventsOf(Apply(s, step).events, g) <= Allowed(Apply(s, step), g) {
      EventsOfStep(s, step, g);
      AllowedGrows(s, step, g);
    }
  }

  lemma StepKeeps(s: State, step: Step)
    requires Inv(s) && Enabled(s, step)
    ensures Inv(Apply(s, step))
  {
    hide Enabled, Apply, CellsFit, SendersOwned, GenerationsFit, CanceledGone, EventsFit;
    StepKeepsCells(s, step);
    StepKeepsGenerations(s, step);
    StepKeepsCanceled(s, step);
    StepKeepsEvents(s, step);
  }

  lemma {:induction false} RunKeeps(s: State, steps: seq<Step>)
    requires Inv(s) && Runs(s, steps)
    ensures Inv(After(s, steps))
    decreases |steps|
  {
    hide Inv, Enabled, Apply;
    if steps != [] {
      StepKeeps(s, steps[0]);
      RunKeeps(Apply(s, steps[0]), steps[1..]);
    }
  }

  lemma Reachable(steps: seq<Step>)
    requires Runs(INIT, steps)
    ensures Inv(After(INIT, steps))
  {
    assert Inv(INIT);
    RunKeeps(INIT, steps);
  }
}
