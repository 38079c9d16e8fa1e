/** Which disconnects the step machine of `Connections` reports: each that it should, once, and no other. */
module ConnectionEvents {
  import opened Wrappers
  import opened Connections

  /** The events of one task, or with None those of the API calls, in order. */
  function EventsFor(events: seq<Event>, task: Option<Generation>): seq<Event> {
    if events == [] then []
    else
      var last := events[|events| - 1];
      EventsFor(events[..|events| - 1], task) + if last.task == task then [last] else []
  }

  lemma {:induction false} EventsCounted(events: seq<Event>, g: Generation)
    ensures |EventsFor(events, Some(g))| == EventsOf(events, g)
  {
    if events != [] {
      EventsCounted(events[..|events| - 1], g);
    }
  }

  /** What a step reports on behalf of a task, or with None of an API call. */
  function Reported(s: State, step: Step, task: Option<Generation>): seq<Event>
    requires Enabled(s, step)
  {
    if step.Emit? && Some(step.task) == task then [Event(s.tasks[step.task].device, task, s.tasks[step.task].phase.status)]
    else if step.ReportDisconnect? && task == None then [Event(s.api.device, None, 2)]
    else []
  }

  lemma EventsSnoc(events: seq<Event>, e: Event, task: Option<Generation>)
    ensures EventsFor(events + [e], task) == EventsFor(events, task) + if e.task == task then [e] else []
  {
    assert (events + [e])[..|events|] == events;
  }

  lemma EventsStep(s: State, step: Step, task: Option<Generation>)
    requires Enabled(s, step)
    ensures EventsFor(Apply(s, step).events, task) == EventsFor(s.events, task) + Reported(s, step, task)
  {
    hide EventsFor;
    if step.Emit? {
      EventsSnoc(s.events, Event(s.tasks[step.task].device, Some(step.task), s.tasks[step.task].phase.status), task);
    } else if step.ReportDisconnect? {
      EventsSnoc(s.events, Event(s.api.device, None, 2), task);
    } else {
      QuietEvents(s, step);
    }
  }

  lemma QuietEvents(s: State, step: Step)
    requires Enabled(s, step) && !step.Emit? && !step.ReportDisconnect?
    ensures Apply(s, step).events == s.events
  {
  }

  // ----- a task -----

  predicate PastCheck(s: State, g: Generation) {
    g in s.tasks && (s.tasks[g].phase.Emitting? || s.tasks[g].phase in {Clearing, Done})
  }

  /** What a task has still to report once it is past its check. */
  function Due(s: State, g: Generation): seq<Event> {
    if g in s.tasks && s.tasks[g].phase.Emitting? then [Event(s.tasks[g].device, Some(g), s.tasks[g].phase.status)] else []
  }

  lemma PastStep(s: State, step: Step, g: Generation)
    requires GenerationsFit(s) && Enabled(s, step) && PastCheck(s, g)
    ensures PastCheck(Apply(s, step), g)
    ensures Reported(s, step, Some(g)) + Due(Apply(s, step), g) == Due(s, g)
  {
    if step == Emit(g) {
      EmitsDue(s, g);
    } else if step == Clear(g) {
      assert Due(s, g) == [];
    } else {
      OthersPast(s, step, g);
      hide Apply;
      assert Reported(s, step, Some(g)) == [];
    }
  }

  lemma EmitsDue(s: State, g: Generation)
    requires Enabled(s, Emit(g))
    ensures PastCheck(Apply(s, Emit(g)), g) && Due(Apply(s, Emit(g)), g) == [] && Reported(s, Emit(g), Some(g)) == Due(s, g)
  {
  }

  lemma OthersPast(s: State, step: Step, g: Generation)
    requires GenerationsFit(s) && Enabled(s, step) && PastCheck(s, g) && step != Emit(g) && step != Clear(g)
    ensures g in Apply(s, step).tasks && Apply(s, step).tasks[g] == s.tasks[g]
  {
    if IsTaskStep(step) && step.task != g {
      TaskStep(s, step);
      hide Apply;
    }
  }

  lemma Grouped(a: seq<Event>, b: seq<Event>, c: seq<Event>)
    ensures (a + b) + c == a + (b + c)
  {
  }

  /** Past its check a task reports just what is due. */
  lemma {:induction false} PastRun(s: State, steps: seq<Step>, g: Generation)
    requires Inv(s) && Runs(s, steps) && PastCheck(s, g)
    ensures PastCheck(After(s, steps), g)
    ensures EventsFor(After(s, steps).events, Some(g)) + Due(After(s, steps), g) == EventsFor(s.events, Some(g)) + Due(s, g)
    decreases |steps|
  {
    if steps != [] {
      hide Apply, Enabled, EventsFor, Due, Reported, PastCheck, SendersOwned, CellsFit, GenerationsFit, CanceledGone, EventsFit;
      var next := Apply(s, steps[0]);
      StepKeeps(s, steps[0]);
      PastStep(s, steps[0], g);
      EventsStep(s, steps[0], Some(g));
      Grouped(EventsFor(s.events, Some(g)), Reported(s, steps[0], Some(g)), Due(next, g));
      PastRun(next, steps[1..], g);
    }
  }

  /** A task on its way to a check is there with its status and device, or has gone past it. */
  predicate Waiting(s: State, g: Generation, device: Device, status: int) {
    PastCheck(s, g) || (g in s.tasks && s.tasks[g] == Task(device, Checking(status)))
  }

  lemma WaitingStep(s: State, step: Step, g: Generation, device: Device, status: int)
    requires GenerationsFit(s) && Enabled(s, step) && Waiting(s, g, device, status)
    ensures Waiting(Apply(s, step), g, device, status)
  {
    if PastCheck(s, g) {
      PastStep(s, step, g);
    } else if step != Check(g) {
      WaitsOn(s, step, g);
    }
  }

  lemma WaitsOn(s: State, step: Step, g: Generation)
    requires GenerationsFit(s) && Enabled(s, step) && g in s.tasks && s.tasks[g].phase.Checking? && step != Check(g)
    ensures g in Apply(s, step).tasks && Apply(s, step).tasks[g] == s.tasks[g]
  {
    if IsTaskStep(step) && step.task != g {
      TaskStep(s, step);
      hide Apply;
    }
  }

  lemma {:induction false} WaitingRun(s: State, steps: seq<Step>, g: Generation, device: Device, status: int)
    requires Inv(s) && Runs(s, steps) && Waiting(s, g, device, status)
    ensures Waiting(After(s, steps), g, device, status)
    decreases |steps|
  {
    if steps != [] {
      hide Apply, Enabled, Waiting, SendersOwned, CellsFit, GenerationsFit, CanceledGone, EventsFit;
      StepKeeps(s, steps[0]);
      WaitingStep(s, steps[0], g, device, status);
      WaitingRun(Apply(s, steps[0]), steps[1..], g, device, status);
    }
  }

  /** A failed start, a disconnect seen, or a cancel signal seen. */
  predicate Leaves(step: Step, g: Generation) {
    step == StartFails(g) || step == SeesDisconnect(g) || step == SeesCancel(g)
  }

  lemma LeftWaiting(s: State, step: Step, g: Generation)
    requires Enabled(s, step) && Leaves(step, g)
    ensures g in s.tasks && Waiting(Apply(s, step), g, s.tasks[g].device, if step == StartFails(g) then 1 else 2)
    ensures Enabled(Apply(s, step), Check(g))
  {
  }

  lemma Checked(s: State, g: Generation)
    requires Inv(s) && Enabled(s, Check(g))
    ensures !PastCheck(s, g) && g in s.tasks && EventsFor(s.events, Some(g)) == []
    ensures PastCheck(Apply(s, Check(g)), g) && Apply(s, Check(g)).events == s.events
    ensures Due(Apply(s, Check(g)), g) ==
            if s.active == Some(Active(s.tasks[g].device, g)) then [Event(s.tasks[g].device, Some(g), s.tasks[g].phase.status)] else []
  {
    EventsCounted(s.events, g);
    hide EventsFor, SendersOwned, CellsFit, GenerationsFit, CanceledGone;
    assert EventsOf(s.events, g) <= Allowed(s, g) == 0;
  }

  /**
   A task that leaves for its check and ends has reported exactly one disconnect if its connection was in
   ACTIVE at the check, and none otherwise.  The event names the task's device and generation, with status
   1 after a failed start and 2 after a disconnect or a cancel signal.
   */
  lemma TaskReports(before: seq<Step>, leave: Step, between: seq<Step>, after: seq<Step>, g: Generation)
    requires Runs(INIT, before) && Enabled(After(INIT, before), leave) && Leaves(leave, g)
    requires Runs(Apply(After(INIT, before), leave), between)
    requires Enabled(After(Apply(After(INIT, before), leave), between), Check(g))
    requires Runs(Apply(After(Apply(After(INIT, before), leave), between), Check(g)), after)
    requires At(After(Apply(After(Apply(After(INIT, before), leave), between), Check(g)), after), g, Done)
    ensures g in After(INIT, before).tasks && Enabled(Apply(After(INIT, before), leave), Check(g))
    ensures var device := After(INIT, before).tasks[g].device;
            var check := After(Apply(After(INIT, before), leave), between);
            var end := After(Apply(check, Check(g)), after);
            EventsFor(end.events, Some(g)) ==
            if check.active == Some(Active(device, g)) then [Event(device, Some(g), if leave == StartFails(g) then 1 else 2)] else []
  {
    hide Inv, Runs, After, Enabled, Apply, EventsFor, Leaves, PastCheck, Due;
    Reachable(before);
    var left := Apply(After(INIT, before), leave);
    LeftWaiting(After(INIT, before), leave, g);
    StepKeeps(After(INIT, before), leave);
    RunKeeps(left, between);
    var check := After(left, between);
    WaitingRun(left, between, g, After(INIT, before).tasks[g].device, if leave == StartFails(g) then 1 else 2);
    Checked(check, g);
    StepKeeps(check, Check(g));
    PastRun(Apply(check, Check(g)), after, g);
    NothingDue(After(Apply(check, Check(g)), after), g);
  }

  lemma NothingDue(s: State, g: Generation)
    requires At(s, g, Done)
    ensures Due(s, g) == [] && forall events: seq<Event> :: events + [] == events
  {
  }

  /** No task step before a check reports anything. */
  predicate Unchecked(s: State, g: Generation) {
    EventsFor(s.events, Some(g)) == [] && (g in s.tasks ==> !s.tasks[g].phase.Emitting?)
  }

  lemma UncheckedStep(s: State, step: Step, g: Generation)
    requires Enabled(s, step) && Unchecked(s, g) && step != Check(g)
    ensures Unchecked(Apply(s, step), g)
  {
    hide EventsFor;
    EventsStep(s, step, Some(g));
    if IsTaskStep(step) && step.task != g {
      TaskStep(s, step);
      hide Apply;
    }
  }

  lemma {:induction false} UncheckedRun(s: State, steps: seq<Step>, g: Generation)
    requires Runs(s, steps) && Unchecked(s, g) && Check(g) !in steps
    ensures Unchecked(After(s, steps), g)
    decreases |steps|
  {
    hide Apply, Enabled, Unchecked;
    if steps != [] {
      UncheckedStep(s, steps[0], g);
      UncheckedRun(Apply(s, steps[0]), steps[1..], g);
    }
  }

  /** A task that never gets to a check, as one whose stream just ends, reports nothing. */
  lemma NoCheckNoReport(steps: seq<Step>, g: Generation)
    requires Runs(INIT, steps) && Check(g) !in steps
    ensures EventsFor(After(INIT, steps).events, Some(g)) == []
  {
    UncheckedRun(INIT, steps, g);
  }

  lemma QuietlyPast(s: State, g: Generation)
    requires Enabled(s, EndsQuietly(g))
    ensures PastCheck(Apply(s, EndsQuietly(g)), g) && Due(Apply(s, EndsQuietly(g)), g) == []
    ensures Apply(s, EndsQuietly(g)).events == s.events && Allowed(s, g) == 0
  {
  }

  /** A task that gives up after too many failures clears its connection and reports nothing, however the run goes on. */
  lemma QuietReportsNothing(before: seq<Step>, g: Generation, after: seq<Step>)
    requires Runs(INIT, before) && Enabled(After(INIT, before), EndsQuietly(g))
    requires Runs(Apply(After(INIT, before), EndsQuietly(g)), after)
    ensures EventsFor(After(Apply(After(INIT, before), EndsQuietly(g)), after).events, Some(g)) == []
  {
    hide Runs, After, Enabled, Apply, EventsFor, PastCheck, Due, Allowed, SendersOwned, CellsFit, GenerationsFit, CanceledGone;
    Reachable(before);
    var s := After(INIT, before);
    QuietlyPast(s, g);
    StepKeeps(s, EndsQuietly(g));
    EventsCounted(s.events, g);
    PastRun(Apply(s, EndsQuietly(g)), after, g);
  }

  // ----- a disconnect call -----

  predicate Begins(step: Step) {
    step.BeginConnect? || step.BeginDisconnect?
  }

  /** Where a disconnect call of the device can be, or that it is over and the device not in ACTIVE. */
  predicate InDisconnect(s: State, device: Device) {
    match s.api
    case Idle => s.active.Some? ==> s.active.value.device != device
    case Matched(d) => d == device
    case Taken(_, next) => next == Report(device)
    case Canceled(_, next) => next == Report(device)
    case Removed(_, next) => next == Report(device)
    case Reporting(d) => d == device
    case Forgetting(d) => d == device
    case Forgot(d) => d == device
    case _ => false
  }

  /** What the call has still to report. */
  function Owed(api: Api, device: Device): seq<Event> {
    if api.Idle? || api.Forgetting? || api.Forgot? then [] else [Event(device, None, 2)]
  }

  lemma DisconnectStep(s: State, step: Step, device: Device)
    requires CellsFit(s) && Enabled(s, step) && InDisconnect(s, device) && !Begins(step)
    ensures InDisconnect(Apply(s, step), device)
    ensures Reported(s, step, None) + Owed(Apply(s, step).api, device) == Owed(s.api, device)
  {
    if IsTaskStep(step) {
      TaskStep(s, step);
      NotOfACall(s, step);
      hide Apply, Enabled, CellsFit, IsTaskStep, IsActive, Reported;
      assert Apply(s, step).api == s.api;
    } else {
      CallStep(s, step, device);
    }
  }

  lemma NotOfACall(s: State, step: Step)
    requires Enabled(s, step) && IsTaskStep(step)
    ensures Reported(s, step, None) == []
  {
    hide Enabled;
  }

  lemma CallStep(s: State, step: Step, device: Device)
    requires CellsFit(s) && Enabled(s, step) && InDisconnect(s, device) && !Begins(step) && !IsTaskStep(step)
    ensures InDisconnect(Apply(s, step), device)
    ensures Reported(s, step, None) + Owed(Apply(s, step).api, device) == Owed(s.api, device)
  {
  }

  lemma {:induction false} DisconnectRun(s: State, steps: seq<Step>, device: Device)
    requires Inv(s) && Runs(s, steps) && InDisconnect(s, device) && forall i | 0 <= i < |steps| :: !Begins(steps[i])
    ensures InDisconnect(After(s, steps), device)
    ensures EventsFor(After(s, steps).events, None) + Owed(After(s, steps).api, device) ==
            EventsFor(s.events, None) + Owed(s.api, device)
    decreases |steps|
  {
    if steps != [] {
      hide Apply, Enabled, EventsFor, Owed, Reported, InDisconnect, Begins, SendersOwned, CellsFit, GenerationsFit,
        CanceledGone, EventsFit;
      var next := Apply(s, steps[0]);
      StepKeeps(s, steps[0]);
      DisconnectStep(s, steps[0], device);
      EventsStep(s, steps[0], None);
      Grouped(EventsFor(s.events, None), Reported(s, steps[0], None), Owed(next.api, device));
      DisconnectRun(next, steps[1..], device);
    }
  }

  lemma DisconnectBegins(s: State, device: Device)
    requires s.api == Idle
    ensures var t := Apply(s, BeginDisconnect(device));
            && InDisconnect(t, device) && t.events == s.events
            && Owed(t.api, device) ==
               if s.active.Some? && s.active.value.device == device then [Event(device, None, 2)] else []
  {
  }

  /**
   A disconnect call that has run to its end has reported exactly one disconnect, with status 2 and the
   device, if the device was in ACTIVE when it began, and none otherwise.  Either way the device is then
   neither in ACTIVE nor in the sender map, whatever tasks, sends and the init loop did meanwhile.
   */
  lemma DisconnectReports(before: seq<Step>, device: Device, steps: seq<Step>)
    requires Runs(INIT, before) && After(INIT, before).api == Idle
    requires Runs(Apply(After(INIT, before), BeginDisconnect(device)), steps)
    requires forall i | 0 <= i < |steps| :: !Begins(steps[i])
    requires After(Apply(After(INIT, before), BeginDisconnect(device)), steps).api == Idle
    ensures var s := After(INIT, before);
            var end := After(Apply(s, BeginDisconnect(device)), steps);
            && EventsFor(end.events, None) ==
               EventsFor(s.events, None) + (if s.active.Some? && s.active.value.device == device then [Event(device, None, 2)] else [])
            && (end.active.Some? ==> end.active.value.device != device) && device !in end.senders
  {
    hide Runs, After, Apply, EventsFor, Begins, Owed, GenerationsFit, CanceledGone, EventsFit, CellsFit;
    Reachable(before);
    var s := After(INIT, before);
    StepKeeps(s, BeginDisconnect(device));
    DisconnectBegins(s, device);
    var t := Apply(s, BeginDisconnect(device));
    DisconnectRun(t, steps, device);
    RunKeeps(t, steps);
    NothingOwed(device);
  }

  lemma NothingOwed(device: Device)
    ensures Owed(Idle, device) == [] && forall events: seq<Event> :: events + [] == events
  {
  }

  // ----- the init loop -----

  lemma {:induction false} NoSenderLeft(s: State, steps: seq<Step>)
    requires Runs(s, steps) && s.senders == map[] && forall i | 0 <= i < |steps| :: !steps[i].Insert?
    ensures After(s, steps).senders == map[]
    decreases |steps|
  {
    if steps != [] {
      NoSenderStep(s, steps[0]);
      hide Apply, Enabled;
      NoSenderLeft(Apply(s, steps[0]), steps[1..]);
    }
  }

  lemma NoSenderStep(s: State, step: Step)
    requires Enabled(s, step) && s.senders == map[] && !step.Insert?
    ensures Apply(s, step).senders == map[]
  {
  }

  /** Once the init loop has cleared the sender map, a send finds no sender before the next connect call. */
  lemma ClearedFindsNothing(s: State, steps: seq<Step>, call: nat, device: Device)
    requires Enabled(s, ClearSenders) && Runs(Apply(s, ClearSenders), steps) && forall i | 0 <= i < |steps| :: !steps[i].Insert?
    requires Enabled(After(Apply(s, ClearSenders), steps), Lookup(call, device))
    ensures var t := After(Apply(s, ClearSenders), steps);
            Apply(t, Lookup(call, device)) == t
  {
    NoSenderLeft(Apply(s, ClearSenders), steps);
  }

  // ----- the receiving side -----

  /** The accepted sends to one connection. */
  function AcceptedBy(accepted: seq<Active>, g: Generation): seq<Active> {
    if accepted == [] then []
    else
      var last := accepted[|accepted| - 1];
      AcceptedBy(accepted[..|accepted| - 1], g) + if last.generation == g then [last] else []
  }

  lemma AcceptedStep(s: State, step: Step, g: Generation)
    requires GenerationsFit(s) && Enabled(s, step) && g in s.used && g !in s.receivers
    ensures g in Apply(s, step).used && g !in Apply(s, step).receivers
    ensures AcceptedBy(Apply(s, step).accepted, g) == AcceptedBy(s.accepted, g)
  {
    var before, after := s.accepted, Apply(s, step).accepted;
    if after != before {
      assert step.TrySend? && after == before + [s.lookups[step.call]];
      assert after[..|after| - 1] == before;
    }
  }

  lemma {:induction false} AcceptedRun(s: State, steps: seq<Step>, g: Generation)
    requires Inv(s) && Runs(s, steps) && g in s.used && g !in s.receivers
    ensures AcceptedBy(After(s, steps).accepted, g) == AcceptedBy(s.accepted, g)
    decreases |steps|
  {
    if steps != [] {
      hide Apply, Enabled, AcceptedBy, SendersOwned, CellsFit, GenerationsFit, CanceledGone, EventsFit;
      StepKeeps(s, steps[0]);
      AcceptedStep(s, steps[0], g);
      AcceptedRun(Apply(s, steps[0]), steps[1..], g);
    }
  }

  /** Once the receiving end of a connection's channel is dropped, no send to that connection is accepted again. */
  lemma DroppedAcceptsNothing(before: seq<Step>, g: Generation, steps: seq<Step>)
    requires Runs(INIT, before) && Enabled(After(INIT, before), DropReceiver(g))
    requires Runs(Apply(After(INIT, before), DropReceiver(g)), steps)
    ensures AcceptedBy(After(Apply(After(INIT, before), DropReceiver(g)), steps).accepted, g) == AcceptedBy(After(INIT, before).accepted, g)
  {
    hide Runs, After, AcceptedBy, SendersOwned, CellsFit, CanceledGone, EventsFit;
    Reachable(before);
    var s := After(INIT, before);
    assert g in s.used && g !in Apply(s, DropReceiver(g)).receivers && Apply(s, DropReceiver(g)).used == s.used;
    StepKeeps(s, DropReceiver(g));
    AcceptedRun(Apply(s, DropReceiver(g)), steps, g);
  }

  // ----- calls and tasks come to an end -----

  /** The next step of the call in progress. */
  function NextStep(api: Api, unused: Generation): Step
    requires api != Idle
  {
    match api
    case Matched(_) => Take
    case Taken(_, _) => Cancel
    case Canceled(_, _) => Remove
    case Removed(_, _) => ClearCurrent
    case Ready(_) => Insert(unused)
    case Inserted(_) => Activate
    case Activated(_) => Spawn
    case Reporting(_) => ReportDisconnect
    case Forgetting(_) => Forget
    case Forgot(_) => ForgetCurrent
  }

  /** How many steps the call has at most before it. */
  function StepsLeft(api: Api): nat {
    match api
    case Idle => 0
    case Matched(_) => 7
    case Taken(_, _) => 6
    case Canceled(_, _) => 5
    case Removed(_, _) => 4
    case Ready(_) => 3
    case Inserted(_) => 2
    case Activated(_) => 1
    case Reporting(_) => 1
    case Forgetting(_) => 2
    case Forgot(_) => 1
  }

  lemma CallMoves(s: State, unused: Generation)
    requires s.api != Idle && unused !in s.used
    ensures var step := NextStep(s.api, unused);
            Enabled(s, step) && !Begins(step) && StepsLeft(Apply(s, step).api) < StepsLeft(s.api)
    ensures var t := Apply(s, NextStep(s.api, unused)); t.api == Idle || unused !in t.used || t.api.Inserted? || t.api.Activated?
  {
  }

  lemma LateMoves(s: State)
    requires s.api.Inserted? || s.api.Activated?
    ensures var step := NextStep(s.api, 0);
            Enabled(s, step) && !Begins(step) && (Apply(s, step).api.Activated? || Apply(s, step).api == Idle)
    ensures StepsLeft(Apply(s, NextStep(s.api, 0)).api) < StepsLeft(s.api)
  {
  }

  /** No call gets stuck: from every state its own steps, seven at most, bring it to its end. */
  lemma {:induction false} CallEnds(s: State, unused: Generation) returns (steps: seq<Step>)
    requires unused !in s.used || s.api.Inserted? || s.api.Activated?
    ensures Runs(s, steps) && After(s, steps).api == Idle && |steps| <= StepsLeft(s.api)
    ensures forall i | 0 <= i < |steps| :: !Begins(steps[i])
    decreases StepsLeft(s.api)
  {
    steps := [];
    if s.api != Idle {
      var step := NextStep(s.api, unused);
      if s.api.Inserted? || s.api.Activated? {
        LateMoves(s);
        step := NextStep(s.api, 0);
      } else {
        CallMoves(s, unused);
      }
      hide Apply, Enabled, Begins, StepsLeft, NextStep;
      if Apply(s, step).api == Idle {
        steps := [step];
        assert steps[1..] == [];
      } else {
        var more := CallEnds(Apply(s, step), unused);
        steps := [step] + more;
        assert steps[1..] == more;
      }
    }
  }

  /** Neither does a task: what each of its phases lets it do next. */
  lemma TaskMoves(s: State, g: Generation)
    requires g in s.tasks
    ensures match s.tasks[g].phase
            case Starting => Enabled(s, StreamOpens(g)) && At(Apply(s, StreamOpens(g)), g, Joining) && Enabled(s, StartFails(g))
            case Joining => Enabled(s, Join(g)) && At(Apply(s, Join(g)), g, Running)
            case Running => Enabled(s, EndsQuietly(g)) && Enabled(s, SeesDisconnect(g)) && (g in s.canceled <==> Enabled(s, SeesCancel(g)))
            case Checking(_) => Enabled(s, Check(g))
            case Emitting(_) => Enabled(s, Emit(g)) && At(Apply(s, Emit(g)), g, Clearing)
            case Clearing => Enabled(s, Clear(g)) && At(Apply(s, Clear(g)), g, Done)
            case Done => true
  {
  }
}
