/** What the step machine of `Connections` keeps over whole runs: senders, disconnect events and sends. */
module ConnectionRuns {
  import opened Wrappers
  import opened Connections

  // ----- the sender map -----

  /**
   In every reachable state the sender map is empty or holds exactly one sender.  With no call half
   done it is the sender of the connection in ACTIVE; half-way through a call it is that of the
   connection being torn down or set up.
   */
  lemma SendersMatchActive(steps: seq<Step>)
    requires Runs(INIT, steps)
    ensures var s := After(INIT, steps);
            && (s.senders == map[] || (Owner(s).Some? && s.senders == map[Owner(s).value.device := Owner(s).value.generation]))
            && (s.api == Idle ==> Owner(s) == s.active)
            && (s.active.Some? ==> Owner(s) == s.active)
  {
    Reachable(steps);
    hide EventsFit, CanceledGone, GenerationsFit, Runs;
    var s := After(INIT, steps);
    hide After;
    if d :| d in s.senders {
      assert forall e | e in s.senders :: e == d && s.senders[e] == Owner(s).value.generation;
      assert s.senders == map[d := s.senders[d]];
    } else {
      assert s.senders == map[];
    }
  }

  /** No background task, however late it ends, ever takes another connection's sender or ACTIVE entry. */
  lemma TasksSpareOthers(steps: seq<Step>, step: Step)
    requires Runs(INIT, steps) && Enabled(After(INIT, steps), step)
    requires IsTaskStep(step)
    ensures var s := After(INIT, steps);
            var t := Apply(s, step);
            && (forall d | d in s.senders && s.senders[d] != step.task :: d in t.senders && t.senders[d] == s.senders[d])
            && (forall d | d in t.senders :: d in s.senders && t.senders[d] == s.senders[d])
            && (s.active.Some? && s.active.value.generation != step.task ==> t.active == s.active)
  {
    Reachable(steps);
    hide EventsFit, CanceledGone, GenerationsFit, Runs, After, Enabled, Apply;
    TaskStep(After(INIT, steps), step);
  }

  /** What takes a device's sender out of the map, and what puts one in. */
  lemma SenderGoes(s: State, step: Step, device: Device)
    requires Enabled(s, step)
    ensures device in s.senders && device !in Apply(s, step).senders <==>
            device in s.senders &&
            (step.ClearSenders? || (step.Remove? && s.api.was.device == device) || (step.Forget? && s.api.device == device) ||
             (step.Clear? && s.active == Some(Active(device, step.task)) && s.tasks[step.task].device == device))
    ensures device in Apply(s, step).senders ==>
              if step.Insert? && s.api.device == device then Apply(s, step).senders[device] == step.made
              else device in s.senders && Apply(s, step).senders[device] == s.senders[device]
  {
    if IsTaskStep(step) && !step.Clear? {
      TaskSenders(s, step);
    }
  }

  lemma TaskSenders(s: State, step: Step)
    requires Enabled(s, step) && IsTaskStep(step) && !step.Clear?
    ensures Apply(s, step).senders == s.senders
  {
  }

  /** A receiver is there from the insertion of its sender until it is dropped itself. */
  lemma ReceiverStays(s: State, step: Step, g: Generation)
    requires Enabled(s, step)
    ensures g in Apply(s, step).receivers <==> (g in s.receivers && step != DropReceiver(g)) || step == Insert(g)
  {
    if IsTaskStep(step) && !step.DropReceiver? {
      TaskReceivers(s, step);
    }
  }

  lemma TaskReceivers(s: State, step: Step)
    requires Enabled(s, step) && IsTaskStep(step) && !step.DropReceiver?
    ensures Apply(s, step).receivers == s.receivers
  {
  }

  /** A send keeps the sender it found until it is made. */
  lemma LookupStays(s: State, step: Step, call: nat)
    requires Enabled(s, step)
    ensures call in s.lookups && !(step.TrySend? && step.call == call) ==>
              call in Apply(s, step).lookups && Apply(s, step).lookups[call] == s.lookups[call]
    ensures call !in s.lookups && call in Apply(s, step).lookups ==>
              step.Lookup? && step.call == call && step.device in s.senders &&
              Apply(s, step).lookups[call] == Active(step.device, s.senders[step.device])
  {
    if IsTaskStep(step) {
      TaskStep(s, step);
      hide Apply;
    }
  }

  // ----- disconnect events -----

  lemma {:induction false} RunStaysGone(s: State, steps: seq<Step>, g: Generation)
    requires Inv(s) && Runs(s, steps) && Gone(s, g)
    ensures Gone(After(s, steps), g)
    decreases |steps|
  {
    hide Inv, Enabled, Apply, Gone;
    if steps != [] {
      StepKeeps(s, steps[0]);
      StepStaysGone(s, steps[0], g);
      RunStaysGone(Apply(s, steps[0]), steps[1..], g);
    }
  }

  /** Whether the task has passed its check and is about to emit. */
  function Pending(s: State, g: Generation): nat {
    if g in s.tasks && s.tasks[g].phase.Emitting? then 1 else 0
  }

  lemma PendingStep(s: State, step: Step, g: Generation)
    requires GenerationsFit(s) && Enabled(s, step) && Gone(s, g)
    ensures Pending(Apply(s, step), g) + (if step == Emit(g) then 1 else 0) == Pending(s, g)
  {
    if !IsTaskStep(step) {
      PendingKept(s, step, g);
    }
  }

  lemma PendingKept(s: State, step: Step, g: Generation)
    requires GenerationsFit(s) && Enabled(s, step) && Gone(s, g) && !IsTaskStep(step)
    ensures Pending(Apply(s, step), g) == Pending(s, g)
  {
  }

  /** A step of a gone generation's task emits only if its check had passed before. */
  lemma GoneStep(s: State, step: Step, g: Generation)
    requires Inv(s) && Enabled(s, step) && Gone(s, g)
    ensures EventsOf(Apply(s, step).events, g) + Pending(Apply(s, step), g) == EventsOf(s.events, g) + Pending(s, g)
  {
    hide Apply, Enabled, EventsOf, Pending, Gone, SendersOwned, CellsFit, GenerationsFit, CanceledGone, EventsFit;
    EventsOfStep(s, step, g);
    PendingStep(s, step, g);
  }

  /**
   Once a generation has left ACTIVE its task never passes the emit check again: over any further
   run its events can only grow by the one whose check had passed already.
   */
  lemma {:induction false} GoneStaysSilent(s: State, steps: seq<Step>, g: Generation)
    requires Inv(s) && Runs(s, steps) && Gone(s, g)
    ensures EventsOf(After(s, steps).events, g) + Pending(After(s, steps), g) == EventsOf(s.events, g) + Pending(s, g)
    decreases |steps|
  {
    hide Inv, Enabled, Apply, Gone, EventsOf;
    if steps != [] {
      StepKeeps(s, steps[0]);
      StepStaysGone(s, steps[0], g);
      GoneStep(s, steps[0], g);
      GoneStaysSilent(Apply(s, steps[0]), steps[1..], g);
    }
  }

  /** A task that sees its cancel signal emits nothing, however the run goes on. */
  lemma CanceledEmitsNothing(steps: seq<Step>, g: Generation, later: seq<Step>)
    requires Runs(INIT, steps) && Enabled(After(INIT, steps), SeesCancel(g))
    requires Runs(Apply(After(INIT, steps), SeesCancel(g)), later)
    ensures var s := After(INIT, steps);
            EventsOf(After(Apply(s, SeesCancel(g)), later).events, g) == EventsOf(s.events, g) == 0
  {
    Reachable(steps);
    var s := After(INIT, steps);
    var t := Apply(s, SeesCancel(g));
    StepKeeps(s, SeesCancel(g));
    StepStaysGone(s, SeesCancel(g), g);
    assert EventsOf(s.events, g) == 0;
    hide Inv, Runs, After, EventsOf;
    GoneStaysSilent(t, later, g);
    RunKeeps(t, later);
  }

  /** Over any run, each connection's task reports at most one disconnect. */
  lemma OneEventEach(steps: seq<Step>, g: Generation)
    requires Runs(INIT, steps)
    ensures EventsOf(After(INIT, steps).events, g) <= 1
  {
    Reachable(steps);
    hide Runs, After, EventsOf;
  }

  // ----- sends -----

  /** A send looked up with no call half done found the connection in ACTIVE. */
  lemma LookupFindsActive(steps: seq<Step>, call: nat, device: Device)
    requires Runs(INIT, steps) && Enabled(After(INIT, steps), Lookup(call, device))
    requires After(INIT, steps).api == Idle
    ensures var s := After(INIT, steps);
            var t := Apply(s, Lookup(call, device));
            call in t.lookups ==> t.active == Some(t.lookups[call]) && t.lookups[call].device == device
  {
    Reachable(steps);
    hide EventsFit, CanceledGone, GenerationsFit, Runs, After;
  }

  /** A connect or disconnect call that takes ACTIVE over, or the end of the generation's own task. */
  predicate TakesAway(step: Step, g: Generation) {
    step.BeginConnect? || step == Take || step == Clear(g)
  }

  /** Only such a step takes a connection out of ACTIVE, and each of them does, for good. */
  lemma ActiveStep(s: State, step: Step, found: Active)
    requires Inv(s) && Enabled(s, step) && s.active == Some(found)
    ensures Apply(s, step).active == Some(found) <==> !TakesAway(step, found.generation)
    ensures TakesAway(step, found.generation) ==> Gone(Apply(s, step), found.generation)
  {
    hide EventsFit, CanceledGone, SendersOwned;
    if IsTaskStep(step) && !step.Clear? {
      TaskKeepsActive(s, step, found);
    }
  }

  lemma TaskKeepsActive(s: State, step: Step, found: Active)
    requires Enabled(s, step) && s.active == Some(found) && IsTaskStep(step) && !step.Clear?
    ensures Apply(s, step).active == Some(found) && !TakesAway(step, found.generation)
  {
  }

  /** A connection stays in ACTIVE over a run exactly when no step of the run takes it away. */
  lemma {:induction false} StaysActiveIff(s: State, found: Active, steps: seq<Step>)
    requires Inv(s) && Runs(s, steps) && s.active == Some(found)
    ensures After(s, steps).active == Some(found) <==>
            forall i | 0 <= i < |steps| :: !TakesAway(steps[i], found.generation)
    decreases |steps|
  {
    if steps != [] {
      hide Inv, Apply, Enabled, Gone, TakesAway;
      var next := Apply(s, steps[0]);
      StepKeeps(s, steps[0]);
      ActiveStep(s, steps[0], found);
      if TakesAway(steps[0], found.generation) {
        RunStaysGone(next, steps[1..], found.generation);
        GoneNotActive(After(s, steps), found);
      } else {
        StaysActiveIff(next, found, steps[1..]);
        assert steps == [steps[0]] + steps[1..];
      }
    }
  }

  lemma GoneNotActive(s: State, found: Active)
    requires Gone(s, found.generation)
    ensures s.active != Some(found)
  {
  }

  /**
   A send that found the connection in ACTIVE and is accepted after any further steps goes to the
   connection in ACTIVE at that time exactly when none of those steps took ACTIVE over for another
   call or ended that connection's task.
   */
  lemma AcceptedSendReaches(before: seq<Step>, call: nat, device: Device, steps: seq<Step>)
    requires Runs(INIT, before) && After(INIT, before).api == Idle
    requires Enabled(After(INIT, before), Lookup(call, device)) && device in After(INIT, before).senders
    requires var s := Apply(After(INIT, before), Lookup(call, device));
             && Runs(s, steps)
             && var t := After(s, steps);
                call in t.lookups && t.lookups[call] == s.lookups[call] && t.lookups[call].generation in t.receivers
    ensures var s := Apply(After(INIT, before), Lookup(call, device));
            var t := After(s, steps);
            var u := Apply(t, TrySend(call, true));
            && |u.accepted| == |t.accepted| + 1
            && (u.active == Some(u.accepted[|t.accepted|]) <==>
                forall i | 0 <= i < |steps| :: !TakesAway(steps[i], s.lookups[call].generation))
  {
    LookupFindsActive(before, call, device);
    Reachable(before);
    StepKeeps(After(INIT, before), Lookup(call, device));
    var s := Apply(After(INIT, before), Lookup(call, device));
    hide Inv, Runs, After, TakesAway;
    StaysActiveIff(s, s.lookups[call], steps);
    SendAccepted(After(s, steps), call, true);
  }

  /** A send is accepted by the sender it found, while there is room and a receiver, and touches no shared cell. */
  lemma SendAccepted(t: State, call: nat, room: bool)
    requires call in t.lookups
    ensures var u := Apply(t, TrySend(call, room));
            && u.accepted == t.accepted + (if room && t.lookups[call].generation in t.receivers then [t.lookups[call]] else [])
            && u.active == t.active && u.senders == t.senders && u.tasks == t.tasks && u.receivers == t.receivers
  {
  }

  lemma {:induction false} RunOneMore(s: State, steps: seq<Step>, step: Step)
    requires Runs(s, steps) && Enabled(After(s, steps), step)
    ensures Runs(s, steps + [step]) && After(s, steps + [step]) == Apply(After(s, steps), step)
    decreases |steps|
  {
    hide Enabled, Apply;
    if steps == [] {
      assert [] + [step] == [step];
      assert [step][1..] == [];
    } else {
      assert (steps + [step])[1..] == steps[1..] + [step];
      RunOneMore(Apply(s, steps[0]), steps[1..], step);
    }
  }

  lemma RunJoined(s: State, a: seq<Step>, b: seq<Step>)
    requires Runs(s, a) && Runs(After(s, a), b)
    ensures Runs(s, a + b) && After(s, a + b) == After(After(s, a), b)
    decreases |a|
  {
    hide Enabled, Apply;
    if a == [] {
      assert a + b == b;
    } else {
      assert (a + b)[1..] == a[1..] + b;
      RunJoined(Apply(s, a[0]), a[1..], b);
    }
  }

  /** A connect call on a state with nothing connected and nothing half done, up to its spawn. */
  lemma Connecting(s: State, device: Device, g: Generation) returns (steps: seq<Step>)
    requires s.api == Ready(device) && g !in s.used
    ensures Runs(s, steps)
    ensures After(s, steps) ==
            s.(senders := s.senders[device := g], receivers := s.receivers + {g}, used := s.used + {g},
               active := Some(Active(device, g)), tasks := s.tasks[g := Task(device, Starting)], api := Idle)
  {
    steps := [];
    RunOneMore(s, steps, Insert(g));
    steps := steps + [Insert(g)];
    RunOneMore(s, steps, Activate);
    steps := steps + [Activate];
    RunOneMore(s, steps, Spawn);
    steps := steps + [Spawn];
  }

  /** Tearing down the connection in ACTIVE, as a second connect call does first. */
  lemma Reconnecting(s: State, was: Active) returns (steps: seq<Step>)
    requires s.api == Idle && s.active == Some(was)
    ensures Runs(s, steps)
    ensures After(s, steps) ==
            s.(active := None, canceled := s.canceled + {was.generation}, senders := s.senders - {was.device},
               current := Forgetful(s.current, was.device), api := Ready(was.device))
  {
    steps := [];
    RunOneMore(s, steps, BeginConnect(was.device));
    steps := steps + [BeginConnect(was.device)];
    RunOneMore(s, steps, Cancel);
    steps := steps + [Cancel];
    RunOneMore(s, steps, Remove);
    steps := steps + [Remove];
    RunOneMore(s, steps, ClearCurrent);
    steps := steps + [ClearCurrent];
  }

  predicate FoundFirst(s: State, device: Device) {
    && s.api == Idle && s.active == Some(Active(device, 1)) && s.used == {1} && 1 in s.receivers
    && 0 in s.lookups && s.lookups[0] == Active(device, 1) && s.accepted == []
  }

  lemma FirstLookup(device: Device) returns (steps: seq<Step>)
    ensures Runs(INIT, steps) && FoundFirst(After(INIT, steps), device)
  {
    RunOneMore(INIT, [], BeginConnect(device));
    steps := [] + [BeginConnect(device)];
    var part := Connecting(After(INIT, steps), device, 1);
    RunJoined(INIT, steps, part);
    steps := steps + part;
    hide Runs, After;
    RunOneMore(INIT, steps, Lookup(0, device));
    steps := steps + [Lookup(0, device)];
  }

  predicate SentToFirst(s: State, device: Device) {
    s.accepted == [Active(device, 1)] && s.active == Some(Active(device, 2)) && 1 in s.canceled
  }

  lemma SendAfterReconnect(s: State, device: Device) returns (steps: seq<Step>)
    requires FoundFirst(s, device)
    ensures Runs(s, steps) && SentToFirst(After(s, steps), device)
  {
    hide Runs, After;
    steps := Reconnecting(s, Active(device, 1));
    var part := Connecting(After(s, steps), device, 2);
    RunJoined(s, steps, part);
    steps := steps + part;
    RunOneMore(s, steps, TrySend(0, true));
    steps := steps + [TrySend(0, true)];
  }

  /**
   Such a send can be accepted for a superseded connection: a reconnect fits between the lookup of
   the sender and the send on it, while the old send loop has not yet seen its cancel signal.
   */
  lemma SupersededSend(device: Device) returns (steps: seq<Step>)
    ensures Runs(INIT, steps)
    ensures var s := After(INIT, steps);
            s.accepted == [Active(device, 1)] && s.active == Some(Active(device, 2)) && 1 in s.canceled
  {
    steps := FirstLookup(device);
    hide Runs, After;
    var part := SendAfterReconnect(After(INIT, steps), device);
    RunJoined(INIT, steps, part);
    steps := steps + part;
  }
}
