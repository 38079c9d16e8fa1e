/**
 The table of camera streams (`CAMERA_STREAMS` in bambu-farm-client/src/api.rs) and the tunnels
 that start and stop them (bambu-farm-client/cpp/tunnel_bridge.cpp), as a step machine with one
 step per lock section.  Calls on one tunnel do not overlap; calls on different tunnels do.
 */
module CameraTable {
  type Id = nat
  type Handle = nat

  /** The call a tunnel is in the middle of. */
  datatype Phase = Free | Starting | Opening | Failing | Closing(id: Id, destroy: bool)

  datatype Tunnel = Tunnel(started: bool, id: Id, phase: Phase)

  /** `inserted` and `stopped` record which streams ever got a handle and whose stop flag is set. */
  datatype State = State(nextId: Id, tunnels: map<Handle, Tunnel>, table: set<Id>, inserted: set<Id>, stopped: set<Id>)

  const INIT := State(1, map[], {}, {}, {})

  datatype Step =
    | Create(t: Handle)
    | StartVideo(t: Handle)
    | StopFirst(t: Handle)
    | Refuse(t: Handle)
    | Insert(t: Handle)
    | Reset(t: Handle)
    | BeginClose(t: Handle, destroy: bool)
    | FinishClose(t: Handle)

  predicate At(s: State, t: Handle, phase: Phase) {
    t in s.tunnels && s.tunnels[t].phase == phase
  }

  predicate Enabled(s: State, step: Step) {
    match step
    case Create(t) => t !in s.tunnels
    case StartVideo(t) => At(s, t, Free)
    case StopFirst(t) => At(s, t, Starting)
    case Refuse(t) => At(s, t, Opening)
    case Insert(t) => At(s, t, Opening)
    case Reset(t) => At(s, t, Failing)
    case BeginClose(t, _) => At(s, t, Free)
    case FinishClose(t) => t in s.tunnels && s.tunnels[t].phase.Closing?
  }

  /** `bambu_network_rs_stop_camera_stream`: the removed handle's stop flag is set. */
  function Stop(s: State, id: Id): State {
    if id in s.table then s.(table := s.table - {id}, stopped := s.stopped + {id}) else s
  }

  function With(s: State, t: Handle, tunnel: Tunnel): State {
    s.(tunnels := s.tunnels[t := tunnel])
  }

  function Apply(s: State, step: Step): State
    requires Enabled(s, step)
  {
    match step
    case Create(t) => With(s, t, Tunnel(false, 0, Free))
    case StartVideo(t) =>
      if s.tunnels[t].started then s
      else With(s, t, Tunnel(true, s.nextId, Starting)).(nextId := s.nextId + 1)
    case StopFirst(t) => Stop(With(s, t, s.tunnels[t].(phase := Opening)), s.tunnels[t].id)
    case Refuse(t) => With(s, t, s.tunnels[t].(phase := Failing))
    case Insert(t) =>
      With(s, t, s.tunnels[t].(phase := Free)).(table := s.table + {s.tunnels[t].id}, inserted := s.inserted + {s.tunnels[t].id})
    case Reset(t) => With(s, t, Tunnel(false, 0, Free))
    case BeginClose(t, destroy) => With(s, t, Tunnel(false, 0, Closing(s.tunnels[t].id, destroy)))
    case FinishClose(t) =>
      var phase := s.tunnels[t].phase;
      var u := if phase.id != 0 then Stop(s, phase.id) else s;
      if phase.destroy then u.(tunnels := u.tunnels - {t}) else With(u, t, Tunnel(false, 0, Free))
  }

  predicate Runs(s: State, steps: seq<Step>)
    decreases |steps|
  {
    steps == [] || (Enabled(s, steps[0]) && Runs(Apply(s, steps[0]), steps[1..]))
  }

  function After(s: State, steps: seq<Step>): State
    requires Runs(s, steps)
    decreases |steps|
  {
    if steps == [] then s else After(Apply(s, steps[0]), steps[1..])
  }

  // ----- what every step keeps -----

  /** The stream a tunnel answers for: its own, or the one it is about to stop. */
  function Owned(tunnel: Tunnel): Id {
    if tunnel.phase.Closing? then tunnel.phase.id else tunnel.id
  }

  /** A tunnel between calls is started exactly when it has a stream, and its stream is in the table. */
  predicate TunnelFits(tunnel: Tunnel, table: set<Id>) {
    match tunnel.phase
    case Free => (tunnel.started <==> tunnel.id != 0) && (tunnel.id != 0 ==> tunnel.id in table)
    case Starting => tunnel.started && tunnel.id != 0 && tunnel.id !in table
    case Opening => tunnel.started && tunnel.id != 0 && tunnel.id !in table
    case Failing => tunnel.started && tunnel.id != 0 && tunnel.id !in table
    case Closing(id, _) => !tunnel.started && tunnel.id == 0 && (id != 0 ==> id in table)
  }

  predicate Distinct(s: State) {
    forall t, u | t in s.tunnels && u in s.tunnels && t != u ::
      Owned(s.tunnels[t]) != 0 ==> Owned(s.tunnels[t]) != Owned(s.tunnels[u])
  }

  predicate AllFit(s: State) {
    forall t | t in s.tunnels :: TunnelFits(s.tunnels[t], s.table) && Owned(s.tunnels[t]) < s.nextId
  }

  /** Every stream in the table is answered for by a tunnel. */
  predicate TableOwned(s: State) {
    forall id | id in s.table :: exists t | t in s.tunnels :: Owned(s.tunnels[t]) == id
  }

  predicate HandlesFit(s: State) {
    s.nextId > 0 && s.inserted == s.table + s.stopped && 0 !in s.table && s.table !! s.stopped &&
    (forall id | id in s.inserted :: id < s.nextId) &&
    (forall t | t in s.tunnels && s.tunnels[t].phase in {Starting, Opening, Failing} :: s.tunnels[t].id !in s.inserted)
  }

  predicate Inv(s: State) {
    Distinct(s) && AllFit(s) && TableOwned(s) && HandlesFit(s)
  }

  lemma StepKeepsDistinct(s: State, step: Step)
    requires Inv(s) && Enabled(s, step)
    ensures Distinct(Apply(s, step))
  {
    hide TableOwned, HandlesFit, TunnelFits;
  }

  lemma StepKeepsTunnel(s: State, step: Step, t: Handle)
    requires Inv(s) && Enabled(s, step) && t in Apply(s, step).tunnels
    ensures TunnelFits(Apply(s, step).tunnels[t], Apply(s, step).table)
    ensures Owned(Apply(s, step).tunnels[t]) < Apply(s, step).nextId
  {
    hide TableOwned;
    if t in s.tunnels {
      assert TunnelFits(s.tunnels[t], s.table) && Owned(s.tunnels[t]) < s.nextId;
      hide AllFit;
    }
  }

  lemma StepKeepsFit(s: State, step: Step)
    requires Inv(s) && Enabled(s, step)
    ensures AllFit(Apply(s, step))
  {
    hide Inv, Apply, Enabled, TunnelFits, Owned;
    forall t | t in Apply(s, step).tunnels
      ensures TunnelFits(Apply(s, step).tunnels[t], Apply(s, step).table) && Owned(Apply(s, step).tunnels[t]) < Apply(s, step).nextId
    {
      StepKeepsTunnel(s, step, t);
    }
  }

  /** Who answers for a stream goes on doing so until the stream leaves the table. */
  lemma StepKeepsOwned(s: State, step: Step)
    requires Inv(s) && Enabled(s, step)
    ensures TableOwned(Apply(s, step))
  {
    hide Distinct;
    var u := Apply(s, step);
    forall id | id in u.table ensures exists t | t in u.tunnels :: Owned(u.tunnels[t]) == id {
      if step.Insert? && id == s.tunnels[step.t].id {
        assert Owned(u.tunnels[step.t]) == id;
      } else {
        var t :| t in s.tunnels && Owned(s.tunnels[t]) == id;
        hide TableOwned;
        assert TunnelFits(s.tunnels[t], s.table);
        assert t in u.tunnels && Owned(u.tunnels[t]) == id;
      }
    }
  }

  lemma StepKeepsHandles(s: State, step: Step)
    requires Inv(s) && Enabled(s, step)
    ensures HandlesFit(Apply(s, step))
  {
    hide TableOwned;
  }

  lemma StepKeeps(s: State, step: Step)
    requires Inv(s) && Enabled(s, step)
    ensures Inv(Apply(s, step))
  {
    hide Enabled, Apply, Distinct, AllFit, TableOwned, HandlesFit;
    StepKeepsDistinct(s, step);
    StepKeepsFit(s, step);
    StepKeepsOwned(s, step);
    StepKeepsHandles(s, step);
  }

  lemma {:induction false} RunKeeps(s: State, steps: seq<Step>)
    requires Inv(s) && Runs(s, steps)
    ensures Inv(After(s, steps))
    decreases |steps|
  {
    hide Enabled, Apply, Inv;
    if steps != [] {
      StepKeeps(s, steps[0]);
      RunKeeps(Apply(s, steps[0]), steps[1..]);
    }
  }

  /** The non-zero stream ids that live tunnels answer for. */
  function LiveIds(s: State): set<Id> {
    set t | t in s.tunnels && Owned(s.tunnels[t]) != 0 :: Owned(s.tunnels[t])
  }

  predicate Quiet(s: State) {
    forall t | t in s.tunnels :: s.tunnels[t].phase == Free
  }

  /**
   Between calls the keys of the table are exactly the non-zero stream ids of the live tunnels, no
   two tunnels share one, and a tunnel is started exactly when its id is not zero.  Every handle
   ever inserted is in the table or has its stop flag set.
   */
  lemma TableMatchesTunnels(steps: seq<Step>)
    requires Runs(INIT, steps) && Quiet(After(INIT, steps))
    ensures var s := After(INIT, steps);
            && s.table == LiveIds(s)
            && (forall t | t in s.tunnels :: s.tunnels[t].started <==> s.tunnels[t].id != 0)
            && (forall t, u | t in s.tunnels && u in s.tunnels && s.tunnels[t].id == s.tunnels[u].id != 0 :: t == u)
            && s.inserted == s.table + s.stopped && s.table !! s.stopped
  {
    RunKeeps(INIT, steps);
    hide Runs, After;
  }

  /** Half-way through calls, the table misses only streams still being started. */
  lemma TableDuringCalls(steps: seq<Step>)
    requires Runs(INIT, steps)
    ensures var s := After(INIT, steps);
            && s.table == (set t | t in s.tunnels && Owned(s.tunnels[t]) != 0 && s.tunnels[t].phase !in {Starting, Opening, Failing} :: Owned(s.tunnels[t]))
  {
    RunKeeps(INIT, steps);
    hide Runs, After;
    var s := After(INIT, steps);
    var ids := set t | t in s.tunnels && Owned(s.tunnels[t]) != 0 && s.tunnels[t].phase !in {Starting, Opening, Failing} :: Owned(s.tunnels[t]);
    forall id | id in s.table ensures id in ids {
      var t :| t in s.tunnels && Owned(s.tunnels[t]) == id;
      assert TunnelFits(s.tunnels[t], s.table);
    }
  }

  /** Destroying all tunnels leaves the table empty, with every worker told to stop. */
  lemma DestroyedLeavesNothing(steps: seq<Step>)
    requires Runs(INIT, steps) && After(INIT, steps).tunnels == map[]
    ensures After(INIT, steps).table == {} && After(INIT, steps).stopped == After(INIT, steps).inserted
  {
    TableMatchesTunnels(steps);
    hide Runs, After;
    assert LiveIds(After(INIT, steps)) == {};
  }

  // ----- what one call brings about, whatever other tunnels do meanwhile -----

  predicate OnlyOthers(steps: seq<Step>, t: Handle) {
    forall i | 0 <= i < |steps| :: steps[i].t != t
  }

  /** The tunnel and its stream are as they were. */
  predicate Spared(s: State, u: State, t: Handle)
    requires t in s.tunnels
  {
    && t in u.tunnels && u.tunnels[t] == s.tunnels[t] && s.nextId <= u.nextId
    && (Owned(s.tunnels[t]) != 0 ==>
          (Owned(s.tunnels[t]) in u.table <==> Owned(s.tunnels[t]) in s.table) &&
          (Owned(s.tunnels[t]) in u.stopped <==> Owned(s.tunnels[t]) in s.stopped))
  }

  lemma OtherStep(s: State, step: Step, t: Handle)
    requires Inv(s) && Enabled(s, step) && step.t != t && t in s.tunnels
    ensures Spared(s, Apply(s, step), t)
  {
    hide AllFit, TableOwned, HandlesFit;
  }

  lemma {:induction false} OthersRun(s: State, steps: seq<Step>, t: Handle)
    requires Inv(s) && Runs(s, steps) && OnlyOthers(steps, t) && t in s.tunnels
    ensures Spared(s, After(s, steps), t)
    decreases |steps|
  {
    if steps != [] {
      hide Enabled, Apply, Inv;
      StepKeeps(s, steps[0]);
      OtherStep(s, steps[0], t);
      OthersRun(Apply(s, steps[0]), steps[1..], t);
    }
  }

  /** A start call that ends well leaves the tunnel with a stream of its own, never used before, in the table. */
  lemma StartedVideo(s: State, t: Handle, a: seq<Step>, b: seq<Step>)
    requires Inv(s) && Enabled(s, StartVideo(t)) && !s.tunnels[t].started
    requires Runs(Apply(s, StartVideo(t)), a) && OnlyOthers(a, t)
    requires Enabled(After(Apply(s, StartVideo(t)), a), StopFirst(t))
    requires Runs(Apply(After(Apply(s, StartVideo(t)), a), StopFirst(t)), b) && OnlyOthers(b, t)
    requires Enabled(After(Apply(After(Apply(s, StartVideo(t)), a), StopFirst(t)), b), Insert(t))
    ensures var end := Apply(After(Apply(After(Apply(s, StartVideo(t)), a), StopFirst(t)), b), Insert(t));
            && end.tunnels[t] == Tunnel(true, s.nextId, Free)
            && s.nextId != 0 && s.nextId !in s.inserted && s.nextId in end.table && s.nextId in end.inserted
  {
    hide Runs, After, Inv, OnlyOthers, TunnelFits;
    Fresh(s);
    var begun := Apply(s, StartVideo(t));
    StepKeeps(s, StartVideo(t));
    OthersRun(begun, a, t);
    RunKeeps(begun, a);
    StepKeeps(After(begun, a), StopFirst(t));
    OthersRun(Apply(After(begun, a), StopFirst(t)), b, t);
  }

  lemma Fresh(s: State)
    requires Inv(s)
    ensures s.nextId != 0 && s.nextId !in s.inserted
  {
  }

  /** A start call that is refused leaves the tunnel without a stream and puts none in the table. */
  lemma RefusedVideo(s: State, t: Handle, a: seq<Step>)
    requires Inv(s) && Enabled(s, Refuse(t))
    requires Runs(Apply(s, Refuse(t)), a) && OnlyOthers(a, t)
    requires Enabled(After(Apply(s, Refuse(t)), a), Reset(t))
    ensures var end := Apply(After(Apply(s, Refuse(t)), a), Reset(t));
            end.tunnels[t] == Tunnel(false, 0, Free) && s.tunnels[t].id != 0 && s.tunnels[t].id !in end.table
  {
    hide Runs, After, OnlyOthers, Distinct, TableOwned, HandlesFit;
    assert TunnelFits(s.tunnels[t], s.table);
    StepKeeps(s, Refuse(t));
    OthersRun(Apply(s, Refuse(t)), a, t);
  }

  /** A close leaves the tunnel without a stream, takes its stream out of the table and tells its worker to stop. */
  lemma ClosedVideo(s: State, t: Handle, destroy: bool, a: seq<Step>)
    requires Inv(s) && Enabled(s, BeginClose(t, destroy))
    requires Runs(Apply(s, BeginClose(t, destroy)), a) && OnlyOthers(a, t)
    requires Enabled(After(Apply(s, BeginClose(t, destroy)), a), FinishClose(t))
    ensures var id := s.tunnels[t].id;
            var end := Apply(After(Apply(s, BeginClose(t, destroy)), a), FinishClose(t));
            && (if destroy then t !in end.tunnels else t in end.tunnels && end.tunnels[t] == Tunnel(false, 0, Free))
            && (s.tunnels[t].started ==> id != 0 && id in s.table && id !in end.table && id in end.stopped)
  {
    hide Runs, After, OnlyOthers, Distinct, TableOwned, HandlesFit;
    assert TunnelFits(s.tunnels[t], s.table);
    StepKeeps(s, BeginClose(t, destroy));
    OthersRun(Apply(s, BeginClose(t, destroy)), a, t);
  }

  lemma ThreeSteps(s: State, a: Step, b: Step, c: Step)
    requires Enabled(s, a) && Enabled(Apply(s, a), b) && Enabled(Apply(Apply(s, a), b), c)
    ensures Runs(s, [a, b, c]) && After(s, [a, b, c]) == Apply(Apply(Apply(s, a), b), c)
  {
    hide Enabled, Apply;
    assert [a, b, c][1..] == [b, c] && [b, c][1..] == [c] && [c][1..] == [];
    var t := Apply(Apply(s, a), b);
    assert Runs(t, [c]) && After(t, [c]) == Apply(t, c);
  }

  /** An idle tunnel without video can be started, and a started one closed, in calls that run to their end. */
  lemma CallsEnd(s: State, t: Handle)
    requires Inv(s) && At(s, t, Free)
    ensures !s.tunnels[t].started ==>
              var steps := [StartVideo(t), StopFirst(t), Insert(t)];
              Runs(s, steps) && At(After(s, steps), t, Free) && After(s, steps).tunnels[t].started
    ensures !s.tunnels[t].started ==> Enabled(Apply(Apply(s, StartVideo(t)), StopFirst(t)), Refuse(t))
    ensures s.tunnels[t].started ==> Apply(s, StartVideo(t)) == s
    ensures Enabled(Apply(s, BeginClose(t, false)), FinishClose(t)) && Enabled(Apply(s, BeginClose(t, true)), FinishClose(t))
  {
    hide Inv, Runs, After;
    if !s.tunnels[t].started {
      ThreeSteps(s, StartVideo(t), StopFirst(t), Insert(t));
    }
  }
}
