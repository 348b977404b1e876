/** Whole runs of the controller: quiescence and agreement after every submission, exactly when a single
    switch can break agreement, and the stability of a completed switch. */
module Runs {
  import opened Model
  import opened Backends
  import opened ControllerState
  import opened PathSelection
  import opened SelectionLaws
  import opened HoldDownLaws
  import opened Traces
  import opened Rounds
  import opened Transition
  import opened ControllerLoop
  import opened TrafficKeys
  import opened Tables

  /** Starting from agreement, a switch leaves the applied table and the forwarding backend in agreement on
      every key, except exactly when the backend installed the target and withdrew it again and did not put
      the previous path back. */
  lemma AgreementExactly(sw: Switch, w: World, w': World, room: nat, trace: seq<Call>, err: ErrorCode, state: TransitionState)
    requires SwitchOutcome(sw, w, w', room, room, Observe(sw, trace), err, state)
    requires w.applied == w.active
    requires sw.previous == (if sw.key in w.applied then w.applied[sw.key] else "") && sw.previous != sw.target
    ensures w'.applied == w'.active <==>
            !(Installed(sw.key, sw.target, true) in trace && Withdrawn(sw.key, sw.target, true) in trace &&
              Installed(sw.key, sw.previous, true) !in trace)
  {
    hide Observe;
    ProgressIsCalls(sw, trace);
    var q := Observe(sw, trace);
    if q.restored {
      assert w.active[sw.key := sw.previous] == w.active;
    } else if q.served && q.withdrawn {
      assert sw.key in w'.applied && sw.key !in w'.active;
    }
  }

  /** The table and the forwarding backend say the same about one key. */
  ghost predicate AgreesAt(w: World, key: Id) {
    AppliedPath(w.applied, key) == AppliedPath(w.active, key)
  }

  /** What a switch leaves of a key that has an applied path, whatever the two said before: agreement, if the
      switch was completed or undone; otherwise it is up to whether the target was installed and kept, and,
      where it was never installed, nothing is gained or lost. */
  lemma KeyAgreementExactly(sw: Switch, w: World, w': World, capacity: nat, room: nat, trace: seq<Call>, err: ErrorCode, state: TransitionState)
    requires SwitchOutcome(sw, w, w', capacity, room, Observe(sw, trace), err, state)
    requires sw.key in w.applied && sw.previous == w.applied[sw.key] && sw.previous != sw.target
    ensures AgreesAt(w', sw.key) <==>
            (state == Idle ||
             if Installed(sw.key, sw.target, true) in trace then Withdrawn(sw.key, sw.target, true) !in trace
             else AgreesAt(w, sw.key))
  {
    hide Observe;
    ProgressIsCalls(sw, trace);
  }

  /** Whatever the outcome, the other traffic keys keep their applied and their served path, and no tunnel
      goes down that is not used by exactly one of the two paths. */
  lemma OtherKeysUntouched(sw: Switch, w: World, w': World, capacity: nat, room: nat, q: Progress, err: ErrorCode, state: TransitionState, k: Id)
    requires SwitchOutcome(sw, w, w', capacity, room, q, err, state) && k != sw.key
    ensures AppliedPath(w'.applied, k) == AppliedPath(w.applied, k)
    ensures AppliedPath(w'.active, k) == AppliedPath(w.active, k)
    ensures w.up - (sw.targetTunnels - sw.previousTunnels) - (sw.previousTunnels - sw.targetTunnels) <= w'.up
  {
    if err != ErrNone && state == Idle {
      assert w'.active == w.active[sw.key := sw.previous];
    } else if state == Failed {
      var active := if q.served then w.active[sw.key := sw.target] else w.active;
      assert k in active <==> k in w.active;
      assert k in w'.active <==> k in active;
    } else {
      assert w'.active == w.active[sw.key := sw.target];
    }
  }

  /** Cleaning up looks at the two paths of the switch only (src/transition.c:319-331): after a completed
      switch that removes tunnels, the path of another traffic key still has all of its tunnels exactly if
      it shares none with what the previous path used and the target does not. */
  lemma OtherKeysTunnels(sw: Switch, w: World, w': World, capacity: nat, room: nat, q: Progress, state: TransitionState,
                         tunnels: set<Id>, observed: set<Id>)
    requires SwitchOutcome(sw, w, w', capacity, room, q, ErrNone, state)
    requires (sw.previousTunnels - sw.targetTunnels) * observed !! w'.up
    requires tunnels <= w.up && tunnels <= observed
    ensures tunnels <= w'.up <==> tunnels !! sw.previousTunnels - sw.targetTunnels
  {
    forall t | t in tunnels && t in sw.previousTunnels - sw.targetTunnels ensures t !in w'.up {
      assert t in (sw.previousTunnels - sw.targetTunnels) * observed;
    }
  }

  /** The applied table and the forwarding backend hold the same path for every key. */
  ghost predicate Agreement(c: Controller)
    reads c.applied`paths, c.net.vpp`active
  {
    c.applied.paths == c.net.vpp.active
  }

  /** Failures that the retries make up for do no harm: if no phase meets more of them than it has retries, and the
      clean-up goes through, the switch is done, whichever calls failed and in whatever order. */
  method SwitchDespiteFailures(c: Controller, intent: Intent, t: nat) returns (err: ErrorCode, ghost sw: Switch)
    requires c.Shape() && c.Backing() && t < |c.paths| && PolicyValid(intent.transition)
    requires AppliedPath(c.applied.paths, TrafficKey(intent.traffic)) != Some(c.paths[t].pathId)
    requires |c.applied.paths| < c.applied.capacity
    requires Roomy(c.observed.Keys, c.paths[t]) && c.net.offers.validatePath && c.net.offers.installPath
    requires intent.transition.strategy != FlowPreserve
    modifies c`transitionState, c`opState, c`observed, c`health, c.net`up, c.net`trace
    modifies c.net.vpp, c.net.vpp.trafficKeys, c.net.vpp.activePaths
    modifies c.applied, c.applied.trafficKeys, c.applied.appliedPaths, c.applied.appliedSinceMs
    ensures c.Shape() && c.Backing() && sw == old(SwitchOf(c, TrafficKey(intent.traffic), t))
    ensures (forall phase :: Failures(sw, phase, c.net.trace) <= intent.transition.retryCount as int) &&
            (forall i :: 0 <= i < |c.net.trace| ==> !IsCleanup(sw, c.net.trace[i], false)) ==>
              && err == ErrNone && c.transitionState == Idle
              && c.applied.paths == old(c.applied.paths)[TrafficKey(intent.traffic) := c.paths[t].pathId]
              && TrafficKey(intent.traffic) in c.net.vpp.active && c.net.vpp.active[TrafficKey(intent.traffic)] == c.paths[t].pathId
  {
    hide Represents, Observe, Bounded, TrafficKey, Smooth, Mute, AlwaysWithdraws, Activated, Conducted, Timed, Roomy, IsCleanup, Failures;
    sw := SwitchOf(c, TrafficKey(intent.traffic), t);
    ghost var s := SettingOf(c, sw, intent.transition, t);
    err := TransitionPath(c, intent, t, sw);
    if (forall phase :: Failures(sw, phase, c.net.trace) <= intent.transition.retryCount as int) &&
       (forall i :: 0 <= i < |c.net.trace| ==> !IsCleanup(sw, c.net.trace[i], false))
    {
      RetriesSuffice(s, c.net.trace, err);
    }
  }

  /** A first path for a key on a backend that does everything it is told but never says what it serves: it is
      installed, cannot be confirmed, and is withdrawn. The table goes on recording a path that nothing serves. */
  method FirstPathUnconfirmed(c: Controller, intent: Intent, t: nat) returns (err: ErrorCode)
    requires c.Shape() && c.Backing() && t < |c.paths| && PolicyValid(intent.transition)
    requires c.net.vpp.capacity == c.applied.capacity && Agreement(c)
    requires TrafficKey(intent.traffic) !in c.applied.paths
    requires Smooth(c, intent.transition, TrafficKey(intent.traffic), t) && Mute(c) && AlwaysWithdraws(c)
    modifies c`transitionState, c`opState, c`observed, c`health, c.net`up, c.net`trace
    modifies c.net.vpp, c.net.vpp.trafficKeys, c.net.vpp.activePaths
    modifies c.applied, c.applied.trafficKeys, c.applied.appliedPaths, c.applied.appliedSinceMs
    ensures c.Shape() && c.Backing()
    ensures err != ErrNone && c.transitionState == Failed
    ensures c.applied.paths == old(c.applied.paths)[TrafficKey(intent.traffic) := c.paths[t].pathId]
    ensures c.net.vpp.active == old(c.net.vpp.active)
  {
    hide Represents, Observe, Bounded, TrafficKey, Smooth, Mute, AlwaysWithdraws, Activated;
    ghost var sw, before := SwitchOf(c, TrafficKey(intent.traffic), t), WorldOf(c);
    err := TransitionPath(c, intent, t, sw);
    UnconfirmedOutcome(sw, before, WorldOf(c), c.applied.capacity, Observe(sw, c.net.trace), err, c.transitionState);
  }

  lemma UnconfirmedOutcome(sw: Switch, w: World, w': World, room: nat, q: Progress, err: ErrorCode, state: TransitionState)
    requires SwitchOutcome(sw, w, w', room, room, q, err, state) && err != ErrNone && q.served && q.withdrawn
    requires w.applied == w.active && sw.key !in w.applied && sw.previous == ""
    ensures state == Failed && w'.applied == w.applied[sw.key := sw.target] && w'.active == w.active
  {
    assert w.active[sw.key := sw.target] - {sw.key} == w.active;
  }

  /** For example: any usable path, as the first one of a new controller. */
  method AgreementCanFail(nodes: seq<Node>, paths: seq<Path>, tunnels: seq<Tunnel>, intent: Intent, t: nat) returns (c: Controller, err: ErrorCode)
    requires (forall i :: 0 <= i < |paths| ==> PathCountsValid(paths[i]) && paths[i].pathId != "") && t < |paths|
    requires PolicyValid(intent.transition) && intent.transition.strategy != FlowPreserve && |paths[t].Tunnels()| <= MAX_TUNNELS
    ensures err != ErrNone && c.transitionState == Failed
    ensures c.applied.paths == map[TrafficKey(intent.traffic) := paths[t].pathId] && c.net.vpp.active == map[]
  {
    hide Represents, TrafficKey;
    var vpp := new VppMockAdapter.VppMock(MAX_CANDIDATES);
    var net := new Network(vpp, Offers(true, true, true, true, true), Faults(false, false, false, false, true, true, false), false);
    c := new Controller(nodes, paths, tunnels, net);
    assert c.observed.Keys + paths[t].Tunnels() == paths[t].Tunnels();
    err := FirstPathUnconfirmed(c, intent, t);
  }

  /** A switch keeps agreement if it cannot fail once the target is installed. */
  lemma AgreementKept(sw: Switch, w: World, w': World, room: nat, trace: seq<Call>, err: ErrorCode, state: TransitionState)
    requires SwitchOutcome(sw, w, w', room, room, Observe(sw, trace), err, state)
    requires w.applied == w.active
    requires sw.previous == (if sw.key in w.applied then w.applied[sw.key] else "") && sw.previous != sw.target
    requires state == Failed ==> !Observe(sw, trace).served
    ensures w'.applied == w'.active
  {
    hide Observe;
    ProgressIsCalls(sw, trace);
    AgreementExactly(sw, w, w', room, trace, err, state);
  }

  /** One submission on backends that never fail to remove and answer truthfully keeps agreement, whichever
      tunnel, validation or install call fails, and however full the tables are. */
  method SubmitKeepsAgreement(c: Controller, intent: Intent, clock: Clock) returns (err: ErrorCode)
    requires c.Shape() && c.Backing() && Reliable(c) && c.net.vpp.capacity == c.applied.capacity
    requires c.transitionState in {Idle, Failed} && Agreement(c)
    modifies c`transitionState, c`opState, c`observed, c`health, c`intents, c.net`up, c.net`trace
    modifies c.net.vpp, c.net.vpp.trafficKeys, c.net.vpp.activePaths
    modifies c.applied, c.applied.trafficKeys, c.applied.appliedPaths, c.applied.appliedSinceMs
    ensures c.Shape() && c.Backing() && Agreement(c)
    ensures c.transitionState in {Idle, Failed} && (err == ErrNone ==> c.transitionState == Idle)
  {
    hide Represents, Observe, SwitchOutcome, TrafficKey, Choose, Bounded, Activated, Settled;
    ghost var before := WorldOf(c);
    var result;
    ghost var step, view, sw;
    err, result, step, view, sw := SubmitIntent(c, intent, clock);
    if step == Switched {
      AgreementKept(sw, before, WorldOf(c), c.applied.capacity, c.net.trace, err, c.transitionState);
    }
  }

  /** Every run: after any sequence of submissions, with telemetry changing in between as it likes, the
      controller is idle or failed and agrees with the forwarding backend on every traffic key. */
  method Run(c: Controller, intents: seq<Intent>, clocks: nat -> Clock)
    requires c.Shape() && c.Backing() && Reliable(c) && c.net.vpp.capacity == c.applied.capacity
    requires c.transitionState in {Idle, Failed} && Agreement(c)
    modifies c`transitionState, c`opState, c`observed, c`health, c`intents, c.net`up, c.net`trace, c.net`telemetry
    modifies c.net.vpp, c.net.vpp.trafficKeys, c.net.vpp.activePaths
    modifies c.applied, c.applied.trafficKeys, c.applied.appliedPaths, c.applied.appliedSinceMs
    ensures c.Shape() && c.Backing()
    ensures c.transitionState in {Idle, Failed} && Agreement(c)
  {
    hide Represents;
    for i := 0 to |intents|
      invariant c.Shape() && c.Backing()
      invariant c.transitionState in {Idle, Failed} && Agreement(c)
    {
      c.net.telemetry := *;
      var err := SubmitKeepsAgreement(c, intents[i], clocks(i));
    }
  }

  /** A fresh controller on the mock adapters starts every such run. */
  method RunOnMocks(nodes: seq<Node>, paths: seq<Path>, tunnels: seq<Tunnel>, requireObservations: bool, intents: seq<Intent>, clocks: nat -> Clock) returns (c: Controller)
    requires forall i :: 0 <= i < |paths| ==> PathCountsValid(paths[i]) && paths[i].pathId != ""
    ensures c.Shape() && c.Backing()
    ensures c.transitionState in {Idle, Failed} && Agreement(c)
  {
    hide Represents;
    var vpp := new VppMockAdapter.VppMock(MAX_CANDIDATES);
    var net := new Network(vpp, Offers(true, true, true, true, true), Faults(false, false, true, false, false, false, false), requireObservations);
    c := new Controller(nodes, paths, tunnels, net);
    Run(c, intents, clocks);
  }

  // ----- a completed switch is stable -----

  /** The controller is where a completed switch from view `v` to `b` leaves it: `b` is applied, the telemetry
      is what `v` saw, and no other path was released from standby. */
  ghost predicate SwitchedFrom(v: View, c: Controller, key: Id, b: Id)
    reads c`opState, c`health, c.applied`paths
  {
    && v.Valid() && v.nodes == c.nodes && v.paths == c.paths && |c.opState| == |c.paths| && v.health == ReadingsOf(c.health)
    && AppliedPath(c.applied.paths, key) == Some(b)
    && forall i :: 0 <= i < |v.paths| && v.paths[i].pathId != b && v.opState[i] == PathStandby ==> c.opState[i] == PathStandby
  }

  lemma SwitchKeepsStandby(v: View, after: seq<PathState>, b: Id, previous: Id, t: nat)
    requires v.Valid() && FindPath(v.paths, b) == Some(t) && Activated(v.opState, after, t, FindPath(v.paths, previous))
    ensures |after| == |v.paths|
    ensures forall i :: 0 <= i < |v.paths| && v.paths[i].pathId != b && v.opState[i] == PathStandby ==> after[i] == PathStandby
  {
  }

  lemma SucceededStores(sw: Switch, w: World, w': World, capacity: nat, room: nat, q: Progress, state: TransitionState)
    requires SwitchOutcome(sw, w, w', capacity, room, q, ErrNone, state)
    requires sw.key in w.applied || |w.applied| < room
    ensures AppliedPath(w'.applied, sw.key) == Some(sw.target) && AppliedPath(w'.active, sw.key) == Some(sw.target)
  {
  }

  /** The path an explicit selection asks for is among those it observes; it need not be when there is a
      candidate list as well. */
  predicate ObservesChoice(paths: seq<Path>, sel: Selection) {
    sel.mode == Explicit ==> sel.pathId in ObservedIds(paths, sel)
  }

  /** Whatever such a selection chooses has been observed. */
  lemma ChosenIsObserved(v: View, clock: Clock, sel: Selection, b: Id)
    requires v.Valid() && Choose(v, clock, sel) == Chosen(b) && ObservesChoice(v.paths, sel)
    ensures b in ObservedIds(v.paths, sel)
  {
    ChosenIsSound(v, clock, sel, b);
  }

  /** An intent that was accepted and observed once is not turned away when it comes again. */
  lemma NotRefused(c: Controller, intents: seq<Intent>, intent: Intent)
    requires IntentCountsValid(intent) && PolicyValid(intent.transition) && intent in intents
    requires c.net.offers.validatePath && !c.net.faults.validatePath && ObservesChoice(c.paths, intent.selection)
    requires forall id :: id in ObservedIds(c.paths, intent.selection) ==> FindPath(c.paths, id).Some?
    ensures !MayRefuse(c, intents, intent)
  {
    var k :| 0 <= k < |intents| && intents[k] == intent;
    assert intents[k].intentId == intent.intentId;
  }

  /** Selection has moved to `b` in view `v`, by readings on one side of the hold-down, and the controller has
      stood there since. */
  ghost predicate StandsAt(c: Controller, intent: Intent, v: View, clock: Clock, b: Id)
    reads c, c.applied`paths, c.net`telemetry
  {
    && IntentCountsValid(intent) && PolicyValid(intent.transition) && intent in c.intents
    && (forall id :: id in ObservedIds(c.paths, intent.selection) ==> FindPath(c.paths, id).Some? && Settled(c, c.Readings(), id))
    && SwitchedFrom(v, c, TrafficKey(intent.traffic), b)
    && Choose(v, clock, intent.selection) == Chosen(b) && b != "" && !v.Active(b) && b in ObservedIds(c.paths, intent.selection)
    && Unsplit(v, intent.selection.constraints.holdDownMs, clock, |intent.selection.candidates|)
  }

  /** Submitting again, by whatever the clock reads now, keeps the path where selection has `moved`. */
  method SubmitAgain(c: Controller, intent: Intent, clock': Clock, ghost moved: bool, ghost v: View, ghost clock: Clock, ghost b: Id)
    returns (err: ErrorCode, ghost step: Step)
    requires c.Shape() && c.Backing() && c.transitionState in {Idle, Failed}
    requires !c.net.faults.validatePath && c.net.offers.validatePath && ObservesChoice(c.paths, intent.selection)
    requires moved ==> StandsAt(c, intent, v, clock, b)
    modifies c`transitionState, c`opState, c`observed, c`health, c`intents, c.net`up, c.net`trace
    modifies c.net.vpp, c.net.vpp.trafficKeys, c.net.vpp.activePaths
    modifies c.applied, c.applied.trafficKeys, c.applied.appliedPaths, c.applied.appliedSinceMs
    ensures c.Shape() && c.Backing() && c.transitionState in {Idle, Failed}
    ensures moved ==>
              && err == ErrNone && step == Maintained && c.transitionState == Idle
              && Untouched(c) && OnlyValidates([], c.net.trace)
              && StandsAt(c, intent, v, clock, b)
  {
    hide Represents, Observe, SwitchOutcome, TrafficKey, Choose, Bounded, Activated, Settled, Remembered, ReadingsOf, OnlyValidates;
    hide MayRefuse, RequestsUnknown, SegmentCount, ProbeReading, ObservedIds, IntentCountsValid, Unsplit;
    hide ObservesChoice, PathCountsValid, SwitchTried, Smooth, Reliable, WithIntent, Controller.Backing, ObservedSet, FindPath;
    if moved { NotRefused(c, c.intents, intent); }
    WithIntentKeeps(c.intents, intent);
    var result;
    ghost var view, sw;
    err, result, step, view, sw := SubmitIntent(c, intent, clock');
    if moved { NoFlapping(v, clock, view, clock', intent.selection, b); }
  }

  /** The same, any number of times. */
  method Again(c: Controller, intent: Intent, later: seq<Clock>, ghost moved: bool, ghost v: View, ghost clock: Clock, ghost b: Id)
    returns (errors: seq<ErrorCode>, ghost steps: seq<Step>)
    requires c.Shape() && c.Backing() && c.transitionState in {Idle, Failed}
    requires !c.net.faults.validatePath && c.net.offers.validatePath && ObservesChoice(c.paths, intent.selection)
    requires moved ==> StandsAt(c, intent, v, clock, b)
    modifies c`transitionState, c`opState, c`observed, c`health, c`intents, c.net`up, c.net`trace
    modifies c.net.vpp, c.net.vpp.trafficKeys, c.net.vpp.activePaths
    modifies c.applied, c.applied.trafficKeys, c.applied.appliedPaths, c.applied.appliedSinceMs
    ensures c.Shape() && c.Backing()
    ensures |errors| == |steps| == |later|
    ensures moved ==>
              && (forall k :: 0 <= k < |later| ==> errors[k] == ErrNone && steps[k] == Maintained)
              && WorldOf(c) == old(WorldOf(c)) && (|later| > 0 ==> OnlyValidates([], c.net.trace))
              && (|later| > 0 || old(c.transitionState) == Idle ==> c.transitionState == Idle)
  {
    hide Represents, StandsAt, OnlyValidates;
    errors, steps := [], [];
    for k := 0 to |later|
      invariant c.Shape() && c.Backing() && c.transitionState in {Idle, Failed}
      invariant |errors| == |steps| == k
      invariant moved ==>
                  && StandsAt(c, intent, v, clock, b)
                  && (forall j :: 0 <= j < k ==> errors[j] == ErrNone && steps[j] == Maintained)
                  && WorldOf(c) == old(WorldOf(c)) && (k > 0 ==> OnlyValidates([], c.net.trace))
                  && (k > 0 || old(c.transitionState) == Idle ==> c.transitionState == Idle)
    {
      var err;
      ghost var step;
      err, step := SubmitAgain(c, intent, later[k], moved, v, clock, b);
      errors, steps := errors + [err], steps + [step];
    }
  }

  /** A completed switch to `b` stands. */
  lemma MovedStands(c: Controller, intent: Intent, v: View, clock: Clock, b: Id, before: seq<PathState>, previous: Id, t: nat)
    requires IntentCountsValid(intent) && PolicyValid(intent.transition) && intent in c.intents && ObservesChoice(c.paths, intent.selection)
    requires forall id :: id in ObservedIds(c.paths, intent.selection) ==> FindPath(c.paths, id).Some? && Settled(c, v.health, id)
    requires v.Valid() && v.nodes == c.nodes && v.paths == c.paths && v.opState == before
    requires b in ObservedIds(c.paths, intent.selection) ==> c.Readings() == v.health
    requires Choose(v, clock, intent.selection) == Chosen(b) && FindPath(c.paths, b) == Some(t) && c.Shape()
    requires !v.Active(b) && AppliedPath(c.applied.paths, TrafficKey(intent.traffic)) == Some(b)
    requires Activated(before, c.opState, t, FindPath(c.paths, previous))
    requires SameSide(v.appliedSinceMs, intent.selection.constraints.holdDownMs, clock, |intent.selection.candidates|)
    ensures StandsAt(c, intent, v, clock, b)
  {
    hide Choose, Activated, Settled, ReadingsOf, SameSide, Unsplit, TrafficKey, IntentCountsValid;
    ChosenIsObserved(v, clock, intent.selection, b);
    SwitchKeepsStandby(v, c.opState, b, previous, t);
    SameSideIsUnsplit(v, intent.selection.constraints.holdDownMs, clock, |intent.selection.candidates|);
  }

  /** No flapping, end to end: when a submission that observes what it may choose has completed a switch, and the
      clock was not read on both sides of the hold-down of the path before, then submitting the same intent
      again any number of times under unchanged telemetry, whatever the clock reads, keeps the path and calls
      nothing but the health probe. */
  method Resubmit(c: Controller, intent: Intent, clock: Clock, later: seq<Clock>)
    returns (err: ErrorCode, ghost first: Step, errors: seq<ErrorCode>, ghost steps: seq<Step>, ghost selected: Id)
    requires c.Shape() && c.Backing() && c.transitionState in {Idle, Failed}
    requires !c.net.faults.validatePath && c.net.offers.validatePath && ObservesChoice(c.paths, intent.selection)
    requires TrafficKey(intent.traffic) in c.applied.paths || |c.applied.paths| < c.applied.capacity
    modifies c`transitionState, c`opState, c`observed, c`health, c`intents, c.net`up, c.net`trace
    modifies c.net.vpp, c.net.vpp.trafficKeys, c.net.vpp.activePaths
    modifies c.applied, c.applied.trafficKeys, c.applied.appliedPaths, c.applied.appliedSinceMs
    ensures c.Shape() && c.Backing()
    ensures |errors| == |steps| == |later|
    ensures err == ErrNone && first == Switched &&
            SameSide(old(SinceOf(c, TrafficKey(intent.traffic))), intent.selection.constraints.holdDownMs, clock, |intent.selection.candidates|) ==>
              && (forall k :: 0 <= k < |later| ==> errors[k] == ErrNone && steps[k] == Maintained)
              && AppliedPath(c.applied.paths, TrafficKey(intent.traffic)) == Some(selected)
              && AppliedPath(c.net.vpp.active, TrafficKey(intent.traffic)) == Some(selected)
              && (|later| > 0 ==> OnlyValidates([], c.net.trace))
              && c.transitionState == Idle
  {
    hide Represents, Observe, SwitchOutcome, TrafficKey, Choose, Bounded, Activated, Settled, Remembered, ReadingsOf, OnlyValidates;
    hide MayRefuse, RequestsUnknown, SegmentCount, ProbeReading, IntentCountsValid, SameSide, Unsplit, StandsAt, WithIntent, Reliable;
    hide ObservesChoice, PathCountsValid, Smooth;
    ghost var before := WorldOf(c);
    ghost var since := SinceOf(c, TrafficKey(intent.traffic));
    WithIntentKeeps(c.intents, intent);
    var result;
    ghost var view, sw;
    err, result, first, view, sw := SubmitIntent(c, intent, clock);
    selected := if result.Some? then result.value.selectedPath else "";
    ghost var moved := err == ErrNone && first == Switched &&
      SameSide(since, intent.selection.constraints.holdDownMs, clock, |intent.selection.candidates|);
    if moved {
      SucceededStores(sw, before, WorldOf(c), c.net.vpp.capacity, c.applied.capacity, Observe(sw, c.net.trace), c.transitionState);
      MovedStands(c, intent, view, clock, selected, view.opState, sw.previous, FindPath(c.paths, selected).value);
    }
    errors, steps := Again(c, intent, later, moved, view, clock, selected);
  }
}
