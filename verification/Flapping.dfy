/** The condition of `Runs.Resubmit` is needed: whenever two readings of the clock straddle the hold-down, a
    whole run of the controller flaps (src/path_selection.c:55-81, 143-150). */
module Flapping {
  import opened Model
  import opened VppMockAdapter
  import opened Backends
  import opened ControllerState
  import opened PathSelection
  import opened SelectionLaws
  import opened HoldDownLaws
  import opened Transition
  import opened ControllerLoop
  import opened Traces
  import opened Rounds
  import opened Runs
  import opened TrafficKeys
  import opened Tables

  /** Prefer "p" to "b" to "a", with this hold-down. */
  function Preferring(holdDownMs: int): Intent {
    Intent("i", Traffic("s", "d", None), false, false,
           Selection(Priority, "", ["p", "b", "a"], Constraints(None, None, None, 0, 0, holdDownMs, [], [], []), []),
           Policy(Immediate, 0, 0, 0, 0, 0), None)
  }

  function ThreePaths(): seq<Path> { [PathAt("a"), PathAt("p"), PathAt("b")] }

  lemma ThreeFound()
    ensures FindPath(ThreePaths(), "a") == Some(0) && FindPath(ThreePaths(), "p") == Some(1) && FindPath(ThreePaths(), "b") == Some(2)
  {
    assert ThreePaths()[0].pathId == "a" && ThreePaths()[1].pathId == "p" && ThreePaths()[2].pathId == "b";
  }

  /** Such an intent is not turned away. */
  lemma NotTurnedAway(c: Controller, holdDownMs: int, intents: seq<Intent>)
    requires c.paths == ThreePaths() && c.net.offers.validatePath && !c.net.faults.validatePath
    requires intents == [] || intents == WithIntent([], Preferring(holdDownMs))
    ensures !MayRefuse(c, intents, Preferring(holdDownMs))
  {
    var intent := Preferring(holdDownMs);
    ThreeFound();
    assert intents != [] ==> intents[0].intentId == intent.intentId;
    forall id | id in ObservedIds(c.paths, intent.selection) ensures FindPath(c.paths, id).Some? {
      assert id in {"p", "b", "a"};
    }
  }

  /** What the probe of an untouched network says. */
  const Default := Reading(HealthHealthy, 10.0, 0.0, 0, 3)

  /** All three paths were observed as healthy. */
  ghost predicate AllHealthy(health: map<Id, Reading>) {
    health == map["a" := Default, "p" := Default, "b" := Default]
  }

  lemma ProbedDefault(c: Controller, id: Id)
    requires c.paths == ThreePaths() && c.net.telemetry == map[] && id in {"p", "b", "a"}
    ensures FindPath(c.paths, id).Some? && ProbeReading(c, FindPath(c.paths, id).value) == Default
  {
    ThreeFound();
  }

  lemma HeldDefault(c: Controller, holdDownMs: int, health: map<Id, Reading>, id: Id)
    requires c.paths == ThreePaths() && c.net.telemetry == map[] && id in {"p", "b", "a"}
    requires AllSettled(c, Preferring(holdDownMs).selection, health) && |health| <= 3
    ensures id in health && health[id] == Default
  {
    hide ProbeReading, FindPath;
    ProbedDefault(c, id);
    var ids := Preferring(holdDownMs).selection.candidates;
    assert ids[0] == "p" && ids[1] == "b" && ids[2] == "a";
    assert id in ObservedIds(c.paths, Preferring(holdDownMs).selection);
    assert Settled(c, health, id);
    assert Remembered(health, id, Default) == health;
  }

  lemma ObservedHealthy(c: Controller, holdDownMs: int, health: map<Id, Reading>)
    requires c.paths == ThreePaths() && c.net.telemetry == map[]
    requires AllSettled(c, Preferring(holdDownMs).selection, health)
    requires health.Keys <= ObservedSet(c.paths, Preferring(holdDownMs).selection)
    ensures AllHealthy(health)
  {
    hide AllSettled;
    assert health.Keys <= {"p", "b", "a"};
    Cardinality(health.Keys, {"p", "b", "a"});
    HeldDefault(c, holdDownMs, health, "p");
    HeldDefault(c, holdDownMs, health, "b");
    HeldDefault(c, holdDownMs, health, "a");
  }

  lemma Cardinality(a: set<Id>, b: set<Id>)
    requires a <= b
    ensures |a| <= |b|
  {
    assert b == a + (b - a);
  }

  /** With "a" active the first free one of "p" and "b" is taken. */
  lemma TakesFree(v: View, clock: Clock, holdDownMs: int)
    requires v.Valid() && v.nodes == [] && v.paths == ThreePaths() && AllHealthy(v.health) && v.applied == Some("a")
    requires InHoldDown(v.appliedSinceMs, holdDownMs, clock(0)) && !InHoldDown(v.appliedSinceMs, holdDownMs, clock(1))
    ensures Choose(v, clock, Preferring(holdDownMs).selection) == Chosen("b")
  {
    hide Eligible, ExclusionReason;
    var sel := Preferring(holdDownMs).selection;
    assert v.paths[0].pathId == "a" && v.paths[1].pathId == "p" && v.paths[2].pathId == "b";
    PlainEligible(v, sel.constraints, "p", 1, clock(0));
    PlainEligible(v, sel.constraints, "b", 2, clock(1));
    assert ChoosePriority(v, clock, sel.constraints, sel.candidates, 1) == Chosen("b");
  }

  /** Once "b" is active and its own hold-down is over, "p" is taken. */
  lemma TakesFirst(v: View, clock: Clock, holdDownMs: int)
    requires v.Valid() && v.nodes == [] && v.paths == ThreePaths() && AllHealthy(v.health) && v.applied == Some("b")
    requires !InHoldDown(v.appliedSinceMs, holdDownMs, clock(0))
    ensures Choose(v, clock, Preferring(holdDownMs).selection) == Chosen("p")
  {
    hide Eligible, ExclusionReason;
    var sel := Preferring(holdDownMs).selection;
    assert v.paths[0].pathId == "a" && v.paths[1].pathId == "p";
    PlainEligible(v, sel.constraints, "p", 1, clock(0));
  }

  /** A controller on faultless mocks that serves "a" since then. */
  method ServingA(sinceMs: int) returns (c: Controller)
    ensures fresh(c) && fresh(c.net) && fresh(c.net.vpp) && fresh(c.net.vpp.trafficKeys) && fresh(c.net.vpp.activePaths)
    ensures fresh(c.applied) && fresh(c.applied.trafficKeys) && fresh(c.applied.appliedPaths) && fresh(c.applied.appliedSinceMs)
    ensures c.Shape() && c.Backing() && c.transitionState == Idle
    ensures c.nodes == [] && c.paths == ThreePaths() && c.intents == [] && c.health == map[] && c.net.telemetry == map[]
    ensures c.net.offers == Offers(true, true, true, true, true)
    ensures c.net.faults == Faults(false, false, false, false, false, false, false)
    ensures c.net.vpp.capacity == c.applied.capacity == MAX_CANDIDATES
    ensures c.applied.paths == c.net.vpp.active == map[TrafficKey(Traffic("s", "d", None)) := "a"]
    ensures c.applied.since == map[TrafficKey(Traffic("s", "d", None)) := sinceMs]
    ensures !c.net.vpp.failNextUpdate && c.observed == map[]
  {
    hide Represents, TrafficKey;
    var key := TrafficKey(Traffic("s", "d", None));
    var vpp := new VppMock(MAX_CANDIDATES);
    var installed := vpp.InstallPath(key, "a");
    var net := new Network(vpp, Offers(true, true, true, true, true), Faults(false, false, false, false, false, false, false), false);
    c := new Controller([], ThreePaths(), [], net);
    c.applied.Set(key, "a", sinceMs);
  }

  lemma NothingInTheWay(c: Controller, holdDownMs: int, key: Id, t: nat)
    requires c.paths == ThreePaths() && t < |c.paths| && c.net.telemetry == map[] && c.observed == map[]
    requires c.net.offers == Offers(true, true, true, true, true)
    requires c.net.faults == Faults(false, false, false, false, false, false, false)
    requires key in c.net.vpp.active && !c.net.vpp.failNextUpdate
    ensures Smooth(c, Preferring(holdDownMs).transition, key, t) && Reliable(c)
  {
    assert c.paths[t].Tunnels() == {};
    assert c.observed.Keys + c.paths[t].Tunnels() == {};
  }

  /** "a" was left for "b", which serves the key; all three paths have been observed. */
  ghost predicate MovedToB(c: Controller, holdDownMs: int)
    reads c, c.net`telemetry, c.applied`paths
  {
    && c.nodes == [] && c.paths == ThreePaths() && c.net.telemetry == map[]
    && c.net.offers == Offers(true, true, true, true, true)
    && c.net.faults == Faults(false, false, false, false, false, false, false)
    && c.intents == WithIntent([], Preferring(holdDownMs)) && AllHealthy(c.Readings())
    && AppliedPath(c.applied.paths, TrafficKey(Preferring(holdDownMs).traffic)) == Some("b")
  }

  /** The clock is read inside the hold-down of "a" for "p" and outside it for "b". */
  method MoveToB(sinceMs: int, holdDownMs: int, clock: Clock) returns (c: Controller, err: ErrorCode, ghost step: Step)
    requires InHoldDown(sinceMs, holdDownMs, clock(0)) && !InHoldDown(sinceMs, holdDownMs, clock(1))
    ensures c.Shape() && c.Backing() && c.transitionState in {Idle, Failed} && MovedToB(c, holdDownMs)
    ensures fresh(c) && fresh(c.net) && fresh(c.net.vpp) && fresh(c.net.vpp.trafficKeys) && fresh(c.net.vpp.activePaths)
    ensures fresh(c.applied) && fresh(c.applied.trafficKeys) && fresh(c.applied.appliedPaths) && fresh(c.applied.appliedSinceMs)
    ensures err == ErrNone && step == Switched
  {
    hide Represents, TrafficKey, Choose, SwitchOutcome, Activated, Bounded, MayRefuse, Smooth, Reliable, AllSettled, ObservedSet, Preferring;
    hide Explains, Probed, Conducted, Timed, Roomy, Controller.TunnelsOf;
    hide ReadingsOf, AllHealthy, InHoldDown, ThreePaths, Observe, WithIntent, ObservedIds, SegmentCount, IntentCountsValid, PathCountsValid, RequestsUnknown;
    c := ServingA(sinceMs);
    var intent := Preferring(holdDownMs);
    KeyOf(holdDownMs);
    NotTurnedAway(c, holdDownMs, []);
    ThreeFound();
    NothingInTheWay(c, holdDownMs, TrafficKey(intent.traffic), 2);
    var result;
    ghost var view, sw, before := *, *, WorldOf(c);
    err, result, step, view, sw := SubmitIntent(c, intent, clock);
    ObservedHealthy(c, holdDownMs, view.health);
    TakesFree(view, clock, holdDownMs);
    SucceededStores(sw, before, WorldOf(c), c.net.vpp.capacity, c.applied.capacity, Observe(sw, c.net.trace), c.transitionState);
    BObserved(c, holdDownMs);
  }

  /** When its own hold-down is over, "b" is left for "p". */
  method MoveOn(c: Controller, holdDownMs: int) returns (ghost step: Step, selected: Id)
    requires c.Shape() && c.Backing() && c.transitionState in {Idle, Failed} && MovedToB(c, holdDownMs)
    modifies c`transitionState, c`opState, c`observed, c`health, c`intents, c.net`up, c.net`trace
    modifies c.net.vpp, c.net.vpp.trafficKeys, c.net.vpp.activePaths
    modifies c.applied, c.applied.trafficKeys, c.applied.appliedPaths, c.applied.appliedSinceMs
    ensures step == Switched && selected == "p"
  {
    hide Represents, TrafficKey, Choose, SwitchOutcome, Activated, Bounded, MayRefuse, Smooth, Reliable, AllSettled, ObservedSet, Preferring;
    hide ReadingsOf, AllHealthy, InHoldDown, ThreePaths, Observe, Frozen, SwitchTried;
    hide Explains, Probed, WithIntent, IntentCountsValid, PathCountsValid, RequestsUnknown, ObservedIds;
    var intent := Preferring(holdDownMs);
    var applied, since := c.applied.Get(TrafficKey(intent.traffic));
    HoldDownEnds(since, holdDownMs);
    NotTurnedAway(c, holdDownMs, c.intents);
    StillSettled(c, holdDownMs);
    var err, result;
    ghost var view, sw;
    err, result, step, view, sw := SubmitIntent(c, intent, Frozen(since + holdDownMs));
    TakesFirst(view, Frozen(since + holdDownMs), holdDownMs);
    selected := result.value.selectedPath;
  }

  lemma StillSettled(c: Controller, holdDownMs: int)
    requires c.paths == ThreePaths() && c.net.telemetry == map[] && AllHealthy(c.Readings())
    ensures AllSettled(c, Preferring(holdDownMs).selection, c.Readings())
  {
    hide ProbeReading, FindPath;
    forall id | id in ObservedIds(c.paths, Preferring(holdDownMs).selection) ensures Settled(c, c.Readings(), id) {
      ProbedDefault(c, id);
    }
  }

  /** Two readings straddle the hold-down of "a": the controller switches to "b" and, submitted again with
      everything unchanged, switches on to "p". */
  method Flaps(sinceMs: int, holdDownMs: int, clock: Clock)
    returns (c: Controller, err: ErrorCode, ghost first: Step, ghost second: Step, selected: Id)
    requires InHoldDown(sinceMs, holdDownMs, clock(0)) && !InHoldDown(sinceMs, holdDownMs, clock(1))
    ensures err == ErrNone && first == Switched
    ensures second == Switched && selected == "p"
  {
    hide Represents, MovedToB;
    c, err, first := MoveToB(sinceMs, holdDownMs, clock);
    second, selected := MoveOn(c, holdDownMs);
  }

  lemma BObserved(c: Controller, holdDownMs: int)
    ensures "b" in ObservedIds(c.paths, Preferring(holdDownMs).selection)
  {
    assert Preferring(holdDownMs).selection.candidates[1] == "b";
  }

  lemma HoldDownEnds(sinceMs: int, holdDownMs: int)
    ensures !InHoldDown(sinceMs, holdDownMs, Frozen(sinceMs + holdDownMs)(0))
  {
  }

  lemma KeyOf(holdDownMs: int)
    ensures Preferring(holdDownMs).traffic == Traffic("s", "d", None)
  {
  }
}
