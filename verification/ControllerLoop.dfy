/** The controller itself (src/controller.c): observe the candidates, select a path, and switch to it. */
module ControllerLoop {
  import opened Model
  import opened Backends
  import opened ControllerState
  import opened PathSelection
  import opened SelectionLaws
  import opened Traces
  import opened Rounds
  import opened Transition
  import opened Tables
  import opened TrafficKeys

  /** How far a submission got: turned away unobserved, observed but no path selected, kept the applied
      path, or attempted a switch. */
  datatype Step = Refused | Unselected | Maintained | Switched

  datatype ReconcileResult = ReconcileResult(
    intentId: Id,
    selectedPath: Id,
    transitionState: TransitionState,
    explanation: SelectionResult)

  // ----- observing -----

  /** The identifiers a submission observes before selecting. */
  function ObservedIds(paths: seq<Path>, sel: Selection): seq<Id> {
    if |sel.candidates| > 0 then sel.candidates
    else if sel.mode == Explicit then [sel.pathId]
    else seq(|paths|, i requires 0 <= i < |paths| => paths[i].pathId)
  }

  function ObservedSet(paths: seq<Path>, sel: Selection): set<Id> {
    set id | id in ObservedIds(paths, sel)
  }

  /** Observing this path again would not change the stored readings. */
  ghost predicate Settled(c: Controller, readings: map<Id, Reading>, id: Id)
    reads c.net`telemetry
  {
    var p := FindPath(c.paths, id);
    p.Some? ==> Remembered(readings, id, ProbeReading(c, p.value)) == readings
  }

  lemma SettledAbsentMeansFull(readings: map<Id, Reading>, id: Id, reading: Reading)
    requires Remembered(readings, id, reading) == readings && id !in readings
    ensures |readings| >= MAX_PATHS
  {
  }

  lemma StaysSettled(c: Controller, readings: map<Id, Reading>, id: Id, other: Id)
    requires FindPath(c.paths, other).Some?
    ensures var after := Remembered(readings, other, ProbeReading(c, FindPath(c.paths, other).value));
            Settled(c, after, other) && (Settled(c, readings, id) ==> Settled(c, after, id))
  {
    var x := ProbeReading(c, FindPath(c.paths, other).value);
    RememberedTwice(readings, other, x);
    var p := FindPath(c.paths, id);
    if p.Some? && Settled(c, readings, id) && id != other {
      var after := Remembered(readings, other, x);
      if id in readings {
        assert readings[id] == Remembered(readings, id, ProbeReading(c, p.value))[id];
        assert after[id := ProbeReading(c, p.value)] == after;
      } else {
        SettledAbsentMeansFull(readings, id, ProbeReading(c, p.value));
        assert |after| >= MAX_PATHS by {
          if other in readings { assert after.Keys == readings.Keys; }
        }
      }
    }
  }

  method ObserveOne(c: Controller, id: Id) returns (err: ErrorCode)
    modifies c`health, c.net`trace
    ensures FindPath(c.paths, id).None? ==> err == ErrNotFound
    ensures err == ErrNotFound && !c.net.faults.validatePath ==> FindPath(c.paths, id).None?
    ensures !c.net.faults.validatePath && c.net.offers.validatePath ==> err in {ErrNone, ErrNotFound}
    ensures err == ErrNone ==> FindPath(c.paths, id).Some?
    ensures err == ErrNone && !c.net.faults.validatePath ==>
              c.Readings() == Remembered(old(c.Readings()), id, ProbeReading(c, FindPath(c.paths, id).value))
    ensures err == ErrNone ==> |c.net.trace| == |old(c.net.trace)| + 1 && IsProbe(c.net.trace[|c.net.trace| - 1], id)
    ensures OnlyValidates(old(c.net.trace), c.net.trace)
    ensures old(c.health.Keys) <= c.health.Keys
    ensures !c.net.faults.validatePath ==> c.health.Keys <= old(c.health.Keys) + {id}
  {
    var p := FindPath(c.paths, id);
    if p.None? || !c.net.offers.validatePath {
      return if p.None? then ErrNotFound else ErrInvalidArgument;
    }
    var usable;
    err, usable := StoreProbe(c, p.value);
  }

  /** The probe was asked about this path. */
  predicate IsProbe(call: Call, id: Id) { call.Validated? && call.path == id }

  /** The probe was asked about every candidate; without candidates about the one path of an explicit selection,
      and about every path there is otherwise. */
  ghost predicate Probed(paths: seq<Path>, sel: Selection, calls: seq<Call>) {
    && (|sel.candidates| > 0 ==> |calls| == |sel.candidates| && forall i :: 0 <= i < |calls| ==> IsProbe(calls[i], sel.candidates[i]))
    && (|sel.candidates| == 0 && sel.mode == Explicit ==> |calls| == 1 && IsProbe(calls[0], sel.pathId))
    && (|sel.candidates| == 0 && sel.mode != Explicit ==> |calls| == |paths| && forall i :: 0 <= i < |calls| ==> IsProbe(calls[i], paths[i].pathId))
  }

  ghost predicate Asked(ids: seq<Id>, calls: seq<Call>) {
    |calls| == |ids| && forall i :: 0 <= i < |calls| ==> IsProbe(calls[i], ids[i])
  }

  lemma AskedIsProbed(paths: seq<Path>, sel: Selection, calls: seq<Call>)
    requires Asked(ObservedIds(paths, sel), calls)
    ensures Probed(paths, sel, calls)
  {
  }

  lemma AskedNothing(ids: seq<Id>, calls: seq<Call>)
    ensures Asked(ids[..0], calls[|calls|..])
  {
  }

  lemma AskedOneMore(ids: seq<Id>, i: nat, before: nat, was: seq<Call>, now: seq<Call>)
    requires i < |ids| && before <= |was| && Asked(ids[..i], was[before..])
    requires |now| == |was| + 1 && now[..|was|] == was && IsProbe(now[|was|], ids[i])
    ensures Asked(ids[..i + 1], now[before..])
  {
    assert now[before..] == was[before..] + [now[|was|]];
    assert ids[..i + 1] == ids[..i] + [ids[i]];
  }

  /** Nothing was called but the health probe. */
  ghost predicate OnlyValidates(before: seq<Call>, after: seq<Call>) {
    |before| <= |after| && after[..|before|] == before && forall i :: |before| <= i < |after| ==> after[i].Validated?
  }

  method ObserveCandidateHealth(c: Controller, sel: Selection) returns (err: ErrorCode)
    modifies c`health, c.net`trace
    ensures err == ErrNone ==> forall id :: id in ObservedIds(c.paths, sel) ==> FindPath(c.paths, id).Some?
    ensures err == ErrNone && !c.net.faults.validatePath ==>
              forall id :: id in ObservedIds(c.paths, sel) ==> Settled(c, c.Readings(), id)
    ensures err == ErrNone && !c.net.faults.validatePath && (forall id :: id in ObservedIds(c.paths, sel) ==> Settled(c, old(c.Readings()), id)) ==>
              c.Readings() == old(c.Readings())
    ensures err == ErrNotFound && !c.net.faults.validatePath ==>
              exists id :: id in ObservedIds(c.paths, sel) && FindPath(c.paths, id).None?
    ensures !c.net.faults.validatePath && c.net.offers.validatePath && err != ErrNone ==> err == ErrNotFound
    ensures OnlyValidates(old(c.net.trace), c.net.trace)
    ensures err == ErrNone ==> Probed(c.paths, sel, c.net.trace[|old(c.net.trace)|..])
    ensures old(c.health.Keys) <= c.health.Keys
    ensures !c.net.faults.validatePath ==> c.health.Keys <= old(c.health.Keys) + ObservedSet(c.paths, sel)
  {
    hide Remembered, ProbeReading, ReadingsOf, Asked, Probed, ObservedIds;
    var ids := ObservedIds(c.paths, sel);
    ghost var start := c.Readings();
    ghost var settled := forall id :: id in ids ==> Settled(c, start, id);
    AskedNothing(ids, c.net.trace);
    err := ErrNone;
    var i := 0;
    while i < |ids|
      invariant 0 <= i <= |ids| && err == ErrNone
      invariant forall j :: 0 <= j < i ==> FindPath(c.paths, ids[j]).Some?
      invariant !c.net.faults.validatePath ==> forall j :: 0 <= j < i ==> Settled(c, c.Readings(), ids[j])
      invariant !c.net.faults.validatePath && settled ==> c.Readings() == start
      invariant OnlyValidates(old(c.net.trace), c.net.trace)
      invariant Asked(ids[..i], c.net.trace[|old(c.net.trace)|..])
      invariant old(c.health.Keys) <= c.health.Keys
      invariant !c.net.faults.validatePath ==> c.health.Keys <= old(c.health.Keys) + ObservedSet(c.paths, sel)
    {
      ghost var readings, before := c.Readings(), c.net.trace;
      assert settled ==> Settled(c, start, ids[i]);
      err := ObserveOne(c, ids[i]);
      if err != ErrNone { return; }
      AskedOneMore(ids, i, |old(c.net.trace)|, before, c.net.trace);
      if !c.net.faults.validatePath {
        forall j | 0 <= j <= i ensures Settled(c, c.Readings(), ids[j]) {
          StaysSettled(c, readings, ids[j], ids[i]);
        }
      }
      i := i + 1;
    }
    assert ids[..i] == ids;
    AskedIsProbed(c.paths, sel, c.net.trace[|old(c.net.trace)|..]);
  }

  // ----- remembering the intent -----

  /** The stored intents after accepting one: the first with the same identifier replaced, or one appended. */
  function WithIntent(intents: seq<Intent>, intent: Intent): seq<Intent> {
    if |intents| == 0 then [intent]
    else if intents[0].intentId == intent.intentId then [intent] + intents[1..]
    else [intents[0]] + WithIntent(intents[1..], intent)
  }

  /** The accepted intent is stored, and the intents of other identifiers are kept. */
  lemma {:induction false} WithIntentKeeps(intents: seq<Intent>, intent: Intent)
    ensures intent in WithIntent(intents, intent)
    ensures forall other :: other in intents && other.intentId != intent.intentId ==> other in WithIntent(intents, intent)
  {
    if |intents| > 0 {
      WithIntentKeeps(intents[1..], intent);
      assert intents == [intents[0]] + intents[1..];
    }
  }

  lemma {:induction false} WithIntentAt(intents: seq<Intent>, intent: Intent, i: nat)
    requires i <= |intents| && forall k :: 0 <= k < i ==> intents[k].intentId != intent.intentId
    requires i < |intents| ==> intents[i].intentId == intent.intentId
    ensures WithIntent(intents, intent) == if i < |intents| then intents[i := intent] else intents + [intent]
  {
    if i > 0 {
      assert forall k :: 0 <= k < i - 1 ==> intents[1..][k] == intents[k + 1];
      WithIntentAt(intents[1..], intent, i - 1);
      if i < |intents| { UpdateTail(intents, i, intent); } else { AppendTail(intents, intent); }
    } else if |intents| > 0 {
      UpdateHead(intents, intent);
    }
  }

  lemma UpdateTail<T>(s: seq<T>, i: nat, x: T)
    requires 0 < i < |s|
    ensures s[i := x] == [s[0]] + s[1..][i - 1 := x]
  {
  }

  lemma UpdateHead<T>(s: seq<T>, x: T)
    requires |s| > 0
    ensures s[0 := x] == [x] + s[1..]
  {
  }

  lemma AppendTail<T>(s: seq<T>, x: T)
    requires |s| > 0
    ensures s + [x] == [s[0]] + (s[1..] + [x])
  {
  }

  method RecordIntent(c: Controller, intent: Intent) returns (ok: bool)
    modifies c`intents
    ensures ok ==> c.intents == WithIntent(old(c.intents), intent)
    ensures !ok <==> |old(c.intents)| >= MAX_CANDIDATES && forall k :: 0 <= k < |old(c.intents)| ==> old(c.intents)[k].intentId != intent.intentId
    ensures !ok ==> c.intents == old(c.intents)
  {
    var i := 0;
    while i < |c.intents|
      invariant 0 <= i <= |c.intents| && c.intents == old(c.intents)
      invariant forall k :: 0 <= k < i ==> c.intents[k].intentId != intent.intentId
    {
      if c.intents[i].intentId == intent.intentId {
        WithIntentAt(c.intents, intent, i);
        c.intents := c.intents[i := intent];
        return true;
      }
      i := i + 1;
    }
    if |c.intents| >= MAX_CANDIDATES { return false; }
    WithIntentAt(c.intents, intent, i);
    c.intents := c.intents + [intent];
    ok := true;
  }

  // ----- submitting -----

  /** When the key's path was applied; 0 if none is. */
  ghost function SinceOf(c: Controller, key: Id): int
    reads c.applied`paths, c.applied`since
  {
    if key in c.applied.paths && key in c.applied.since then c.applied.since[key] else 0
  }

  /** What selection sees of the controller for this key. */
  ghost function ViewOf(c: Controller, key: Id): View
    reads c`opState, c`health, c.applied`paths, c.applied`since
  {
    View(c.nodes, c.paths, c.opState, ReadingsOf(c.health),
         AppliedPath(c.applied.paths, key),
         SinceOf(c, key))
  }

  lemma ReadingsKeys(health: map<Id, PathHealth>)
    ensures ReadingsOf(health).Keys == health.Keys
  {
  }

  method LookAt(c: Controller, key: Id) returns (v: View)
    requires c.Backing()
    ensures v == ViewOf(c, key)
  {
    var applied, since := c.applied.Get(key);
    v := View(c.nodes, c.paths, c.opState, ReadingsOf(c.health), applied, since);
  }

  /** The submission kept clear of the outside world: no tunnel, no forwarding entry, no table entry and no
      operational state changed. */
  twostate predicate Untouched(c: Controller)
    reads c`opState, c.applied`paths, c.applied`since, c.net.vpp`active, c.net`up
  {
    WorldOf(c) == old(WorldOf(c)) && c.applied.since == old(c.applied.since) && c.opState == old(c.opState)
  }

  /** A path id that selection returned is the id of a path. */
  lemma ChosenIsKnown(v: View, clock: Clock, sel: Selection, id: Id)
    requires v.Valid() && Choose(v, clock, sel) == Chosen(id)
    ensures FindPath(v.paths, id).Some?
  {
    ChosenIsSound(v, clock, sel, id);
  }

  /** The stored intents have room for this one. */
  predicate Recordable(intents: seq<Intent>, intent: Intent) {
    |intents| < MAX_CANDIDATES || exists k :: 0 <= k < |intents| && intents[k].intentId == intent.intentId
  }

  /** Why a submission may be turned away before its paths are even compared. */
  ghost predicate MayRefuse(c: Controller, intents: seq<Intent>, intent: Intent) {
    || !IntentCountsValid(intent)
    || !PolicyValid(intent.transition)
    || !Recordable(intents, intent)
    || !c.net.offers.validatePath
    || c.net.faults.validatePath
    || RequestsUnknown(c.paths, intent.selection)
  }

  /** The result says what was selected and, for every path it lists as excluded, the first rule it broke. */
  ghost predicate Explains(v: View, clock: Clock, sel: Selection, outcome: Outcome, r: SelectionResult)
    requires v.Valid()
  {
    && r.selectedPath == (if outcome.Chosen? then outcome.path else "")
    && (outcome.Chosen? ==> Suits(v, clock, sel, outcome.path))
    && (forall e :: e in r.excluded ==> FallsShort(v, clock, sel, e.0, e.1))
    && (sel.mode != Explicit ==> r.candidates == sel.candidates)
  }

  /** The intent was accepted and stored, the paths it names were observed, and this is what selection made of
      them in this view. */
  ghost predicate DecidedBy(c: Controller, intent: Intent, clock: Clock, intents: seq<Intent>, view: View, outcome: Outcome,
                            explanation: SelectionResult)
    reads c`intents
  {
    && IntentCountsValid(intent) && PolicyValid(intent.transition) && c.intents == WithIntent(intents, intent)
    && (forall id :: id in ObservedIds(c.paths, intent.selection) ==> FindPath(c.paths, id).Some?)
    && view.Valid() && view.nodes == c.nodes && view.paths == c.paths
    && Choose(view, clock, intent.selection) == outcome
    && (outcome.Chosen? ==> FindPath(c.paths, outcome.path).Some?)
    && Explains(view, clock, intent.selection, outcome, explanation)
  }

  /** Observing again would not change these readings. */
  ghost predicate AllSettled(c: Controller, sel: Selection, readings: map<Id, Reading>)
    reads c.net`telemetry
  {
    forall id :: id in ObservedIds(c.paths, sel) ==> Settled(c, readings, id)
  }

  /** Everything up to the selected path: nothing but the stored intents and observations changes. */
  method Decide(c: Controller, intent: Intent, clock: Clock)
    returns (err: ErrorCode, selection: Option<SelectionResult>, ghost view: View)
    requires c.Shape() && c.Backing()
    modifies c`health, c`intents, c.net`trace
    ensures OnlyValidates([], c.net.trace)
    ensures selection.None? ==> err != ErrNone && MayRefuse(c, old(c.intents), intent)
    ensures selection.None? && err == ErrNotFound && !c.net.faults.validatePath ==> RequestsUnknown(c.paths, intent.selection)
    ensures selection.Some? ==> Probed(c.paths, intent.selection, c.net.trace)
    ensures selection.Some? ==>
              && view == ViewOf(c, TrafficKey(intent.traffic))
              && DecidedBy(c, intent, clock, old(c.intents), view,
                           if err == ErrNone then Chosen(selection.value.selectedPath) else Rejected(err), selection.value)
    ensures err == ErrNone ==>
              selection.Some? && PolicyValid(intent.transition) && FindPath(c.paths, selection.value.selectedPath).Some?
    ensures selection.Some? ==> old(c.health.Keys) <= view.health.Keys
    ensures !c.net.faults.validatePath && selection.Some? ==>
              && view.health.Keys <= old(c.health.Keys) + ObservedSet(c.paths, intent.selection)
              && AllSettled(c, intent.selection, c.Readings())
              && (AllSettled(c, intent.selection, old(c.Readings())) ==> c.Readings() == old(c.Readings()))
  {
    hide Represents, Choose, TrafficKey, Settled, Remembered, ReadingsOf, Suits, FallsShort, Probed, ObservedIds, WithIntent, PathCountsValid;
    selection, view := None, *;
    c.net.Mark();
    if !IntentCountsValid(intent) || !PolicyValid(intent.transition) { return ErrInvalidArgument, None, view; }
    var recorded := RecordIntent(c, intent);
    if !recorded { return ErrInvalidArgument, None, view; }
    err := ObserveCandidateHealth(c, intent.selection);
    if err != ErrNone { return; }
    assert c.net.trace[0..] == c.net.trace;
    var v := LookAt(c, TrafficKey(intent.traffic));
    ReadingsKeys(c.health);
    view := v;
    var result;
    err, result := SelectPath(v, clock, intent);
    selection := Some(result);
    if err == ErrNone { ChosenIsKnown(v, clock, intent.selection, result.selectedPath); }
  }

  /** The selection names a path that does not exist. */
  ghost predicate RequestsUnknown(paths: seq<Path>, sel: Selection) {
    || (exists id :: id in ObservedIds(paths, sel) && FindPath(paths, id).None?)
    || (sel.mode == Explicit && FindPath(paths, sel.pathId).None?)
  }

  lemma NotFoundMeansUnknown(v: View, clock: Clock, sel: Selection)
    requires v.Valid() && Choose(v, clock, sel) == Rejected(ErrNotFound)
    ensures RequestsUnknown(v.paths, sel)
  {
    match sel.mode
    case Explicit =>
    case Priority =>
      var n := PriorityDecision(v, clock, sel.constraints, sel.candidates, 0);
      assert sel.candidates[n] in ObservedIds(v.paths, sel);
    case Evaluated =>
      var i :| 0 <= i < |sel.candidates| && !v.Known(sel.candidates[i]);
      assert sel.candidates[i] in ObservedIds(v.paths, sel);
  }

  lemma OutcomeIsQuiet(sw: Switch, w: World, w': World, capacity: nat, room: nat, q: Progress, err: ErrorCode, state: TransitionState)
    requires SwitchOutcome(sw, w, w', capacity, room, q, err, state)
    ensures state in {Idle, Failed} && (err == ErrNone ==> state == Idle)
  {
  }

  /** What came of a switch to path `t` that met the world `w`, these times and these operational states, and
      that nothing stood in the way of if it was `smooth`. */
  ghost predicate SwitchTried(c: Controller, s: Setting, t: nat, sw: Switch, err: ErrorCode, w: World, since: map<Id, int>,
                              states: seq<PathState>, smooth: bool)
    reads c`opState, c`transitionState, c.applied`paths, c.applied`since, c.net.vpp`active, c.net`up, c.net`trace
  {
    var policy := s.policy;
    && PolicyValid(policy) && sw.previous != sw.target && t < |c.paths|
    && SwitchOutcome(sw, w, WorldOf(c), c.net.vpp.capacity, c.applied.capacity, Observe(sw, c.net.trace), err, c.transitionState)
    && Bounded(Observe(sw, c.net.trace), policy, |c.paths[t].segments|, SegmentCount(c, sw.previous))
    && (err == ErrNone ==> Activated(states, c.opState, t, FindPath(c.paths, sw.previous)))
    && (Reliable(c) && c.transitionState == Failed ==> !Observe(sw, c.net.trace).served)
    && (Reliable(c) && smooth ==> err == ErrNone)
    && Conducted(s, c.net.trace, err)
    && Timed(w.applied, since, c.applied.since, c.applied.capacity, sw.key,
             if err == ErrNone then Some(sw.target) else if c.transitionState == Idle then Some(sw.previous) else None, c.net.trace)
  }

  /** Keeps the selected path if it is the applied one, and switches to it otherwise. */
  method Reconcile(c: Controller, intent: Intent, t: nat) returns (err: ErrorCode, ghost step: Step, ghost sw: Switch)
    requires c.Shape() && c.Backing() && t < |c.paths| && PolicyValid(intent.transition)
    modifies c`transitionState, c`opState, c`observed, c`health, c.net`up, c.net`trace
    modifies c.net.vpp, c.net.vpp.trafficKeys, c.net.vpp.activePaths
    modifies c.applied, c.applied.trafficKeys, c.applied.appliedPaths, c.applied.appliedSinceMs
    ensures c.Shape() && c.Backing()
    ensures c.transitionState in {Idle, Failed} && (err == ErrNone ==> c.transitionState == Idle)
    ensures step in {Maintained, Switched}
    ensures err == ErrNotFound ==> c.net.faults.ensureTunnel || c.net.faults.validatePath
    ensures step == Maintained <==> AppliedPath(old(c.applied.paths), TrafficKey(intent.traffic)) == Some(c.paths[t].pathId)
    ensures step == Maintained ==> err == ErrNone && Untouched(c) && c.net.trace == old(c.net.trace) && c.health == old(c.health)
    ensures step == Switched ==>
              && sw == old(SwitchOf(c, TrafficKey(intent.traffic), t))
              && SwitchTried(c, old(SettingOf(c, sw, intent.transition, t)), t, sw, err, old(WorldOf(c)), old(c.applied.since), old(c.opState),
                             old(Smooth(c, intent.transition, TrafficKey(intent.traffic), t)))
              && (err == ErrNone && !c.net.faults.validatePath ==>
                    c.Readings() == Remembered(old(c.Readings()), c.paths[t].pathId, ProbeReading(c, t)))
  {
    hide Represents, Observe, Bounded, SwitchOutcome, TrafficKey, Activated, Remembered, ReadingsOf, ProbeReading, SegmentCount, Smooth, Conducted, Timed, Roomy;
    var key := TrafficKey(intent.traffic);
    var applied, since := c.applied.Get(key);
    sw := SwitchOf(c, key, t);
    if applied == Some(c.paths[t].pathId) {
      c.transitionState := Idle;
      return ErrNone, Maintained, sw;
    }
    step := Switched;
    ghost var before := WorldOf(c);
    err := TransitionPath(c, intent, t, sw);
    OutcomeIsQuiet(sw, before, WorldOf(c), c.net.vpp.capacity, c.applied.capacity, Observe(sw, c.net.trace), err, c.transitionState);
  }

  lemma SettledStays(c: Controller, sel: Selection, readings: map<Id, Reading>, id: Id, t: nat)
    requires FindPath(c.paths, id) == Some(t)
    ensures AllSettled(c, sel, readings) && id in ObservedIds(c.paths, sel) ==>
              Remembered(readings, c.paths[t].pathId, ProbeReading(c, t)) == readings
  {
  }

  method SubmitIntent(c: Controller, intent: Intent, clock: Clock)
    returns (err: ErrorCode, result: Option<ReconcileResult>, ghost step: Step, ghost view: View, ghost sw: Switch)
    requires c.Shape() && c.Backing()
    requires c.transitionState in {Idle, Failed}
    modifies c`transitionState, c`opState, c`observed, c`health, c`intents, c.net`up, c.net`trace
    modifies c.net.vpp, c.net.vpp.trafficKeys, c.net.vpp.activePaths
    modifies c.applied, c.applied.trafficKeys, c.applied.appliedPaths, c.applied.appliedSinceMs
    ensures c.Shape() && c.Backing()
    // quiescence
    ensures c.transitionState in {Idle, Failed}
    ensures err == ErrNone ==> c.transitionState == Idle && result.Some?
    ensures result.Some? ==> result.value.transitionState == c.transitionState && result.value.intentId == intent.intentId
    ensures result.Some? <==> step != Refused
    // turned away, or no path to select
    ensures step in {Refused, Unselected} ==>
              err != ErrNone && Untouched(c) && c.transitionState == old(c.transitionState) && OnlyValidates([], c.net.trace)
    ensures step in {Unselected, Maintained} ==> Probed(c.paths, intent.selection, c.net.trace)
    ensures step == Refused ==> MayRefuse(c, old(c.intents), intent)
    ensures step == Refused && err == ErrNotFound && !c.net.faults.validatePath ==> RequestsUnknown(c.paths, intent.selection)
    // decided by the view of the moment
    ensures step != Refused ==>
              && view.opState == old(c.opState)
              && view.applied == AppliedPath(old(c.applied.paths), TrafficKey(intent.traffic))
              && view.appliedSinceMs == old(SinceOf(c, TrafficKey(intent.traffic)))
              && DecidedBy(c, intent, clock, old(c.intents), view,
                           if step == Unselected then Rejected(err) else Chosen(result.value.selectedPath), result.value.explanation)
    ensures step == Switched && err == ErrNotFound ==> c.net.faults.ensureTunnel || c.net.faults.validatePath
    // kept
    ensures step in {Maintained, Switched} ==> (step == Maintained <==> view.applied == Some(result.value.selectedPath))
    ensures step == Maintained ==> err == ErrNone && Untouched(c) && OnlyValidates([], c.net.trace)
    // switched
    ensures step == Switched ==>
              && FindPath(c.paths, result.value.selectedPath).Some?
              && var t := FindPath(c.paths, result.value.selectedPath).value;
              && sw == old(SwitchOf(c, TrafficKey(intent.traffic), t))
              && SwitchTried(c, old(SettingOf(c, sw, intent.transition, t)), t, sw, err, old(WorldOf(c)), old(c.applied.since), old(c.opState),
                             old(Smooth(c, intent.transition, TrafficKey(intent.traffic), t)))
    // telemetry
    ensures step != Refused ==> old(c.health.Keys) <= view.health.Keys
    ensures !c.net.faults.validatePath && step != Refused ==>
              && view.health.Keys <= old(c.health.Keys) + ObservedSet(c.paths, intent.selection)
              && AllSettled(c, intent.selection, view.health)
              && (AllSettled(c, intent.selection, old(c.Readings())) ==> view.health == old(c.Readings()))
              && (err == ErrNone && result.value.selectedPath in ObservedIds(c.paths, intent.selection) ==> c.Readings() == view.health)
  {
    hide Represents, Observe, Bounded, SwitchOutcome, Choose, TrafficKey, Activated, Remembered, ReadingsOf, ObservedIds;
    hide RequestsUnknown, ProbeReading, SegmentCount, MayRefuse, WithIntent, Reliable, Path.Tunnels, IntentCountsValid;
    hide Smooth, Controller.Backing, PathCountsValid, SwitchTried, FindPath, Settled, SwitchOf, OnlyValidates, Controller.Shape;
    hide DecidedBy, AllSettled, ObservedSet, SinceOf, Roomy, Probed;
    step, sw := Refused, *;
    var selection;
    err, selection, view := Decide(c, intent, clock);
    if err != ErrNone {
      if selection.Some? {
        step := Unselected;
        result := Some(ReconcileResult(intent.intentId, "", c.transitionState, selection.value));
      } else {
        result := None;
      }
      return;
    }
    var selected := selection.value.selectedPath;
    c.transitionState := CandidateSelected;
    var target := FindPath(c.paths, selected);
    if target.None? { return ErrNotFound, None, Refused, view, sw; }
    SettledStays(c, intent.selection, view.health, selected, target.value);
    err, step, sw := Reconcile(c, intent, target.value);
    result := Some(ReconcileResult(intent.intentId, selected, c.transitionState, selection.value));
  }

  /** The path recorded for a key, if any. */
  function AppliedPath(applied: map<Id, Id>, key: Id): Option<Id> {
    if key in applied then Some(applied[key]) else None
  }
}
