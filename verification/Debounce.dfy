/** From the agent's pings to the controller's decision: sample (examples/eventnet_agent.c), store
    (examples/eventnetd.c, src/health_probe.c), probe and select (src/controller.c, src/path_selection.c). */
module Debounce {
  import opened Model
  import opened Telemetry
  import opened Agent
  import opened Backends
  import opened ControllerState
  import opened PathSelection
  import opened SelectionLaws
  import opened Transition
  import opened ControllerLoop
  import opened TrafficKeys
  import opened Traces
  import opened Tables

  /** The identifiers of the paths. */
  function PathIds(paths: seq<Path>): seq<Id> { seq(|paths|, i requires 0 <= i < |paths| => paths[i].pathId) }

  /** A decided submission saw the reading that the probe served of an observed path, unless the table of
      readings was full. */
  lemma ViewHoldsProbe(c: Controller, health: map<Id, Reading>, id: Id, t: nat)
    requires Settled(c, health, id) && FindPath(c.paths, id) == Some(t)
    ensures if id in health then health[id] == ProbeReading(c, t) else |health| >= MAX_PATHS
  {
    if id !in health { SettledAbsentMeansFull(health, id, ProbeReading(c, t)); }
  }

  /** What the probe serves after the records were loaded carries the agent's streaks. */
  lemma ProbeCarries(c: Controller, t: nat, rs: seq<PathHealth>, earlier: seq<bool>, results: seq<bool>)
    requires t < |c.paths| && c.paths[t].pathId in c.net.telemetry
    requires c.net.telemetry[c.paths[t].pathId] == Fold(Unknown(c.paths[t].pathId), rs)
    requires AgentRecords(rs, earlier, results) && |rs| > 0 && rs[0].lastUpdatedMs >= 0
    ensures var r := ProbeReading(c, t);
            && r.consecutiveFailures == Streak(earlier + results, true) && r.consecutiveSuccesses == Streak(earlier + results, false)
            && r.state in {HealthFailed, HealthHealthy}
            && r.rttMs == rs[|rs| - 1].rttMs
            && r.packetLossPercent == if c.net.requireObservations then 100.0 else rs[|rs| - 1].packetLossPercent
  {
    hide Fold, MockHealth, AgentRecords;
    ProbeSees(c.net.telemetry, c.net.requireObservations, c.paths[t], 0);
    ServedCarries(Unknown(c.paths[t].pathId), rs, earlier, results, c.net.requireObservations, c.paths[t], 0);
  }

  /** The active path is excluded for its health only after as many failures in a row as the threshold says. */
  ghost predicate FailureDebounced(v: View, c: Constraints, id: Id, history: seq<bool>)
    requires v.Valid() && v.Known(id)
  {
    c.failureThreshold > 0 && v.Active(id) ==>
      forall now :: ExclusionReason(v, c, id, now).Some? && ExclusionReason(v, c, id, now).value.HealthIs? ==>
        LastAll(history, c.failureThreshold, true)
  }

  /** A path on standby beside another active one is selected only after as many successes in a row. */
  ghost predicate RecoveryDebounced(v: View, c: Constraints, id: Id, selected: Id, history: seq<bool>)
    requires v.Valid() && v.Known(id)
  {
    c.recoveryThreshold > 0 && selected == id && v.ActiveExists() && !v.Active(id) && v.StateOf(id) == PathStandby ==>
      LastAll(history, c.recoveryThreshold, false)
  }

  /** Both thresholds, for a view that holds the agent's streaks. */
  lemma Debounced(v: View, sel: Selection, clock: Clock, id: Id, selected: Id, history: seq<bool>)
    requires v.Valid() && v.Known(id) && id in v.health && v.health[id].state in {HealthFailed, HealthHealthy}
    requires v.health[id].consecutiveFailures == Streak(history, true) && v.health[id].consecutiveSuccesses == Streak(history, false)
    ensures FailureDebounced(v, sel.constraints, id, history)
    ensures Choose(v, clock, sel) == Chosen(selected) ==> RecoveryDebounced(v, sel.constraints, id, selected, history)
  {
    hide ExclusionReason, Streak, LastAll;
    var c := sel.constraints;
    if c.failureThreshold > 0 && v.Active(id) {
      forall now | ExclusionReason(v, c, id, now).Some? && ExclusionReason(v, c, id, now).value.HealthIs?
        ensures LastAll(history, c.failureThreshold, true)
      {
        ExcludedActiveFailedRepeatedly(v, c, id, history, now);
      }
    }
    if Choose(v, clock, sel) == Chosen(selected) && c.recoveryThreshold > 0 && selected == id
       && v.ActiveExists() && !v.Active(id) && v.StateOf(id) == PathStandby {
      ChosenIsSound(v, clock, sel, id);
      var now :| Eligible(v, c, id, now);
      EligibleStandbyRecovered(v, c, id, history, now);
    }
  }

  /** A path without a reading is never excluded for its health. */
  lemma UnseenIsNotExcluded(v: View, c: Constraints, id: Id, history: seq<bool>)
    requires v.Valid() && v.Known(id) && id !in v.health
    ensures FailureDebounced(v, c, id, history)
  {
  }

  /** The agent samples a path and the daemon loads the records: the probe will serve the agent's streaks. */
  method SampleAndLoad(counters: Counters, p: nat, source: Id, pings: seq<Ping>, ids: seq<Id>, id: Id)
    returns (telemetry: map<Id, PathHealth>, ghost rs: seq<PathHealth>)
    requires counters.Valid() && p < MAX_PATHS && |pings| > 0 && pings[0].nowMs >= 0
    requires forall i, j :: 0 <= i < j < |pings| ==> pings[i].nowMs <= pings[j].nowMs
    requires |ids| <= MAX_PATHS && id in ids
    modifies counters, counters.successes, counters.failures, counters.previousRtt, counters.hasPreviousRtt
    ensures counters.Valid()
    ensures counters.history == old(counters.history)[p := old(counters.history)[p] + Failures(pings)]
    ensures |rs| > 0 && rs[0].lastUpdatedMs >= 0 && AgentRecords(rs, old(counters.history)[p], Failures(pings))
    ensures Measures(rs[|rs| - 1], pings[|pings| - 1])
    ensures id in telemetry && telemetry[id] == Fold(Unknown(id), rs)
  {
    hide Fold, Entry, Written, Unknown;
    var records := Probe(counters, p, id, source, pings);
    rs := records;
    var store := LoadHealth(ids, records);
    OfOnePath(records, id);
    ServedEntry(store.overrides, id);
    telemetry := Served(store.overrides);
  }

  /** The reading the probe will serve of path `t` carries the streaks of this history, and the last ping. */
  ghost predicate ProbeHolds(c: Controller, t: nat, history: seq<bool>, last: Ping)
    requires t < |c.paths|
    reads c.net`telemetry
  {
    var r := ProbeReading(c, t);
    && r.consecutiveFailures == Streak(history, true) && r.consecutiveSuccesses == Streak(history, false)
    && r.state in {HealthFailed, HealthHealthy}
    && Shows(r, last, c.net.requireObservations)
  }

  /** The reading is that of the last ping; one without the observations that are demanded counts as lost. */
  predicate Shows(r: Reading, last: Ping, requireObservations: bool) {
    r.rttMs == last.rttMs && r.packetLossPercent == if requireObservations then 100.0 else last.lossPercent
  }

  /** What a view must show of a debounced path. */
  ghost predicate ViewDebounced(v: View, c: Constraints, id: Id, history: seq<bool>, before: set<Id>)
    requires v.Valid() && v.Known(id)
  {
    && FailureDebounced(v, c, id, history)
    && (id !in v.health ==> id !in before && |v.health| >= MAX_PATHS)
  }

  lemma Judged(c: Controller, t: nat, v: View, sel: Selection, clock: Clock, selected: Id, history: seq<bool>, last: Ping,
               before: set<Id>)
    requires t < |c.paths| && FindPath(c.paths, c.paths[t].pathId) == Some(t) && ProbeHolds(c, t, history, last)
    requires v.Valid() && v.paths == c.paths && before <= v.health.Keys && Settled(c, v.health, c.paths[t].pathId)
    ensures v.Known(c.paths[t].pathId) && ViewDebounced(v, sel.constraints, c.paths[t].pathId, history, before)
    ensures c.paths[t].pathId in v.health ==> Shows(v.health[c.paths[t].pathId], last, c.net.requireObservations)
    ensures Choose(v, clock, sel) == Chosen(selected) && c.paths[t].pathId in v.health ==>
              RecoveryDebounced(v, sel.constraints, c.paths[t].pathId, selected, history)
  {
    hide Settled, Choose, FailureDebounced, RecoveryDebounced, ProbeReading, Streak;
    var id := c.paths[t].pathId;
    ViewHoldsProbe(c, v.health, id, t);
    if id in v.health { Debounced(v, sel, clock, id, selected, history); } else { UnseenIsNotExcluded(v, sel.constraints, id, history); }
  }

  /** A submission decides on the streaks that the probe serves. */
  method SubmitProbed(c: Controller, t: nat, intent: Intent, clock: Clock, ghost history: seq<bool>, ghost last: Ping)
    returns (err: ErrorCode, result: Option<ReconcileResult>, ghost step: Step, ghost view: View)
    requires c.Shape() && c.Backing() && c.transitionState in {Idle, Failed} && !c.net.faults.validatePath
    requires t < |c.paths| && FindPath(c.paths, c.paths[t].pathId) == Some(t) && ProbeHolds(c, t, history, last)
    requires c.paths[t].pathId in ObservedIds(c.paths, intent.selection)
    modifies c`transitionState, c`opState, c`observed, c`health, c`intents, c.net`up, c.net`trace
    modifies c.net.vpp, c.net.vpp.trafficKeys, c.net.vpp.activePaths
    modifies c.applied, c.applied.trafficKeys, c.applied.appliedPaths, c.applied.appliedSinceMs
    ensures c.Shape() && c.Backing()
    ensures step != Refused ==>
              && result.Some? && view.Valid() && view.paths == c.paths && view.opState == old(c.opState)
              && view.applied == AppliedPath(old(c.applied.paths), TrafficKey(intent.traffic))
              && view.Known(c.paths[t].pathId)
              && ViewDebounced(view, intent.selection.constraints, c.paths[t].pathId, history, old(c.health.Keys))
              && (c.paths[t].pathId in view.health ==> Shows(view.health[c.paths[t].pathId], last, c.net.requireObservations))
    ensures step in {Maintained, Switched} && c.paths[t].pathId in view.health ==>
              RecoveryDebounced(view, intent.selection.constraints, c.paths[t].pathId, result.value.selectedPath, history)
  {
    hide Represents, Observe, SwitchOutcome, Choose, TrafficKey, Bounded, Activated, Settled, MayRefuse, ViewDebounced, RecoveryDebounced;
    hide ProbeReading, ProbeHolds, Shows, WithIntent, RequestsUnknown, SegmentCount, Reliable, IntentCountsValid;
    hide Controller.Backing, Controller.Shape, PathCountsValid, SwitchTried, Explains, Smooth, ObservedSet, ReadingsOf, FindPath;
    ghost var before := c.health.Keys;
    ghost var sw;
    err, result, step, view, sw := SubmitIntent(c, intent, clock);
    if step != Refused {
      Judged(c, t, view, intent.selection, clock, result.value.selectedPath, history, last, before);
    }
  }

  /** Debounce, end to end. The agent samples a path; the daemon marks every path unknown, stores the records
      and submits an intent that observes the path. If the path is active and excluded for its health, under a
      failure threshold of `k`, its last `k` probes all failed. If it was on standby beside another active
      path and is selected, under a recovery threshold of `k`, its last `k` probes all succeeded, unless the
      controller had no room for its reading; and the reading shows the last ping. */
  method SampleAndSubmit(counters: Counters, p: nat, source: Id, pings: seq<Ping>, c: Controller, t: nat, intent: Intent, clock: Clock)
    returns (err: ErrorCode, result: Option<ReconcileResult>, ghost step: Step, ghost view: View)
    requires counters.Valid() && p < MAX_PATHS && |pings| > 0 && pings[0].nowMs >= 0
    requires forall i, j :: 0 <= i < j < |pings| ==> pings[i].nowMs <= pings[j].nowMs
    requires c.Shape() && c.Backing() && c.transitionState in {Idle, Failed} && !c.net.faults.validatePath
    requires counters.successes != c.applied.appliedSinceMs && counters.failures != c.applied.appliedSinceMs
    requires |c.paths| <= MAX_PATHS && t < |c.paths| && FindPath(c.paths, c.paths[t].pathId) == Some(t)
    requires c.paths[t].pathId in ObservedIds(c.paths, intent.selection)
    modifies counters, counters.successes, counters.failures, counters.previousRtt, counters.hasPreviousRtt
    modifies c`transitionState, c`opState, c`observed, c`health, c`intents, c.net`up, c.net`trace, c.net`telemetry
    modifies c.net.vpp, c.net.vpp.trafficKeys, c.net.vpp.activePaths
    modifies c.applied, c.applied.trafficKeys, c.applied.appliedPaths, c.applied.appliedSinceMs
    ensures c.Shape() && c.Backing()
    ensures counters.history == old(counters.history)[p := old(counters.history)[p] + Failures(pings)]
    ensures step != Refused ==>
              && result.Some? && view.Valid() && view.paths == c.paths && view.opState == old(c.opState)
              && view.applied == AppliedPath(old(c.applied.paths), TrafficKey(intent.traffic))
              && view.Known(c.paths[t].pathId)
              && ViewDebounced(view, intent.selection.constraints, c.paths[t].pathId, counters.history[p], old(c.health.Keys))
              && (c.paths[t].pathId in view.health ==> Shows(view.health[c.paths[t].pathId], pings[|pings| - 1], c.net.requireObservations))
    ensures step in {Maintained, Switched} && c.paths[t].pathId in view.health ==>
              RecoveryDebounced(view, intent.selection.constraints, c.paths[t].pathId, result.value.selectedPath, counters.history[p])
  {
    hide Represents, TrafficKey, Fold, AgentRecords, ProbeReading, Failures, ViewDebounced, RecoveryDebounced, Streak, Unknown;
    ghost var earlier := counters.history[p];
    assert PathIds(c.paths)[t] == c.paths[t].pathId;
    var telemetry;
    ghost var rs;
    telemetry, rs := SampleAndLoad(counters, p, source, pings, PathIds(c.paths), c.paths[t].pathId);
    c.net.telemetry := telemetry;
    ProbeCarries(c, t, rs, earlier, Failures(pings));
    err, result, step, view := SubmitProbed(c, t, intent, clock, counters.history[p], pings[|pings| - 1]);
  }
}
