/** The measuring agent's probe loop (examples/eventnet_agent.c): consecutive success and failure counters
    per probe, and what they mean once they have passed through the telemetry store into path selection. */
module Agent {
  import opened Model
  import opened Telemetry
  import opened Backends
  import opened PathSelection

  /** How many of the latest results equal `b`. */
  function Streak(history: seq<bool>, b: bool): (n: nat)
    ensures n <= |history|
  {
    if |history| == 0 || history[|history| - 1] != b then 0 else 1 + Streak(history[..|history| - 1], b)
  }

  /** The last `k` results all equal `b`. */
  predicate LastAll(history: seq<bool>, k: nat, b: bool) {
    k <= |history| && forall i :: |history| - k <= i < |history| ==> history[i] == b
  }

  /** A streak of at least `k` is exactly a run of `k` equal results at the end. */
  lemma {:induction false} StreakMeans(history: seq<bool>, k: nat, b: bool)
    ensures Streak(history, b) >= k <==> LastAll(history, k, b)
  {
    if k > 0 && |history| > 0 {
      var n := |history| - 1;
      StreakMeans(history[..n], k - 1, b);
      assert forall i :: 0 <= i < n ==> history[..n][i] == history[i];
      if Streak(history, b) >= k {
        assert LastAll(history[..n], k - 1, b);
        forall i | |history| - k <= i < |history| ensures history[i] == b {
          if i < n { assert history[..n][i] == b; }
        }
      }
      if LastAll(history, k, b) { assert history[n] == b && LastAll(history[..n], k - 1, b); }
    }
  }

  /** The record the agent writes for a sample (`write_measurement`). */
  function Measurement(path: Id, source: Id, sequence: int, rttMs: real, lossPercent: real, jitterMs: real,
                       successes: int, failures: int, nowMs: int): PathHealth
  {
    PathHealth(path, source, sequence, if lossPercent >= 100.0 then HealthFailed else HealthHealthy,
               rttMs, lossPercent, jitterMs, failures, successes, None, "", "", "", None, None, nowMs)
  }

  function Distance(a: real, b: real): (d: real)
    ensures d >= 0.0 && (d == a - b || d == b - a)
  {
    if a > b then a - b else b - a
  }

  /** The static counters of the probe loop, one slot per probe. */
  class Counters {
    const successes: array<int>
    const failures: array<int>
    const previousRtt: array<real>
    const hasPreviousRtt: array<bool>
    /** For each probe, which of its samples failed, oldest first. */
    ghost var history: seq<seq<bool>>

    ghost predicate Valid()
      reads this, successes, failures, previousRtt, hasPreviousRtt
    {
      && successes != failures
      && successes.Length == failures.Length == previousRtt.Length == hasPreviousRtt.Length == |history| == MAX_PATHS
      && forall p :: 0 <= p < MAX_PATHS ==>
           successes[p] == Streak(history[p], false) && failures[p] == Streak(history[p], true)
    }

    constructor ()
      ensures Valid() && history == seq(MAX_PATHS, _ => [])
      ensures fresh(successes) && fresh(failures) && fresh(previousRtt) && fresh(hasPreviousRtt)
    {
      successes := new int[MAX_PATHS](_ => 0);
      failures := new int[MAX_PATHS](_ => 0);
      previousRtt := new real[MAX_PATHS](_ => 0.0);
      hasPreviousRtt := new bool[MAX_PATHS](_ => false);
      history := seq(MAX_PATHS, _ => []);
    }

    /** One sample of probe `p`: the record carries the lengths of the current streaks. */
    method Sample(p: nat, path: Id, source: Id, sequence: int, rttMs: real, lossPercent: real, nowMs: int) returns (r: PathHealth)
      requires Valid() && p < MAX_PATHS
      modifies this, successes, failures, previousRtt, hasPreviousRtt
      ensures Valid()
      ensures history == old(history)[p := old(history)[p] + [lossPercent >= 100.0]]
      ensures r.pathId == path && r.sourceNode == source && r.sequence == sequence && r.lastUpdatedMs == nowMs
      ensures r.consecutiveSuccesses == Streak(history[p], false) && r.consecutiveFailures == Streak(history[p], true)
      ensures r.state == (if lossPercent >= 100.0 then HealthFailed else HealthHealthy) && !Bearing(r)
      ensures r.rttMs == rttMs && r.packetLossPercent == lossPercent
      ensures var answered := lossPercent < 100.0 && rttMs > 0.0;
              && r.jitterMs == (if answered && old(hasPreviousRtt[p]) then Distance(rttMs, old(previousRtt[p])) else 0.0)
              && hasPreviousRtt[p] == (old(hasPreviousRtt[p]) || answered)
              && previousRtt[p] == if answered then rttMs else old(previousRtt[p])
      ensures forall q :: 0 <= q < MAX_PATHS && q != p ==>
                hasPreviousRtt[q] == old(hasPreviousRtt[q]) && previousRtt[q] == old(previousRtt[q])
    {
      var jitterMs := 0.0;
      if hasPreviousRtt[p] && lossPercent < 100.0 && rttMs > 0.0 {
        jitterMs := if rttMs > previousRtt[p] then rttMs - previousRtt[p] else previousRtt[p] - rttMs;
      }
      if lossPercent < 100.0 && rttMs > 0.0 {
        previousRtt[p] := rttMs;
        hasPreviousRtt[p] := true;
      }
      ghost var before := history[p];
      StreakStep(before, lossPercent >= 100.0);
      if lossPercent >= 100.0 {
        failures[p] := failures[p] + 1;
        successes[p] := 0;
      } else {
        successes[p] := successes[p] + 1;
        failures[p] := 0;
      }
      history := history[p := history[p] + [lossPercent >= 100.0]];
      r := Measurement(path, source, sequence, rttMs, lossPercent, jitterMs, successes[p], failures[p], nowMs);
    }
  }

  lemma StreakStep(history: seq<bool>, b: bool)
    ensures Streak(history + [b], b) == Streak(history, b) + 1
    ensures Streak(history + [b], !b) == 0
  {
    assert (history + [b])[..|history|] == history;
  }

  // ----- from probes to selection -----

  /** The record carries the streaks at the end of the history. */
  ghost predicate Carries(r: PathHealth, history: seq<bool>) {
    r.consecutiveFailures == Streak(history, true) && r.consecutiveSuccesses == Streak(history, false)
  }

  /** The record the agent writes when the last sample of its history failed or not. */
  ghost predicate Written(r: PathHealth, failed: bool, history: seq<bool>) {
    !Bearing(r) && r.state == (if failed then HealthFailed else HealthHealthy) && Carries(r, history)
  }

  /** `rs` is what the agent wrote for the samples that failed or not as `results` says, after it had already
      taken those of `earlier`; the records are in order. */
  ghost predicate AgentRecords(rs: seq<PathHealth>, earlier: seq<bool>, results: seq<bool>) {
    && |rs| == |results|
    && (forall i :: 0 <= i < |rs| ==> Written(rs[i], results[i], earlier + results[..i + 1]))
    && (forall i, j :: 0 <= i < j < |rs| ==>
          rs[i].lastUpdatedMs <= rs[j].lastUpdatedMs && rs[i].sequence < rs[j].sequence)
  }

  /** In-order records of an agent simply replace each other, and whatever older record was there first: the
      stored one carries the last streaks. */
  lemma {:induction false} StoredIsLatest(e: PathHealth, rs: seq<PathHealth>, earlier: seq<bool>, results: seq<bool>)
    requires AgentRecords(rs, earlier, results) && |rs| > 0 && !Stale(e, rs[0])
    ensures var stored, last := Fold(e, rs), rs[|rs| - 1];
            && Carries(stored, earlier + results)
            && stored.state == last.state && stored.state in {HealthFailed, HealthHealthy}
            && stored.lastUpdatedMs == last.lastUpdatedMs && stored.sequence == last.sequence && stored.sourceNode == last.sourceNode
            && stored.rttMs == last.rttMs && stored.packetLossPercent == last.packetLossPercent && stored.jitterMs == last.jitterMs
  {
    var n := |rs| - 1;
    assert results[..n + 1] == results;
    if n > 0 {
      var before, fewer := rs[..n], results[..n];
      assert AgentRecords(before, earlier, fewer) by {
        forall i | 0 <= i < n ensures before[i] == rs[i] && fewer[..i + 1] == results[..i + 1] {
        }
      }
      StoredIsLatest(e, before, earlier, fewer);
      assert before[n - 1] == rs[n - 1];
      assert !Stale(Fold(e, before), rs[n]);
    } else {
      assert rs[..0] == [];
    }
  }

  lemma RecordsExtend(rs: seq<PathHealth>, earlier: seq<bool>, results: seq<bool>, r: PathHealth, failed: bool)
    requires AgentRecords(rs, earlier, results) && Written(r, failed, earlier + (results + [failed]))
    requires |rs| > 0 ==> rs[|rs| - 1].lastUpdatedMs <= r.lastUpdatedMs && rs[|rs| - 1].sequence < r.sequence
    ensures AgentRecords(rs + [r], earlier, results + [failed])
  {
    hide Written;
    var all, outcomes := rs + [r], results + [failed];
    forall i | 0 <= i < |all| ensures Written(all[i], outcomes[i], earlier + outcomes[..i + 1]) {
      if i < |rs| {
        assert outcomes[..i + 1] == results[..i + 1];
      } else {
        assert outcomes[..i + 1] == outcomes;
      }
    }
  }

  lemma WrittenBySample(r: PathHealth, failed: bool, history: seq<bool>)
    requires r.consecutiveSuccesses == Streak(history, false) && r.consecutiveFailures == Streak(history, true)
    requires r.state == (if failed then HealthFailed else HealthHealthy) && !Bearing(r)
    ensures Written(r, failed, history)
  {
  }

  /** One ping: round-trip time, loss and the time of the sample. */
  datatype Ping = Ping(rttMs: real, lossPercent: real, nowMs: int)

  /** The record says what was measured, and when. */
  predicate Measures(r: PathHealth, ping: Ping) {
    r.rttMs == ping.rttMs && r.packetLossPercent == ping.lossPercent && r.lastUpdatedMs == ping.nowMs
  }

  /** Which of the pings failed. */
  function Failures(pings: seq<Ping>): seq<bool> { seq(|pings|, i requires 0 <= i < |pings| => pings[i].lossPercent >= 100.0) }

  /** The probe loop for one path: what it writes is a run of agent records. */
  method Probe(counters: Counters, p: nat, path: Id, source: Id, pings: seq<Ping>) returns (rs: seq<PathHealth>)
    requires counters.Valid() && p < MAX_PATHS
    requires forall i, j :: 0 <= i < j < |pings| ==> pings[i].nowMs <= pings[j].nowMs
    modifies counters, counters.successes, counters.failures, counters.previousRtt, counters.hasPreviousRtt
    ensures counters.Valid()
    ensures counters.history == old(counters.history)[p := old(counters.history)[p] + Failures(pings)]
    ensures AgentRecords(rs, old(counters.history)[p], Failures(pings))
    ensures forall i :: 0 <= i < |rs| ==> rs[i].pathId == path && rs[i].sourceNode == source && Measures(rs[i], pings[i])
  {
    hide Streak, Carries, Bearing;
    rs := [];
    ghost var earlier := counters.history[p];
    assert Failures(pings[..0]) == [] && earlier + [] == earlier;
    assert counters.history[p := earlier] == counters.history;
    for i := 0 to |pings|
      invariant counters.Valid() && |rs| == i
      invariant counters.history == old(counters.history)[p := earlier + Failures(pings[..i])]
      invariant AgentRecords(rs, earlier, Failures(pings[..i]))
      invariant forall k :: 0 <= k < i ==>
                  rs[k].pathId == path && rs[k].sourceNode == source && Measures(rs[k], pings[k]) && rs[k].sequence == k + 1
    {
      var ping := pings[i];
      var r := counters.Sample(p, path, source, i + 1, ping.rttMs, ping.lossPercent, ping.nowMs);
      assert Failures(pings[..i + 1]) == Failures(pings[..i]) + [ping.lossPercent >= 100.0];
      assert earlier + Failures(pings[..i]) + [ping.lossPercent >= 100.0] == earlier + Failures(pings[..i + 1]);
      assert Written(r, ping.lossPercent >= 100.0, counters.history[p]) by { WrittenBySample(r, ping.lossPercent >= 100.0, counters.history[p]); }
      RecordsExtend(rs, earlier, Failures(pings[..i]), r, ping.lossPercent >= 100.0);
      rs := rs + [r];
    }
    assert pings[..|pings|] == pings;
  }

  /** The telemetry the health probe serves from a store. */
  function Served(overrides: seq<PathHealth>): map<Id, PathHealth> {
    map r | r in overrides :: r.pathId := Entry(overrides, r.pathId).value
  }

  lemma ServedEntry(overrides: seq<PathHealth>, id: Id)
    ensures id in Served(overrides) <==> Entry(overrides, id).Some?
    ensures id in Served(overrides) ==> Served(overrides)[id] == Entry(overrides, id).value
  {
  }

  lemma OfOnePath(rs: seq<PathHealth>, id: Id)
    requires forall i :: 0 <= i < |rs| ==> rs[i].pathId == id
    ensures Of(rs, id) == rs
  {
    if |rs| > 0 {
      OfOnePath(rs[..|rs| - 1], id);
      assert rs == rs[..|rs| - 1] + [rs[|rs| - 1]];
    }
  }

  /** Debounce of failures: an active path that is excluded for its health under a failure threshold of `k` had
      its last `k` probes all fail. */
  lemma ExcludedActiveFailedRepeatedly(v: View, c: Constraints, id: Id, history: seq<bool>, now: int)
    requires v.Valid() && v.Known(id) && v.Active(id) && c.failureThreshold > 0
    requires id in v.health && v.health[id].consecutiveFailures == Streak(history, true)
    requires ExclusionReason(v, c, id, now).Some? && ExclusionReason(v, c, id, now).value.HealthIs?
    ensures LastAll(history, c.failureThreshold, true)
  {
    StreakMeans(history, c.failureThreshold, true);
  }

  /** Debounce of recovery: a standby path that is eligible while another path is active under a recovery
      threshold of `k` had its last `k` probes all succeed. */
  lemma EligibleStandbyRecovered(v: View, c: Constraints, id: Id, history: seq<bool>, now: int)
    requires v.Valid() && v.ActiveExists() && !v.Active(id) && c.recoveryThreshold > 0
    requires id in v.health && v.health[id].consecutiveSuccesses == Streak(history, false) && v.health[id].state in {HealthFailed, HealthHealthy}
    requires Eligible(v, c, id, now) && v.StateOf(id) == PathStandby
    ensures LastAll(history, c.recoveryThreshold, false)
  {
    StreakMeans(history, c.recoveryThreshold, false);
  }

  /** What the probe serves of a path whose records came from the agent carries the agent's streaks. */
  lemma ServedCarries(e: PathHealth, rs: seq<PathHealth>, earlier: seq<bool>, results: seq<bool>, requireObservations: bool, path: Path, now: int)
    requires AgentRecords(rs, earlier, results) && |rs| > 0 && !Stale(e, rs[0])
    ensures var h := MockHealth(map[path.pathId := Fold(e, rs)], requireObservations, path, now);
            && Carries(h, earlier + results) && h.state in {HealthFailed, HealthHealthy}
            && h.rttMs == rs[|rs| - 1].rttMs
            && (e.routeState.None? || !requireObservations ==>
                  h.packetLossPercent == if requireObservations then 100.0 else rs[|rs| - 1].packetLossPercent)
  {
    StoredIsLatest(e, rs, earlier, results);
    PlainKeepsRoute(e, rs);
  }

  lemma {:induction false} PlainKeepsRoute(e: PathHealth, rs: seq<PathHealth>)
    requires forall i :: 0 <= i < |rs| ==> !Bearing(rs[i])
    ensures Fold(e, rs).routeState == e.routeState
  {
    if |rs| > 0 { PlainKeepsRoute(e, rs[..|rs| - 1]); }
  }

  lemma ProbeSees(telemetry: map<Id, PathHealth>, requireObservations: bool, path: Path, now: int)
    requires path.pathId in telemetry
    ensures MockHealth(telemetry, requireObservations, path, now) ==
            MockHealth(map[path.pathId := telemetry[path.pathId]], requireObservations, path, now)
  {
  }
}
