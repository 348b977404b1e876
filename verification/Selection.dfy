/** Path selection (src/path_selection.c): the exclusion rules, the lexicographic comparison, and
    the three selection modes with hysteresis.

    `SelectPath` is the loop of the source. `Choose` is an independent, declarative reading of what
    it must pick: the first usable candidate, or the least usable candidate under the comparison.

    The hold-down reads the clock anew for every candidate it is checked for. The readings are a parameter:
    a clock says what it reads when it is asked for the i-th candidate. It is the time of day, so nothing
    is assumed of how its readings follow each other. */
module PathSelection {
  import opened Model
  import opened Text

  /** The part of a stored health record that selection looks at. */
  datatype Reading = Reading(
    state: HealthState,
    rttMs: real,
    packetLossPercent: real,
    consecutiveFailures: int,
    consecutiveSuccesses: int)

  /** What the clock reads for the i-th candidate. */
  type Clock = nat -> int

  /** What selection reads of the controller for one traffic key. */
  datatype View = View(
    nodes: seq<Node>,
    paths: seq<Path>,
    opState: seq<PathState>,
    health: map<Id, Reading>,
    applied: Option<Id>,
    appliedSinceMs: int)
  {
    predicate Valid() { |opState| == |paths| }

    predicate Known(id: Id) { FindPath(paths, id).Some? }

    function PathOf(id: Id): (p: Path)
      requires Known(id)
      ensures p in paths && p.pathId == id
    {
      paths[FindPath(paths, id).value]
    }

    function StateOf(id: Id): PathState
      requires Valid() && Known(id)
    {
      opState[FindPath(paths, id).value]
    }

    function Health(id: Id): Option<Reading> {
      if id in health then Some(health[id]) else None
    }

    predicate Active(id: Id) { applied == Some(id) }

    predicate ActiveExists() { applied.Some? && applied.value != "" }

    function ActiveHealth(): Option<Reading> {
      if ActiveExists() then Health(applied.value) else None
    }
  }

  datatype Reason =
    | AdministrativelyDisabled
    | PathNodeDisabled
    | HoldDownNotElapsed
    | HealthIs(state: HealthState)
    | RecoveryThresholdNotMet
    | RttViolation
    | PacketLossViolation
    | ForbiddenWaypoint
    | RequiredWaypoint
    | CapabilityUnavailable

  datatype Why = NotSelected | ExplicitlyRequested | FirstUsable | RetainedByHysteresis | BestEvaluated

  datatype SelectionResult = SelectionResult(
    selectedPath: Id,
    candidates: seq<Id>,
    excluded: seq<(Id, Reason)>,
    why: Why)

  // ----- eligibility -----

  predicate NodeEnabled(nodes: seq<Node>, id: Id) {
    var n := FindNode(nodes, id);
    n.Some? && n.value.admin == AdminEnabled
  }

  predicate PathNodesEnabled(nodes: seq<Node>, path: Path) {
    |nodes| == 0 ||
    (&& NodeEnabled(nodes, path.source)
     && NodeEnabled(nodes, path.destination)
     && (forall i :: 0 <= i < |path.waypoints| ==> NodeEnabled(nodes, path.waypoints[i]))
     && (forall i :: 0 <= i < |path.segments| ==>
           NodeEnabled(nodes, path.segments[i].fromNode) && NodeEnabled(nodes, path.segments[i].toNode)))
  }

  predicate NodeHasCapability(nodes: seq<Node>, id: Id, capability: Id) {
    var n := FindNode(nodes, id);
    n.Some? && capability in n.value.capabilities
  }

  predicate PathSupportsCapabilities(nodes: seq<Node>, path: Path, required: seq<Id>) {
    forall c :: 0 <= c < |required| ==>
      && NodeHasCapability(nodes, path.source, required[c])
      && NodeHasCapability(nodes, path.destination, required[c])
      && forall i :: 0 <= i < |path.segments| ==>
           && NodeHasCapability(nodes, path.segments[i].fromNode, required[c])
           && NodeHasCapability(nodes, path.segments[i].toNode, required[c])
  }

  /** The reading falls into the hold-down of a path applied at `sinceMs`. */
  predicate InHoldDown(sinceMs: int, holdDownMs: int, nowMs: int) {
    sinceMs > 0 && holdDownMs > 0 && 0 <= nowMs - sinceMs < holdDownMs
  }

  /** The hold-down applies to every path but the active one, while the active one is usable. */
  predicate HeldDown(v: View, holdDownMs: int, nowMs: int) {
    && v.ActiveHealth().Some?
    && v.ActiveHealth().value.state.Usable()
    && InHoldDown(v.appliedSinceMs, holdDownMs, nowMs)
  }

  /** A bad path is excluded, except that the active one survives until the failure threshold. */
  predicate Unhealthy(h: Reading, active: bool, failureThreshold: int) {
    h.state.Bad() && !(active && failureThreshold > 0 && h.consecutiveFailures < failureThreshold)
  }

  predicate Recovering(v: View, id: Id, h: Reading, recoveryThreshold: int)
    requires v.Valid() && v.Known(id)
  {
    && v.ActiveExists()
    && !v.Active(id)
    && v.StateOf(id) == PathStandby
    && recoveryThreshold > 0
    && h.state.Usable()
    && h.consecutiveSuccesses < recoveryThreshold
  }

  function ExclusionReason(v: View, c: Constraints, id: Id, nowMs: int): Option<Reason>
    requires v.Valid() && v.Known(id)
  {
    var path := v.PathOf(id);
    var h := v.Health(id);
    if path.admin != AdminEnabled then Some(AdministrativelyDisabled)
    else if !PathNodesEnabled(v.nodes, path) then Some(PathNodeDisabled)
    else if !v.Active(id) && HeldDown(v, c.holdDownMs, nowMs) then Some(HoldDownNotElapsed)
    else if h.Some? && Unhealthy(h.value, v.Active(id), c.failureThreshold) then Some(HealthIs(h.value.state))
    else if h.Some? && Recovering(v, id, h.value, c.recoveryThreshold) then Some(RecoveryThresholdNotMet)
    else if h.Some? && c.maxRtt.Some? && h.value.rttMs > c.maxRtt.value then Some(RttViolation)
    else if h.Some? && c.maxPacketLoss.Some? && h.value.packetLossPercent > c.maxPacketLoss.value then Some(PacketLossViolation)
    else if exists i :: 0 <= i < |c.forbiddenWaypoints| && c.forbiddenWaypoints[i] in path.waypoints then Some(ForbiddenWaypoint)
    else if exists i :: 0 <= i < |c.requiredWaypoints| && c.requiredWaypoints[i] !in path.waypoints then Some(RequiredWaypoint)
    else if !PathSupportsCapabilities(v.nodes, path, c.requiredCapabilities) then Some(CapabilityUnavailable)
    else None
  }

  predicate Eligible(v: View, c: Constraints, id: Id, nowMs: int)
    requires v.Valid()
  {
    v.Known(id) && ExclusionReason(v, c, id, nowMs).None?
  }

  // ----- the rules, over the records -----

  /** What a candidate has to meet, in the order in which it is checked. */
  datatype Rule =
    | PathEnabled | NodesEnabled | HoldDownOver | NotFailed | Recovered
    | FastEnough | LossSmallEnough | AvoidsForbidden | VisitsRequired | NodesCapable

  function Rank(rule: Rule): nat {
    match rule
    case PathEnabled => 0
    case NodesEnabled => 1
    case HoldDownOver => 2
    case NotFailed => 3
    case Recovered => 4
    case FastEnough => 5
    case LossSmallEnough => 6
    case AvoidsForbidden => 7
    case VisitsRequired => 8
    case NodesCapable => 9
  }

  /** The node of that name; the first one if there were several. */
  ghost predicate IsNode(nodes: seq<Node>, id: Id, n: Node) {
    exists i :: 0 <= i < |nodes| && nodes[i] == n && n.nodeId == id && forall j :: 0 <= j < i ==> nodes[j].nodeId != id
  }

  ghost predicate IsEnabled(nodes: seq<Node>, id: Id) {
    exists n :: IsNode(nodes, id, n) && n.admin == AdminEnabled
  }

  ghost predicate IsCapable(nodes: seq<Node>, id: Id, capability: Id) {
    exists n :: IsNode(nodes, id, n) && capability in n.capabilities
  }

  /** Where the path starts and ends, and where each of its segments does. */
  ghost predicate IsEnd(path: Path, id: Id) {
    id == path.source || id == path.destination ||
    exists i :: 0 <= i < |path.segments| && (path.segments[i].fromNode == id || path.segments[i].toNode == id)
  }

  /** The i-th path of the view meets this rule when the clock reads `now`. */
  ghost predicate Meets(v: View, c: Constraints, i: nat, now: int, rule: Rule)
    requires i < |v.paths| == |v.opState|
  {
    var path := v.paths[i];
    var id := path.pathId;
    var active := v.applied == Some(id);
    var challenges := v.applied.Some? && v.applied.value != "" && !active;
    match rule
    case PathEnabled => path.admin == AdminEnabled
    case NodesEnabled => v.nodes == [] || forall n :: IsEnd(path, n) || n in path.waypoints ==> IsEnabled(v.nodes, n)
    case HoldDownOver =>
      (challenges && v.applied.value in v.health && v.health[v.applied.value].state in {HealthHealthy, HealthDegraded} &&
       v.appliedSinceMs > 0 && c.holdDownMs > 0) ==> (now < v.appliedSinceMs || v.appliedSinceMs + c.holdDownMs <= now)
    case NotFailed =>
      id in v.health && v.health[id].state in {HealthUnhealthy, HealthFailed} ==>
        active && v.health[id].consecutiveFailures < c.failureThreshold && 0 < c.failureThreshold
    case Recovered =>
      (challenges && v.opState[i] == PathStandby && c.recoveryThreshold > 0 &&
       id in v.health && v.health[id].state in {HealthHealthy, HealthDegraded}) ==> v.health[id].consecutiveSuccesses >= c.recoveryThreshold
    case FastEnough => id in v.health && c.maxRtt.Some? ==> v.health[id].rttMs <= c.maxRtt.value
    case LossSmallEnough => id in v.health && c.maxPacketLoss.Some? ==> v.health[id].packetLossPercent <= c.maxPacketLoss.value
    case AvoidsForbidden => forall w :: w in path.waypoints ==> w !in c.forbiddenWaypoints
    case VisitsRequired => forall w :: w in c.requiredWaypoints ==> w in path.waypoints
    case NodesCapable => forall n, capability :: IsEnd(path, n) && capability in c.requiredCapabilities ==> IsCapable(v.nodes, n, capability)
  }

  /** What is reported of a path that breaks a rule. */
  ghost predicate Reports(v: View, i: nat, rule: Rule, reason: Reason)
    requires i < |v.paths|
  {
    match rule
    case PathEnabled => reason == AdministrativelyDisabled
    case NodesEnabled => reason == PathNodeDisabled
    case HoldDownOver => reason == HoldDownNotElapsed
    case NotFailed => v.paths[i].pathId in v.health && reason == HealthIs(v.health[v.paths[i].pathId].state)
    case Recovered => reason == RecoveryThresholdNotMet
    case FastEnough => reason == RttViolation
    case LossSmallEnough => reason == PacketLossViolation
    case AvoidsForbidden => reason == ForbiddenWaypoint
    case VisitsRequired => reason == RequiredWaypoint
    case NodesCapable => reason == CapabilityUnavailable
  }

  /** The i-th path is the one of that name. */
  ghost predicate IsPath(v: View, id: Id, i: nat) {
    i < |v.paths| && v.paths[i].pathId == id && forall j :: 0 <= j < i ==> v.paths[j].pathId != id
  }

  /** The path of that name meets all rules. */
  ghost predicate MeetsAll(v: View, c: Constraints, id: Id, now: int)
    requires v.Valid()
  {
    exists i: nat :: IsPath(v, id, i) && forall rule :: Meets(v, c, i, now, rule)
  }

  /** The path of that name breaks a rule, meets all before it, and the reason is the one for this rule. */
  ghost predicate BreaksFirst(v: View, c: Constraints, id: Id, now: int, reason: Reason)
    requires v.Valid()
  {
    exists i: nat, rule :: IsPath(v, id, i) && !Meets(v, c, i, now, rule) && Reports(v, i, rule, reason) &&
      forall earlier :: Rank(earlier) < Rank(rule) ==> Meets(v, c, i, now, earlier)
  }

  lemma {:induction false} FoundIsNode(nodes: seq<Node>, id: Id)
    ensures forall n :: IsNode(nodes, id, n) <==> FindNode(nodes, id) == Some(n)
  {
    if |nodes| > 0 && nodes[0].nodeId != id {
      FoundIsNode(nodes[1..], id);
      forall n ensures IsNode(nodes, id, n) <==> IsNode(nodes[1..], id, n) {
        if IsNode(nodes, id, n) {
          var i :| 0 <= i < |nodes| && nodes[i] == n && n.nodeId == id && forall j :: 0 <= j < i ==> nodes[j].nodeId != id;
          assert nodes[1..][i - 1] == n;
        }
        if IsNode(nodes[1..], id, n) {
          var i :| 0 <= i < |nodes[1..]| && nodes[1..][i] == n && n.nodeId == id && forall j :: 0 <= j < i ==> nodes[1..][j].nodeId != id;
          assert nodes[i + 1] == n && forall j :: 0 < j < i + 1 ==> nodes[j] == nodes[1..][j - 1];
        }
      }
    }
  }

  lemma EnabledIsEnabled(nodes: seq<Node>, id: Id)
    ensures NodeEnabled(nodes, id) <==> IsEnabled(nodes, id)
  {
    FoundIsNode(nodes, id);
  }

  lemma CapableIsCapable(nodes: seq<Node>, id: Id, capability: Id)
    ensures NodeHasCapability(nodes, id, capability) <==> IsCapable(nodes, id, capability)
  {
    FoundIsNode(nodes, id);
  }

  lemma NodesRule(nodes: seq<Node>, path: Path)
    ensures PathNodesEnabled(nodes, path) <==> nodes == [] || forall n :: IsEnd(path, n) || n in path.waypoints ==> IsEnabled(nodes, n)
  {
    hide NodeEnabled, IsEnabled;
    forall n ensures NodeEnabled(nodes, n) <==> IsEnabled(nodes, n) { EnabledIsEnabled(nodes, n); }
    if forall n :: IsEnd(path, n) || n in path.waypoints ==> IsEnabled(nodes, n) {
      assert IsEnd(path, path.source) && IsEnd(path, path.destination);
      forall i | 0 <= i < |path.segments| ensures IsEnd(path, path.segments[i].fromNode) && IsEnd(path, path.segments[i].toNode) {}
    }
  }

  lemma CapabilityRule(nodes: seq<Node>, path: Path, required: seq<Id>)
    ensures PathSupportsCapabilities(nodes, path, required) <==>
            forall n, capability :: IsEnd(path, n) && capability in required ==> IsCapable(nodes, n, capability)
  {
    hide NodeHasCapability, IsCapable;
    forall n, capability ensures NodeHasCapability(nodes, n, capability) <==> IsCapable(nodes, n, capability) {
      CapableIsCapable(nodes, n, capability);
    }
    if forall n, capability :: IsEnd(path, n) && capability in required ==> IsCapable(nodes, n, capability) {
      forall k | 0 <= k < |required|
        ensures NodeHasCapability(nodes, path.source, required[k]) && NodeHasCapability(nodes, path.destination, required[k])
        ensures forall i :: 0 <= i < |path.segments| ==>
                  NodeHasCapability(nodes, path.segments[i].fromNode, required[k]) && NodeHasCapability(nodes, path.segments[i].toNode, required[k])
      {
        assert IsEnd(path, path.source) && IsEnd(path, path.destination);
        forall i | 0 <= i < |path.segments| ensures IsEnd(path, path.segments[i].fromNode) && IsEnd(path, path.segments[i].toNode) {}
      }
    }
  }

  lemma WaypointRules(path: Path, c: Constraints)
    ensures (exists i :: 0 <= i < |c.forbiddenWaypoints| && c.forbiddenWaypoints[i] in path.waypoints) <==>
            !forall w :: w in path.waypoints ==> w !in c.forbiddenWaypoints
    ensures (exists i :: 0 <= i < |c.requiredWaypoints| && c.requiredWaypoints[i] !in path.waypoints) <==>
            !forall w :: w in c.requiredWaypoints ==> w in path.waypoints
  {
  }

  /** A known path is excluded exactly for the first rule it breaks. */
  lemma ReasonIsFirstBroken(v: View, c: Constraints, id: Id, now: int)
    requires v.Valid() && v.Known(id)
    ensures ExclusionReason(v, c, id, now).None? <==> MeetsAll(v, c, id, now)
    ensures ExclusionReason(v, c, id, now).Some? ==> BreaksFirst(v, c, id, now, ExclusionReason(v, c, id, now).value)
  {
    hide PathNodesEnabled, PathSupportsCapabilities, IsEnabled, IsCapable, IsEnd, FindPath;
    var i := FindPath(v.paths, id).value;
    var path := v.paths[i];
    assert IsPath(v, id, i) && v.PathOf(id) == path;
    assert forall j: nat :: IsPath(v, id, j) ==> j == i;
    NodesRule(v.nodes, path);
    CapabilityRule(v.nodes, path, c.requiredCapabilities);
    WaypointRules(path, c);
    var reason := ExclusionReason(v, c, id, now);
    if reason.None? {
      forall rule ensures Meets(v, c, i, now, rule) {}
    } else {
      var rule := RuleOf(reason.value);
      assert !Meets(v, c, i, now, rule) && Reports(v, i, rule, reason.value);
      forall earlier | Rank(earlier) < Rank(rule) ensures Meets(v, c, i, now, earlier) {}
    }
  }

  function RuleOf(reason: Reason): Rule {
    match reason
    case AdministrativelyDisabled => PathEnabled
    case PathNodeDisabled => NodesEnabled
    case HoldDownNotElapsed => HoldDownOver
    case HealthIs(_) => NotFailed
    case RecoveryThresholdNotMet => Recovered
    case RttViolation => FastEnough
    case PacketLossViolation => LossSmallEnough
    case ForbiddenWaypoint => AvoidsForbidden
    case RequiredWaypoint => VisitsRequired
    case CapabilityUnavailable => NodesCapable
  }

  // ----- comparison -----

  /** A metric; a path without health has the worst loss and latency (`DBL_MAX`). */
  datatype Metric = Finite(value: real) | Top {
    predicate Less(other: Metric) {
      Finite? && (other.Top? || value < other.value)
    }
  }

  function MetricValue(v: View, id: Id, key: ComparisonKey): Metric
    requires v.Known(id)
  {
    match key
    case ByPacketLoss => if v.Health(id).None? then Top else Finite(v.Health(id).value.packetLossPercent)
    case ByLatency => if v.Health(id).None? then Top else Finite(v.Health(id).value.rttMs)
    case ByHopCount => Finite((|v.PathOf(id).waypoints| + 1) as real)
    case ByAdminPriority => Finite(v.PathOf(id).priority as real)
    case ByPathId => Finite(0.0)
  }

  /** The keys the comparison runs through: an empty order means the path identifier. */
  function Keys(order: seq<ComparisonKey>): (k: seq<ComparisonKey>)
    ensures |k| > 0
  {
    if |order| == 0 then [ByPathId] else order
  }

  function CompareByKeys(v: View, keys: seq<ComparisonKey>, a: Id, b: Id): int
    requires v.Known(a) && v.Known(b)
  {
    if |keys| == 0 then StrCmp(a, b)
    else if keys[0] == ByPathId then
      if StrCmp(a, b) != 0 then StrCmp(a, b) else CompareByKeys(v, keys[1..], a, b)
    else
      var x, y := MetricValue(v, a, keys[0]), MetricValue(v, b, keys[0]);
      if x.Less(y) then -1
      else if y.Less(x) then 1
      else CompareByKeys(v, keys[1..], a, b)
  }

  function ComparePaths(v: View, order: seq<ComparisonKey>, a: Id, b: Id): int
    requires v.Known(a) && v.Known(b)
  {
    CompareByKeys(v, Keys(order), a, b)
  }

  predicate Before(v: View, order: seq<ComparisonKey>, a: Id, b: Id) {
    v.Known(a) && v.Known(b) && ComparePaths(v, order, a, b) < 0
  }

  lemma {:induction false} CompareAntisymmetric(v: View, keys: seq<ComparisonKey>, a: Id, b: Id)
    requires v.Known(a) && v.Known(b)
    ensures CompareByKeys(v, keys, a, b) == -CompareByKeys(v, keys, b, a)
    ensures CompareByKeys(v, keys, a, b) == 0 <==> a == b
  {
    StrCmpAntisymmetric(a, b);
    StrCmpZero(a, b);
    if |keys| > 0 { CompareAntisymmetric(v, keys[1..], a, b); }
  }

  lemma {:induction false} CompareTransitive(v: View, keys: seq<ComparisonKey>, a: Id, b: Id, c: Id)
    requires v.Known(a) && v.Known(b) && v.Known(c)
    requires CompareByKeys(v, keys, a, b) < 0 && CompareByKeys(v, keys, b, c) < 0
    ensures CompareByKeys(v, keys, a, c) < 0
  {
    StrCmpZero(a, b);
    StrCmpZero(b, c);
    if |keys| == 0 || keys[0] == ByPathId {
      if StrCmp(a, b) < 0 && StrCmp(b, c) < 0 { StrCmpTransitive(a, b, c); }
      if |keys| > 0 {
        CompareAntisymmetric(v, keys[1..], a, b);
        CompareAntisymmetric(v, keys[1..], b, c);
      }
    } else {
      var x, y, z := MetricValue(v, a, keys[0]), MetricValue(v, b, keys[0]), MetricValue(v, c, keys[0]);
      if !x.Less(y) && !y.Less(z) { CompareTransitive(v, keys[1..], a, b, c); }
    }
  }

  /** For every key list the comparison is a strict total order on the identifiers of known paths. */
  lemma CompareIsTotalOrder(v: View, order: seq<ComparisonKey>)
    ensures forall a :: !Before(v, order, a, a)
    ensures forall a, b :: v.Known(a) && v.Known(b) && a != b ==> (Before(v, order, a, b) <==> !Before(v, order, b, a))
    ensures forall a, b, c :: Before(v, order, a, b) && Before(v, order, b, c) ==> Before(v, order, a, c)
  {
    forall a ensures !Before(v, order, a, a) {
      if v.Known(a) { CompareAntisymmetric(v, Keys(order), a, a); }
    }
    forall a, b | v.Known(a) && v.Known(b) && a != b
      ensures Before(v, order, a, b) <==> !Before(v, order, b, a)
    {
      CompareAntisymmetric(v, Keys(order), a, b);
    }
    forall a, b, c | Before(v, order, a, b) && Before(v, order, b, c)
      ensures Before(v, order, a, c)
    {
      CompareTransitive(v, Keys(order), a, b, c);
    }
  }

  /** `b` comes before every other member of `s`. */
  ghost predicate IsLeast(v: View, order: seq<ComparisonKey>, b: Id, s: set<Id>) {
    b in s && forall x :: x in s && x != b ==> Before(v, order, b, x)
  }

  lemma LeastIsUnique(v: View, order: seq<ComparisonKey>, s: set<Id>, a: Id, b: Id)
    requires IsLeast(v, order, a, s) && IsLeast(v, order, b, s)
    ensures a == b
  {
    CompareIsTotalOrder(v, order);
  }

  /** One step of the search for the least element. */
  lemma LeastExtends(v: View, order: seq<ComparisonKey>, s: set<Id>, b: Id, x: Id)
    requires IsLeast(v, order, b, s) && v.Known(b) && v.Known(x)
    ensures IsLeast(v, order, if Before(v, order, x, b) then x else b, s + {x})
  {
    CompareIsTotalOrder(v, order);
  }

  /** One more candidate: the better of it and the best so far is the best. */
  lemma BestSoFar(v: View, order: seq<ComparisonKey>, s: set<Id>, best: Option<Id>, x: Id)
    requires v.Known(x) && (best.None? ==> s == {}) && (best.Some? ==> v.Known(best.value) && IsLeast(v, order, best.value, s))
    ensures IsLeast(v, order, if best.None? || ComparePaths(v, order, x, best.value) < 0 then x else best.value, s + {x})
  {
    if best.Some? { LeastExtends(v, order, s, best.value, x); }
  }

  lemma {:induction false} LeastExists(v: View, order: seq<ComparisonKey>, s: set<Id>)
    requires s != {} && forall x :: x in s ==> v.Known(x)
    ensures exists b :: IsLeast(v, order, b, s)
  {
    var x :| x in s;
    if s == {x} {
      assert IsLeast(v, order, x, s);
    } else {
      LeastExists(v, order, s - {x});
      var b :| IsLeast(v, order, b, s - {x});
      LeastExtends(v, order, s - {x}, b, x);
      assert s - {x} + {x} == s;
    }
  }

  // ----- hysteresis -----

  /** The share by which `best` improves on the active value is below `percent`. */
  predicate ImprovesLessThan(active: real, best: Metric, percent: real) {
    best.Top? || ((active - best.value) / Baseline(active)) * 100.0 < percent
  }

  /** `fmax(fabs(active), 1.0)` */
  function Baseline(active: real): (r: real)
    ensures r >= 1.0 && r >= active && r >= -active
  {
    var magnitude := if active < 0.0 then -active else active;
    if magnitude < 1.0 then 1.0 else magnitude
  }

  /** The active path, itself eligible, stays selected although `best` compares before it. */
  predicate Retained(v: View, sel: Selection, activeEligible: bool, best: Id)
    requires v.Known(best)
  {
    && activeEligible
    && v.applied.Some?
    && v.ActiveHealth().Some?
    && sel.constraints.hysteresis.Some?
    && best != v.applied.value
    && v.ActiveHealth().value.state.Usable()
    && v.Known(v.applied.value)
    && Keys(sel.comparisonOrder)[0] != ByPathId
    && var key := Keys(sel.comparisonOrder)[0];
       var active := MetricValue(v, v.applied.value, key);
       active.Finite? && ImprovesLessThan(active.value, MetricValue(v, best, key), sel.constraints.hysteresis.value)
  }

  // ----- what selection must choose -----

  datatype Outcome = Chosen(path: Id) | Rejected(error: ErrorCode)

  ghost predicate AllKnown(v: View, ids: seq<Id>) {
    forall i :: 0 <= i < |ids| ==> v.Known(ids[i])
  }

  /** The candidates that are eligible when they are looked at. */
  ghost function EligibleAmong(v: View, clock: Clock, c: Constraints, ids: seq<Id>): set<Id>
    requires v.Valid()
  {
    set i | 0 <= i < |ids| && Eligible(v, c, ids[i], clock(i)) :: ids[i]
  }

  ghost function EligibleSet(v: View, clock: Clock, sel: Selection): set<Id>
    requires v.Valid()
  {
    EligibleAmong(v, clock, sel.constraints, sel.candidates)
  }

  lemma EligibleAmongExtends(v: View, clock: Clock, c: Constraints, ids: seq<Id>, i: nat)
    requires v.Valid() && i < |ids|
    ensures EligibleAmong(v, clock, c, ids[..i + 1]) ==
            EligibleAmong(v, clock, c, ids[..i]) + (if Eligible(v, c, ids[i], clock(i)) then {ids[i]} else {})
  {
    assert forall j :: 0 <= j < i ==> ids[..i + 1][j] == ids[..i][j];
    assert ids[..i + 1][i] == ids[i];
  }

  lemma EligibleAreKnown(v: View, clock: Clock, c: Constraints, ids: seq<Id>)
    requires v.Valid()
    ensures forall id :: id in EligibleAmong(v, clock, c, ids) ==> v.Known(id)
    ensures ids == [] ==> EligibleAmong(v, clock, c, ids) == {}
  {
  }

  lemma NoReasonMeansEligible(v: View, c: Constraints, id: Id, nowMs: int)
    requires v.Valid() && v.Known(id)
    ensures Eligible(v, c, id, nowMs) <==> ExclusionReason(v, c, id, nowMs).None?
  {
  }

  /** The least eligible candidate. */
  ghost function Best(v: View, order: seq<ComparisonKey>, s: set<Id>): (b: Id)
    requires s != {} && forall x :: x in s ==> v.Known(x)
    ensures IsLeast(v, order, b, s)
  {
    LeastExists(v, order, s);
    var b :| IsLeast(v, order, b, s);
    b
  }

  /** From position `i` on, the first candidate that is unknown or eligible decides priority selection. */
  ghost function ChoosePriority(v: View, clock: Clock, c: Constraints, candidates: seq<Id>, i: nat): Outcome
    requires v.Valid() && i <= |candidates|
    decreases |candidates| - i
  {
    if i == |candidates| then Rejected(ErrNoCandidate)
    else if !v.Known(candidates[i]) then Rejected(ErrNotFound)
    else if Eligible(v, c, candidates[i], clock(i)) then Chosen(candidates[i])
    else ChoosePriority(v, clock, c, candidates, i + 1)
  }

  /** Hysteresis keeps the active path although another one compares before it. */
  ghost predicate Overruled(v: View, clock: Clock, sel: Selection)
    requires v.Valid()
  {
    && EligibleSet(v, clock, sel) != {} && v.applied.Some? && v.applied.value in EligibleSet(v, clock, sel)
    && Retained(v, sel, true, Best(v, sel.comparisonOrder, EligibleSet(v, clock, sel)))
  }

  ghost function ChooseEvaluated(v: View, clock: Clock, sel: Selection): Outcome
    requires v.Valid()
  {
    var s := EligibleSet(v, clock, sel);
    if !AllKnown(v, sel.candidates) then Rejected(ErrNotFound)
    else if s == {} then Rejected(ErrNoCandidate)
    else
      var best := Best(v, sel.comparisonOrder, s);
      if v.applied.Some? && Retained(v, sel, v.applied.value in s, best) then Chosen(v.applied.value)
      else Chosen(best)
  }

  ghost function Choose(v: View, clock: Clock, sel: Selection): Outcome
    requires v.Valid()
  {
    match sel.mode
    case Explicit =>
      if !v.Known(sel.pathId) then Rejected(ErrNotFound)
      else if Eligible(v, sel.constraints, sel.pathId, clock(0)) then Chosen(sel.pathId)
      else Rejected(ErrNoCandidate)
    case Priority => ChoosePriority(v, clock, sel.constraints, sel.candidates, 0)
    case Evaluated => ChooseEvaluated(v, clock, sel)
  }

  /** The ineligible members of a list of known paths, in order, each with its reason. */
  function Exclusions(v: View, clock: Clock, c: Constraints, ids: seq<Id>): (r: seq<(Id, Reason)>)
    requires v.Valid() && forall i :: 0 <= i < |ids| ==> v.Known(ids[i])
    ensures |r| <= |ids|
  {
    if |ids| == 0 then []
    else
      var n := |ids| - 1;
      var rest, reason := Exclusions(v, clock, c, ids[..n]), ExclusionReason(v, c, ids[n], clock(n));
      if reason.Some? then rest + [(ids[n], reason.value)] else rest
  }

  /** The k-th path that is looked at. */
  predicate IsCandidate(sel: Selection, k: nat, id: Id) {
    if sel.mode == Explicit then k == 0 && id == sel.pathId else k < |sel.candidates| && sel.candidates[k] == id
  }

  /** The path was a candidate that met all rules when it was looked at. */
  ghost predicate Suits(v: View, clock: Clock, sel: Selection, id: Id)
    requires v.Valid()
  {
    exists k: nat :: IsCandidate(sel, k, id) && MeetsAll(v, sel.constraints, id, clock(k))
  }

  /** The path was a candidate, and this is the first rule it broke when it was looked at. */
  ghost predicate FallsShort(v: View, clock: Clock, sel: Selection, id: Id, reason: Reason)
    requires v.Valid()
  {
    exists k: nat :: IsCandidate(sel, k, id) && BreaksFirst(v, sel.constraints, id, clock(k), reason)
  }

  lemma {:induction false} PriorityIsEligible(v: View, clock: Clock, c: Constraints, candidates: seq<Id>, i: nat, id: Id)
    requires v.Valid() && i <= |candidates| && ChoosePriority(v, clock, c, candidates, i) == Chosen(id)
    ensures exists k :: i <= k < |candidates| && candidates[k] == id && Eligible(v, c, id, clock(k))
    decreases |candidates| - i
  {
    if !Eligible(v, c, candidates[i], clock(i)) { PriorityIsEligible(v, clock, c, candidates, i + 1, id); }
  }

  /** What is selected meets all rules, in every mode. */
  lemma ChosenSuits(v: View, clock: Clock, sel: Selection, id: Id)
    requires v.Valid() && Choose(v, clock, sel) == Chosen(id)
    ensures Suits(v, clock, sel, id)
  {
    hide Eligible, Suits, ComparePaths;
    match sel.mode
    case Explicit => EligibleSuits(v, clock, sel, 0, id);
    case Priority =>
      PriorityIsEligible(v, clock, sel.constraints, sel.candidates, 0, id);
      var k :| 0 <= k < |sel.candidates| && sel.candidates[k] == id && Eligible(v, sel.constraints, id, clock(k));
      EligibleSuits(v, clock, sel, k, id);
    case Evaluated =>
      assert id in EligibleSet(v, clock, sel);
      var k :| 0 <= k < |sel.candidates| && sel.candidates[k] == id && Eligible(v, sel.constraints, id, clock(k));
      EligibleSuits(v, clock, sel, k, id);
  }

  lemma EligibleSuits(v: View, clock: Clock, sel: Selection, k: nat, id: Id)
    requires v.Valid() && IsCandidate(sel, k, id) && Eligible(v, sel.constraints, id, clock(k))
    ensures Suits(v, clock, sel, id)
  {
    ReasonIsFirstBroken(v, sel.constraints, id, clock(k));
  }

  /** What is listed as excluded breaks the rule it is listed for. */
  lemma {:induction false} ExcludedFails(v: View, clock: Clock, sel: Selection, n: nat)
    requires v.Valid() && n <= |sel.candidates| && AllKnown(v, sel.candidates[..n]) && sel.mode != Explicit
    ensures forall e :: e in Exclusions(v, clock, sel.constraints, sel.candidates[..n]) ==> FallsShort(v, clock, sel, e.0, e.1)
  {
    hide ExclusionReason, FallsShort;
    if n == 0 {
      NothingExcluded(v, clock, sel.constraints, sel.candidates[..n]);
    } else {
      var m := n - 1;
      assert forall i :: 0 <= i < m ==> sel.candidates[..n][i] == sel.candidates[..m][i];
      assert v.Known(sel.candidates[..n][m]);
      ExclusionsStep(v, clock, sel.constraints, sel.candidates, m);
      ExcludedFails(v, clock, sel, m);
      ExcludedAt(v, clock, sel, m, sel.candidates[m]);
    }
  }

  lemma ExcludedAt(v: View, clock: Clock, sel: Selection, k: nat, id: Id)
    requires v.Valid() && IsCandidate(sel, k, id) && v.Known(id)
    ensures var reason := ExclusionReason(v, sel.constraints, id, clock(k));
            reason.Some? ==> FallsShort(v, clock, sel, id, reason.value)
  {
    ReasonIsFirstBroken(v, sel.constraints, id, clock(k));
  }

  // ----- the selection itself -----

  method SelectPath(v: View, clock: Clock, intent: Intent) returns (err: ErrorCode, result: SelectionResult)
    requires v.Valid()
    ensures !IntentCountsValid(intent) ==> err == ErrInvalidArgument && result == SelectionResult("", [], [], NotSelected)
    ensures IntentCountsValid(intent) ==>
              Choose(v, clock, intent.selection) == (if err == ErrNone then Chosen(result.selectedPath) else Rejected(err))
    // over the records: what is selected meets every rule, and what is excluded breaks the one it is excluded for
    ensures err == ErrNone ==> Suits(v, clock, intent.selection, result.selectedPath)
    ensures forall e :: e in result.excluded ==> FallsShort(v, clock, intent.selection, e.0, e.1)
    // every listed exclusion is a real one, in the order of the candidates
    ensures IntentCountsValid(intent) && intent.selection.mode != Explicit ==>
              && result.candidates == intent.selection.candidates
              && exists n :: 0 <= n <= |intent.selection.candidates|
                   && AllKnown(v, intent.selection.candidates[..n])
                   && result.excluded == Exclusions(v, clock, intent.selection.constraints, intent.selection.candidates[..n])
                   && (err == ErrNone && intent.selection.mode == Priority ==>
                         && n < |intent.selection.candidates| && result.selectedPath == intent.selection.candidates[n]
                         && |result.excluded| == n)
                   && (err == ErrNoCandidate ==> n == |intent.selection.candidates| == |result.excluded|)
                   && (err == ErrNone && intent.selection.mode == Evaluated ==> n == |intent.selection.candidates|)
    ensures intent.selection.mode == Explicit ==>
              && |result.excluded| == (if err == ErrNoCandidate then 1 else 0)
              && result.candidates == (if err == ErrNone then [intent.selection.pathId] else [])
    ensures |result.excluded| <= MAX_CANDIDATES
    ensures if err != ErrNone then result.selectedPath == "" && result.why == NotSelected
            else match intent.selection.mode
                 case Explicit => result.why == ExplicitlyRequested
                 case Priority => result.why == FirstUsable
                 case Evaluated => result.why == if v.Active(result.selectedPath) && Overruled(v, clock, intent.selection)
                                                 then RetainedByHysteresis else BestEvaluated
  {
    hide ExclusionReason, Suits, FallsShort, ChooseEvaluated, ChoosePriority, Exclusions, Overruled;
    result := SelectionResult("", [], [], NotSelected);
    if !IntentCountsValid(intent) { return ErrInvalidArgument, result; }
    var sel := intent.selection;
    var c := sel.constraints;
    if sel.mode == Explicit {
      if !v.Known(sel.pathId) { return ErrNotFound, result; }
      var reason := ExclusionReason(v, c, sel.pathId, clock(0));
      NoReasonMeansEligible(v, c, sel.pathId, clock(0));
      ExcludedAt(v, clock, sel, 0, sel.pathId);
      if reason.Some? {
        return ErrNoCandidate, result.(excluded := [(sel.pathId, reason.value)]);
      }
      ChosenSuits(v, clock, sel, sel.pathId);
      return ErrNone, SelectionResult(sel.pathId, [sel.pathId], [], ExplicitlyRequested);
    }
    result := result.(candidates := sel.candidates);
    if sel.mode == Priority {
      err, result := SelectByPriority(v, clock, sel, result);
    } else {
      err, result := SelectByEvaluation(v, clock, sel, result);
    }
    if err == ErrNone { ChosenSuits(v, clock, sel, result.selectedPath); }
    ghost var n :| 0 <= n <= |sel.candidates| && AllKnown(v, sel.candidates[..n]) &&
                   result.excluded == Exclusions(v, clock, c, sel.candidates[..n]);
    ExcludedFails(v, clock, sel, n);
  }

  method SelectByPriority(v: View, clock: Clock, sel: Selection, start: SelectionResult) returns (err: ErrorCode, result: SelectionResult)
    requires v.Valid() && |sel.candidates| <= MAX_CANDIDATES
    requires start == SelectionResult("", sel.candidates, [], NotSelected)
    ensures ChoosePriority(v, clock, sel.constraints, sel.candidates, 0) == (if err == ErrNone then Chosen(result.selectedPath) else Rejected(err))
    ensures result.candidates == sel.candidates
    ensures exists n :: 0 <= n <= |sel.candidates|
              && AllKnown(v, sel.candidates[..n])
              && result.excluded == Exclusions(v, clock, sel.constraints, sel.candidates[..n])
              && (err == ErrNone ==>
                    n < |sel.candidates| && result.selectedPath == sel.candidates[n] && |result.excluded| == n)
              && (err == ErrNoCandidate ==> n == |sel.candidates| == |result.excluded|)
    ensures if err == ErrNone then result.why == FirstUsable else result.selectedPath == "" && result.why == NotSelected
  {
    hide ExclusionReason, Eligible;
    result := start;
    var i := 0;
    while i < |sel.candidates|
      invariant 0 <= i <= |sel.candidates|
      invariant AllKnown(v, sel.candidates[..i])
      invariant result == SelectionResult("", sel.candidates, Exclusions(v, clock, sel.constraints, sel.candidates[..i]), NotSelected)
      invariant |result.excluded| == i
      invariant ChoosePriority(v, clock, sel.constraints, sel.candidates, 0) == ChoosePriority(v, clock, sel.constraints, sel.candidates, i)
    {
      var id := sel.candidates[i];
      if !v.Known(id) { return ErrNotFound, result; }
      var reason := ExclusionReason(v, sel.constraints, id, clock(i));
      NoReasonMeansEligible(v, sel.constraints, id, clock(i));
      if reason.None? {
        return ErrNone, result.(selectedPath := id, why := FirstUsable);
      }
      assert sel.candidates[..i + 1][..i] == sel.candidates[..i];
      result := result.(excluded := result.excluded + [(id, reason.value)]);
      i := i + 1;
    }
    assert sel.candidates[..i] == sel.candidates;
    err := ErrNoCandidate;
  }

  lemma NothingExcluded(v: View, clock: Clock, c: Constraints, ids: seq<Id>)
    requires v.Valid() && |ids| == 0
    ensures Exclusions(v, clock, c, ids) == []
  {
  }

  /** One more known candidate is excluded or not. */
  lemma ExclusionsStep(v: View, clock: Clock, c: Constraints, ids: seq<Id>, i: nat)
    requires v.Valid() && i < |ids| && AllKnown(v, ids[..i]) && v.Known(ids[i])
    ensures AllKnown(v, ids[..i + 1])
    ensures Exclusions(v, clock, c, ids[..i + 1]) ==
            Exclusions(v, clock, c, ids[..i]) +
            (if ExclusionReason(v, c, ids[i], clock(i)).Some? then [(ids[i], ExclusionReason(v, c, ids[i], clock(i)).value)] else [])
  {
    hide ExclusionReason, FindPath;
    assert ids[..i + 1][..i] == ids[..i];
  }

  method SelectByEvaluation(v: View, clock: Clock, sel: Selection, start: SelectionResult) returns (err: ErrorCode, result: SelectionResult)
    requires v.Valid() && |sel.candidates| <= MAX_CANDIDATES
    requires start == SelectionResult("", sel.candidates, [], NotSelected)
    ensures ChooseEvaluated(v, clock, sel) == (if err == ErrNone then Chosen(result.selectedPath) else Rejected(err))
    ensures result.candidates == sel.candidates
    ensures exists n :: 0 <= n <= |sel.candidates|
              && AllKnown(v, sel.candidates[..n])
              && result.excluded == Exclusions(v, clock, sel.constraints, sel.candidates[..n])
              && (err == ErrNoCandidate ==> n == |sel.candidates| == |result.excluded|)
              && (err == ErrNone ==> n == |sel.candidates|)
    ensures if err != ErrNone then result.selectedPath == "" && result.why == NotSelected
            else result.why == if v.Active(result.selectedPath) && Overruled(v, clock, sel) then RetainedByHysteresis else BestEvaluated
  {
    hide ExclusionReason, ComparePaths, IsLeast, EligibleAmong, Eligible, Exclusions, FindPath, View.Known;
    EligibleAreKnown(v, clock, sel.constraints, sel.candidates[..0]);
    NothingExcluded(v, clock, sel.constraints, sel.candidates[..0]);
    result := start;
    var best: Option<Id> := None;
    var activeEligible := false;
    ghost var seen: set<Id> := {};
    var i := 0;
    while i < |sel.candidates|
      invariant 0 <= i <= |sel.candidates|
      invariant AllKnown(v, sel.candidates[..i])
      invariant result == SelectionResult("", sel.candidates, Exclusions(v, clock, sel.constraints, sel.candidates[..i]), NotSelected)
      invariant seen == EligibleAmong(v, clock, sel.constraints, sel.candidates[..i])
      invariant best.None? <==> seen == {}
      invariant best.None? ==> |result.excluded| == i
      invariant best.Some? ==> v.Known(best.value) && IsLeast(v, sel.comparisonOrder, best.value, seen)
      invariant activeEligible <==> v.applied.Some? && v.applied.value in seen
    {
      var id := sel.candidates[i];
      if !v.Known(id) { return ErrNotFound, result; }
      var reason := ExclusionReason(v, sel.constraints, id, clock(i));
      ExclusionsStep(v, clock, sel.constraints, sel.candidates, i);
      EligibleAmongExtends(v, clock, sel.constraints, sel.candidates, i);
      NoReasonMeansEligible(v, sel.constraints, id, clock(i));
      if reason.Some? {
        result := result.(excluded := result.excluded + [(id, reason.value)]);
      } else {
        BestSoFar(v, sel.comparisonOrder, seen, best, id);
        if v.Active(id) { activeEligible := true; }
        if best.None? || ComparePaths(v, sel.comparisonOrder, id, best.value) < 0 { best := Some(id); }
        seen := seen + {id};
      }
      i := i + 1;
    }
    assert sel.candidates[..i] == sel.candidates;
    assert seen == EligibleSet(v, clock, sel);
    EligibleAreKnown(v, clock, sel.constraints, sel.candidates);
    if best.None? { return ErrNoCandidate, result; }
    LeastIsUnique(v, sel.comparisonOrder, seen, best.value, Best(v, sel.comparisonOrder, seen));
    if Retained(v, sel, activeEligible, best.value) {
      return ErrNone, result.(selectedPath := v.applied.value, why := RetainedByHysteresis);
    }
    return ErrNone, result.(selectedPath := best.value, why := BestEvaluated);
  }
}
