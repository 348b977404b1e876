/** The records and enumerations shared by every part of the controller
    (include/eventnet/types.h). A counted fixed-size array is a `seq` whose length is the count;
    an identifier is a `string`; a `double` is a `real`. */
module Model {

  const MAX_ID_LEN: nat := 64
  const MAX_NODES: nat := 16
  const MAX_PATHS: nat := 16
  const MAX_SEGMENTS: nat := 8
  const MAX_TUNNELS: nat := 32
  const MAX_CANDIDATES: nat := 16
  const MAX_WAYPOINTS: nat := 8
  const MAX_CAPABILITIES: nat := 8
  const MAX_COMPARISONS: nat := 8
  const MAX_ENDPOINTS: nat := 8
  const MAX_VPP_EDGES: nat := 16
  const MAX_ALLOWED_VLANS: nat := 32
  const MAX_ROUTES: nat := 16
  const MAX_TRAFFIC_KEY_LEN: nat := 2 * MAX_ID_LEN + 24

  /** The C `int`. Arithmetic on it is checked for overflow by the verifier. */
  newtype int32 = x: int | -0x8000_0000 <= x < 0x8000_0000

  /** The C `long long`. */
  newtype int64 = x: int | -0x8000_0000_0000_0000 <= x < 0x8000_0000_0000_0000

  type Id = string

  datatype Option<+T> = None | Some(value: T)

  datatype AdminState = AdminEnabled | AdminDisabled

  datatype TunnelState =
    | TunnelAbsent | TunnelConfigured | TunnelEstablishing | TunnelEstablished | TunnelRekeying
    | TunnelDegraded | TunnelFailed | TunnelDeleting | TunnelUnknown

  datatype PathState =
    | PathUnavailable | PathPreparing | PathReady | PathActive | PathStandby
    | PathDegraded | PathFailed | PathDraining | PathUnknown

  datatype HealthState = HealthUnknown | HealthHealthy | HealthDegraded | HealthUnhealthy | HealthFailed {
    /** The two states a path may carry traffic in. */
    predicate Usable() { this == HealthHealthy || this == HealthDegraded }
    /** The two states that count as a failure of the path. */
    predicate Bad() { this == HealthUnhealthy || this == HealthFailed }
  }

  datatype TransitionState =
    | Idle | CandidateSelected | Preparing | Validating | Ready | Pausing | Draining
    | Switching | Verifying | Completed | RollingBack | Failed

  datatype ErrorCode =
    | ErrNone | ErrTunnelEstablishTimeout | ErrPathValidationFailed | ErrForwardingUpdateFailed
    | ErrStateConflict | ErrRollbackFailed | ErrObservationTimeout | ErrInvalidArgument
    | ErrNotFound | ErrNoCandidate

  datatype SelectionMode = Explicit | Priority | Evaluated

  datatype Strategy = Immediate | Graceful | FlowPreserve

  datatype ComparisonKey = ByPacketLoss | ByLatency | ByHopCount | ByAdminPriority | ByPathId

  datatype Node = Node(
    nodeId: Id,
    role: Id,
    endpoints: seq<Id>,
    capabilities: seq<Id>,
    admin: AdminState)

  datatype Tunnel = Tunnel(
    tunnelId: Id,
    tunnelType: Id,
    localNode: Id,
    remoteNode: Id,
    localEndpoint: Id,
    remoteEndpoint: Id,
    localTrafficSelector: Id,
    remoteTrafficSelector: Id,
    greInterface: Id,
    greOuterLocal: Id,
    greOuterRemote: Id,
    greLocalAddress: Id,
    greRemoteAddress: Id,
    greInstance: int,
    greMtu: int,
    authMethod: Id,
    localCert: Id,
    remoteCacerts: Id,
    psk: Id,
    state: TunnelState,
    health: HealthState)

  datatype Segment = Segment(segmentId: Id, fromNode: Id, toNode: Id, tunnelId: Id)

  datatype Route = Route(
    routeId: Id,
    nodeId: Id,
    destinationPrefix: Id,
    nextHop: Id,
    interfaceName: Id,
    tableId: int,
    metric: int)

  /** A path without its operational state, the one field that changes after loading. */
  datatype Path = Path(
    pathId: Id,
    source: Id,
    destination: Id,
    routeDestinationPrefix: Id,
    routeNextHop: Id,
    egressTunnelId: Id,
    waypoints: seq<Id>,
    routes: seq<Route>,
    routesExplicit: bool,
    segments: seq<Segment>,
    priority: int,
    admin: AdminState)
  {
    /** The tunnels the path's segments run through. */
    function Tunnels(): set<Id> {
      set i | 0 <= i < |segments| :: segments[i].tunnelId
    }
  }

  datatype Traffic = Traffic(source: Id, destination: Id, vlan: Option<int>)

  datatype Constraints = Constraints(
    maxRtt: Option<real>,
    maxPacketLoss: Option<real>,
    hysteresis: Option<real>,
    failureThreshold: int,
    recoveryThreshold: int,
    holdDownMs: int,
    forbiddenWaypoints: seq<Id>,
    requiredWaypoints: seq<Id>,
    requiredCapabilities: seq<Id>)

  datatype Selection = Selection(
    mode: SelectionMode,
    pathId: Id,
    candidates: seq<Id>,
    constraints: Constraints,
    comparisonOrder: seq<ComparisonKey>)

  datatype Policy = Policy(
    strategy: Strategy,
    maxPauseMs: int32,
    drainTimeoutMs: int32,
    timeoutMs: int32,
    retryCount: int32,
    retryBackoffMs: int32)

  datatype Intent = Intent(
    intentId: Id,
    traffic: Traffic,
    blockNonIpsec: bool,
    denyUnmatchedVlan: bool,
    selection: Selection,
    transition: Policy,
    fallback: Option<Id>)

  datatype PathHealth = PathHealth(
    pathId: Id,
    sourceNode: Id,
    sequence: int,
    state: HealthState,
    rttMs: real,
    packetLossPercent: real,
    jitterMs: real,
    consecutiveFailures: int,
    consecutiveSuccesses: int,
    tableId: Option<int>,
    observedDestinationPrefix: Id,
    observedNextHop: Id,
    observedInterfaceName: Id,
    routeState: Option<HealthState>,
    interfaceState: Option<HealthState>,
    lastUpdatedMs: int)

  datatype VppEdge = VppEdge(
    nodeId: Id,
    portId: Id,
    hostInterface: Id,
    vppInterface: Id,
    namespaceAddress: Id,
    vppSocket: Id,
    nextHop: Id,
    allowedVlans: seq<int>)

  datatype Config = Config(
    nodes: seq<Node>,
    tunnels: seq<Tunnel>,
    paths: seq<Path>,
    intents: seq<Intent>,
    vppEdges: seq<VppEdge>)

  predicate IntentCountsValid(intent: Intent) {
    && |intent.selection.candidates| <= MAX_CANDIDATES
    && |intent.selection.comparisonOrder| <= MAX_COMPARISONS
    && |intent.selection.constraints.forbiddenWaypoints| <= MAX_WAYPOINTS
    && |intent.selection.constraints.requiredWaypoints| <= MAX_WAYPOINTS
    && |intent.selection.constraints.requiredCapabilities| <= MAX_CAPABILITIES
  }

  predicate PathCountsValid(path: Path) {
    && |path.waypoints| <= MAX_WAYPOINTS
    && |path.segments| <= MAX_SEGMENTS
    && |path.routes| <= MAX_ROUTES
  }

  predicate PolicyValid(policy: Policy) {
    && policy.retryCount >= 0
    && policy.retryBackoffMs >= 0
    && policy.maxPauseMs >= 0
    && policy.drainTimeoutMs >= 0
    && policy.timeoutMs >= 0
  }

  /** The first path with the given identifier, the way every lookup of the controller finds it. */
  function FindPath(paths: seq<Path>, id: Id): (r: Option<nat>)
    ensures r.Some? ==>
              && r.value < |paths| && paths[r.value].pathId == id
              && forall j :: 0 <= j < r.value ==> paths[j].pathId != id
    ensures r.None? ==> forall j :: 0 <= j < |paths| ==> paths[j].pathId != id
  {
    FindPathFrom(paths, id, 0)
  }

  function FindPathFrom(paths: seq<Path>, id: Id, i: nat): (r: Option<nat>)
    requires i <= |paths|
    requires forall j :: 0 <= j < i ==> paths[j].pathId != id
    ensures r.Some? ==>
              && r.value < |paths| && paths[r.value].pathId == id
              && forall j :: 0 <= j < r.value ==> paths[j].pathId != id
    ensures r.None? ==> forall j :: 0 <= j < |paths| ==> paths[j].pathId != id
    decreases |paths| - i
  {
    if i == |paths| then None
    else if paths[i].pathId == id then Some(i)
    else FindPathFrom(paths, id, i + 1)
  }

  /** The first node with the given identifier. */
  function FindNode(nodes: seq<Node>, id: Id): (r: Option<Node>)
    ensures r.Some? ==> r.value in nodes && r.value.nodeId == id
    ensures r.None? <==> forall n :: n in nodes ==> n.nodeId != id
  {
    if |nodes| == 0 then None
    else if nodes[0].nodeId == id then Some(nodes[0])
    else FindNode(nodes[1..], id)
  }

  /** The first tunnel with the given identifier. */
  function FindTunnel(tunnels: seq<Tunnel>, id: Id): (r: Option<Tunnel>)
    ensures r.Some? ==> r.value in tunnels && r.value.tunnelId == id
    ensures r.None? <==> forall t :: t in tunnels ==> t.tunnelId != id
  {
    if |tunnels| == 0 then None
    else if tunnels[0].tunnelId == id then Some(tunnels[0])
    else FindTunnel(tunnels[1..], id)
  }
}
