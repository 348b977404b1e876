/** Validation of a configuration (src/yaml_config.c, `en_yaml_config_validate`). The checks run in nested
    loops over the records; what they accept is stated by `Formed` (each record on its own and against its
    neighbours) and `Resolves` (every reference names a record). */
module ConfigCheck {
  import opened Model
  import opened Text

  const INT_MIN: int := -0x8000_0000

  /** `valid_config_token`: a token that fits its field. */
  predicate ConfigToken(s: Id) { IsToken(s) && |s| < MAX_ID_LEN }

  predicate OptionalConfigToken(s: Id) { s == "" || ConfigToken(s) }

  predicate AllDistinct<T(==)>(s: seq<T>) { forall i, j :: 0 <= i < j < |s| ==> s[i] != s[j] }

  predicate HasNode(config: Config, id: Id) { id != "" && exists i :: 0 <= i < |config.nodes| && config.nodes[i].nodeId == id }

  predicate HasTunnel(config: Config, id: Id) { exists i :: 0 <= i < |config.tunnels| && config.tunnels[i].tunnelId == id }

  predicate HasPath(config: Config, id: Id) { exists i :: 0 <= i < |config.paths| && config.paths[i].pathId == id }

  predicate HasEdge(config: Config, id: Id) { id != "" && exists i :: 0 <= i < |config.vppEdges| && config.vppEdges[i].nodeId == id }

  predicate EdgeCarries(e: VppEdge, r: Route) {
    e.nodeId == r.nodeId && (e.vppInterface == r.interfaceName || (e.hostInterface != "" && e.hostInterface == r.interfaceName))
  }

  predicate HasEdgeInterface(config: Config, r: Route) {
    r.nodeId != "" && r.interfaceName != "" && exists i :: 0 <= i < |config.vppEdges| && EdgeCarries(config.vppEdges[i], r)
  }

  /** Node references are checked only if the configuration has nodes at all. */
  predicate NodeRef(config: Config, id: Id) { |config.nodes| > 0 ==> HasNode(config, id) }

  predicate OptionalNodeRef(config: Config, id: Id) { id != "" ==> NodeRef(config, id) }

  // ----- lookups, as loops -----

  method LookupNode(config: Config, id: Id) returns (found: bool)
    ensures found == HasNode(config, id)
  {
    if id == "" { return false; }
    for i := 0 to |config.nodes|
      invariant forall k :: 0 <= k < i ==> config.nodes[k].nodeId != id
    {
      if config.nodes[i].nodeId == id { return true; }
    }
    found := false;
  }

  method NodeUnknown(config: Config, id: Id) returns (unknown: bool)
    ensures unknown == !NodeRef(config, id)
  {
    if |config.nodes| == 0 { return false; }
    var found := LookupNode(config, id);
    unknown := !found;
  }

  method LookupTunnel(config: Config, id: Id) returns (found: bool)
    ensures found == HasTunnel(config, id)
  {
    for i := 0 to |config.tunnels|
      invariant forall k :: 0 <= k < i ==> config.tunnels[k].tunnelId != id
    {
      if config.tunnels[i].tunnelId == id { return true; }
    }
    found := false;
  }

  method LookupPath(config: Config, id: Id) returns (found: bool)
    ensures found == HasPath(config, id)
  {
    for i := 0 to |config.paths|
      invariant forall k :: 0 <= k < i ==> config.paths[k].pathId != id
    {
      if config.paths[i].pathId == id { return true; }
    }
    found := false;
  }

  method LookupEdge(config: Config, id: Id) returns (found: bool)
    ensures found == HasEdge(config, id)
  {
    if id == "" { return false; }
    for i := 0 to |config.vppEdges|
      invariant forall k :: 0 <= k < i ==> config.vppEdges[k].nodeId != id
    {
      if config.vppEdges[i].nodeId == id { return true; }
    }
    found := false;
  }

  method LookupEdgeInterface(config: Config, r: Route) returns (found: bool)
    ensures found == HasEdgeInterface(config, r)
  {
    if r.nodeId == "" || r.interfaceName == "" { return false; }
    for i := 0 to |config.vppEdges|
      invariant forall k :: 0 <= k < i ==> !EdgeCarries(config.vppEdges[k], r)
    {
      if EdgeCarries(config.vppEdges[i], r) { return true; }
    }
    found := false;
  }

  /** The nested loops that look for a repeated value. */
  method FindDuplicate<T(==)>(s: seq<T>) returns (duplicate: bool)
    ensures duplicate == !AllDistinct(s)
  {
    for i := 0 to |s|
      invariant forall a, b :: 0 <= a < i && a < b < |s| ==> s[a] != s[b]
    {
      for j := i + 1 to |s|
        invariant forall b :: i < b < j ==> s[i] != s[b]
      {
        if s[i] == s[j] { return true; }
      }
    }
    duplicate := false;
  }

  method FindBadToken(s: seq<Id>) returns (bad: bool)
    ensures bad == !forall i :: 0 <= i < |s| ==> ConfigToken(s[i])
  {
    for i := 0 to |s|
      invariant forall k :: 0 <= k < i ==> ConfigToken(s[k])
    {
      if !ConfigToken(s[i]) { return true; }
    }
    bad := false;
  }

  /** The result of a check: accepted exactly if both hold, and each error names what is wrong. */
  ghost predicate Judged(err: ErrorCode, formed: bool, resolves: bool) {
    && err in {ErrNone, ErrInvalidArgument, ErrNotFound}
    && (err == ErrNone <==> formed && resolves)
    && (err == ErrInvalidArgument ==> !formed)
    && (err == ErrNotFound ==> !resolves)
  }

  // ----- nodes -----

  predicate NodeFormed(config: Config, i: nat)
    requires i < |config.nodes|
  {
    var n := config.nodes[i];
    && ConfigToken(n.nodeId) && OptionalConfigToken(n.role)
    && (forall k :: 0 <= k < |n.endpoints| ==> ConfigToken(n.endpoints[k]))
    && (forall k :: 0 <= k < |n.capabilities| ==> ConfigToken(n.capabilities[k]))
    && AllDistinct(n.capabilities)
    && (forall j :: i < j < |config.nodes| ==> config.nodes[j].nodeId != n.nodeId)
  }

  method CheckNode(config: Config, i: nat) returns (err: ErrorCode)
    requires i < |config.nodes|
    ensures err in {ErrNone, ErrInvalidArgument} && (err == ErrNone <==> NodeFormed(config, i))
  {
    var n := config.nodes[i];
    if !ConfigToken(n.nodeId) || !OptionalConfigToken(n.role) { return ErrInvalidArgument; }
    var bad := FindBadToken(n.endpoints);
    if bad { return ErrInvalidArgument; }
    bad := FindBadToken(n.capabilities);
    if bad { return ErrInvalidArgument; }
    bad := FindDuplicate(n.capabilities);
    if bad { return ErrInvalidArgument; }
    for j := i + 1 to |config.nodes|
      invariant forall k :: i < k < j ==> config.nodes[k].nodeId != n.nodeId
    {
      if config.nodes[j].nodeId == n.nodeId { return ErrInvalidArgument; }
    }
    err := ErrNone;
  }

  // ----- tunnels -----

  predicate GreFormed(t: Tunnel) {
    && ConfigToken(t.greInterface) && ConfigToken(t.greLocalAddress) && ConfigToken(t.greRemoteAddress)
    && -1 <= t.greInstance <= 1048575 && 0 <= t.greMtu <= 65535
    && OptionalConfigToken(t.greOuterLocal) && OptionalConfigToken(t.greOuterRemote)
  }

  /** A secret is printable, without blanks, quotes and backslashes. */
  predicate ValidSecret(s: Id) {
    |s| < MAX_ID_LEN && forall i :: 0 <= i < |s| ==> '!' <= s[i] <= '~' && s[i] != '"' && s[i] != '\\'
  }

  /** The authentication is by a shared key, or by a certificate that is there. */
  predicate AuthFormed(t: Tunnel) {
    && t.authMethod in {"", "psk", "pubkey"}
    && (t.authMethod == "pubkey" ==> t.localCert != "")
    && OptionalConfigToken(t.localCert) && OptionalConfigToken(t.remoteCacerts) && ValidSecret(t.psk)
  }

  predicate TunnelFormed(config: Config, i: nat)
    requires i < |config.tunnels|
  {
    var t := config.tunnels[i];
    && ConfigToken(t.tunnelId) && ConfigToken(t.localNode) && ConfigToken(t.remoteNode)
    && t.tunnelType in {"", "ipsec", "gre_over_ipsec"}
    && (t.tunnelType == "gre_over_ipsec" ==> GreFormed(t))
    && AuthFormed(t)
    && (forall j :: i < j < |config.tunnels| ==> config.tunnels[j].tunnelId != t.tunnelId)
  }

  predicate TunnelResolves(config: Config, t: Tunnel) { NodeRef(config, t.localNode) && NodeRef(config, t.remoteNode) }

  method CheckTunnel(config: Config, i: nat) returns (err: ErrorCode)
    requires i < |config.tunnels|
    ensures Judged(err, TunnelFormed(config, i), TunnelResolves(config, config.tunnels[i]))
  {
    var t := config.tunnels[i];
    if !ConfigToken(t.tunnelId) || !ConfigToken(t.localNode) || !ConfigToken(t.remoteNode) { return ErrInvalidArgument; }
    if t.tunnelType != "" && t.tunnelType != "ipsec" && t.tunnelType != "gre_over_ipsec" { return ErrInvalidArgument; }
    if t.tunnelType == "gre_over_ipsec" && !GreFormed(t) { return ErrInvalidArgument; }
    var unknown := NodeUnknown(config, t.localNode);
    if unknown { return ErrNotFound; }
    unknown := NodeUnknown(config, t.remoteNode);
    if unknown { return ErrNotFound; }
    if t.authMethod != "" && t.authMethod != "psk" && t.authMethod != "pubkey" { return ErrInvalidArgument; }
    if t.authMethod == "pubkey" && t.localCert == "" { return ErrInvalidArgument; }
    if !OptionalConfigToken(t.localCert) || !OptionalConfigToken(t.remoteCacerts) { return ErrInvalidArgument; }
    if !ValidSecret(t.psk) { return ErrInvalidArgument; }
    for j := i + 1 to |config.tunnels|
      invariant forall k :: i < k < j ==> config.tunnels[k].tunnelId != t.tunnelId
    {
      if config.tunnels[j].tunnelId == t.tunnelId { return ErrInvalidArgument; }
    }
    err := ErrNone;
  }

  // ----- paths -----

  predicate SegmentFormed(s: Segment) {
    OptionalConfigToken(s.segmentId) && OptionalConfigToken(s.fromNode) && OptionalConfigToken(s.toNode) && ConfigToken(s.tunnelId)
  }

  predicate SegmentResolves(config: Config, s: Segment) {
    HasTunnel(config, s.tunnelId) && OptionalNodeRef(config, s.fromNode) && OptionalNodeRef(config, s.toNode)
  }

  method CheckSegment(config: Config, s: Segment) returns (err: ErrorCode)
    ensures Judged(err, SegmentFormed(s), SegmentResolves(config, s))
  {
    if !SegmentFormed(s) { return ErrInvalidArgument; }
    var found := LookupTunnel(config, s.tunnelId);
    if !found { return ErrNotFound; }
    if s.fromNode != "" {
      var unknown := NodeUnknown(config, s.fromNode);
      if unknown { return ErrNotFound; }
    }
    if s.toNode != "" {
      var unknown := NodeUnknown(config, s.toNode);
      if unknown { return ErrNotFound; }
    }
    err := ErrNone;
  }

  predicate RouteFormed(path: Path, j: nat)
    requires j < |path.routes|
  {
    var r := path.routes[j];
    && OptionalConfigToken(r.routeId) && ConfigToken(r.nodeId) && ConfigToken(r.destinationPrefix) && ConfigToken(r.nextHop)
    && OptionalConfigToken(r.interfaceName)
    && r.tableId >= -1 && r.metric >= -1
    && (r.routeId != "" ==> forall k :: j < k < |path.routes| ==> path.routes[k].routeId != r.routeId)
  }

  predicate RouteResolves(config: Config, r: Route) {
    && NodeRef(config, r.nodeId)
    && (|config.vppEdges| > 0 ==> HasEdge(config, r.nodeId) && (r.interfaceName != "" ==> HasEdgeInterface(config, r)))
  }

  method CheckRoute(config: Config, path: Path, j: nat) returns (err: ErrorCode)
    requires j < |path.routes|
    ensures Judged(err, RouteFormed(path, j), RouteResolves(config, path.routes[j]))
  {
    var r := path.routes[j];
    if path.routesExplicit && r.nodeId == "" { return ErrInvalidArgument; }
    if r.destinationPrefix == "" { return ErrInvalidArgument; }
    if !OptionalConfigToken(r.routeId) || !ConfigToken(r.nodeId) || !ConfigToken(r.destinationPrefix) || !ConfigToken(r.nextHop) ||
       !OptionalConfigToken(r.interfaceName) { return ErrInvalidArgument; }
    var unknown := NodeUnknown(config, r.nodeId);
    if unknown { return ErrNotFound; }
    if r.tableId < -1 || r.metric < -1 { return ErrInvalidArgument; }
    if r.routeId != "" {
      for k := j + 1 to |path.routes|
        invariant forall l :: j < l < k ==> path.routes[l].routeId != r.routeId
      {
        if path.routes[k].routeId == r.routeId { return ErrInvalidArgument; }
      }
    }
    if |config.vppEdges| > 0 {
      var found := LookupEdge(config, r.nodeId);
      if !found { return ErrNotFound; }
      if r.interfaceName != "" {
        found := LookupEdgeInterface(config, r);
        if !found { return ErrNotFound; }
      }
    }
    err := ErrNone;
  }

  /** A path without segments brings its own route. */
  predicate Forwards(path: Path) {
    |path.segments| > 0 ||
    (if path.routesExplicit then |path.routes| > 0 else path.routeDestinationPrefix != "" && path.routeNextHop != "")
  }

  predicate PathFormed(config: Config, i: nat)
    requires i < |config.paths|
  {
    var p := config.paths[i];
    && ConfigToken(p.pathId) && ConfigToken(p.source) && ConfigToken(p.destination) && p.priority != INT_MIN
    && (forall j :: i < j < |config.paths| ==> config.paths[j].pathId != p.pathId)
    && Forwards(p)
    && (forall j :: 0 <= j < |p.segments| ==> SegmentFormed(p.segments[j]))
    && (forall j :: 0 <= j < |p.routes| ==> RouteFormed(p, j))
    && AllDistinct(p.waypoints)
  }

  predicate PathResolves(config: Config, p: Path) {
    && NodeRef(config, p.source) && NodeRef(config, p.destination)
    && (forall j :: 0 <= j < |p.segments| ==> SegmentResolves(config, p.segments[j]))
    && (forall j :: 0 <= j < |p.routes| ==> RouteResolves(config, p.routes[j]))
    && (forall j :: 0 <= j < |p.waypoints| ==> NodeRef(config, p.waypoints[j]))
    && (p.egressTunnelId != "" ==> HasTunnel(config, p.egressTunnelId))
  }

  method CheckSegments(config: Config, p: Path) returns (err: ErrorCode)
    ensures Judged(err, forall j :: 0 <= j < |p.segments| ==> SegmentFormed(p.segments[j]),
                        forall j :: 0 <= j < |p.segments| ==> SegmentResolves(config, p.segments[j]))
  {
    hide SegmentFormed, SegmentResolves;
    for j := 0 to |p.segments|
      invariant forall k :: 0 <= k < j ==> SegmentFormed(p.segments[k]) && SegmentResolves(config, p.segments[k])
    {
      err := CheckSegment(config, p.segments[j]);
      if err != ErrNone { return; }
    }
    err := ErrNone;
  }

  method CheckRoutes(config: Config, p: Path) returns (err: ErrorCode)
    ensures Judged(err, forall j :: 0 <= j < |p.routes| ==> RouteFormed(p, j),
                        forall j :: 0 <= j < |p.routes| ==> RouteResolves(config, p.routes[j]))
  {
    hide RouteFormed, RouteResolves;
    for j := 0 to |p.routes|
      invariant forall k :: 0 <= k < j ==> RouteFormed(p, k) && RouteResolves(config, p.routes[k])
    {
      err := CheckRoute(config, p, j);
      if err != ErrNone { return; }
    }
    err := ErrNone;
  }

  method CheckWaypoints(config: Config, p: Path) returns (err: ErrorCode)
    ensures Judged(err, AllDistinct(p.waypoints), forall j :: 0 <= j < |p.waypoints| ==> NodeRef(config, p.waypoints[j]))
  {
    for j := 0 to |p.waypoints|
      invariant forall k :: 0 <= k < j ==> NodeRef(config, p.waypoints[k])
      invariant forall a, b :: 0 <= a < j && a < b < |p.waypoints| ==> p.waypoints[a] != p.waypoints[b]
    {
      var unknown := NodeUnknown(config, p.waypoints[j]);
      if unknown { return ErrNotFound; }
      for k := j + 1 to |p.waypoints|
        invariant forall b :: j < b < k ==> p.waypoints[j] != p.waypoints[b]
      {
        if p.waypoints[j] == p.waypoints[k] { return ErrInvalidArgument; }
      }
    }
    err := ErrNone;
  }

  method CheckPath(config: Config, i: nat) returns (err: ErrorCode)
    requires i < |config.paths|
    ensures Judged(err, PathFormed(config, i), PathResolves(config, config.paths[i]))
  {
    hide ConfigToken, AllDistinct, NodeRef, HasTunnel, SegmentFormed, SegmentResolves, RouteFormed, RouteResolves, Forwards;
    var p := config.paths[i];
    if !ConfigToken(p.pathId) || !ConfigToken(p.source) || !ConfigToken(p.destination) || p.priority == INT_MIN { return ErrInvalidArgument; }
    var unknown := NodeUnknown(config, p.source);
    if unknown { return ErrNotFound; }
    unknown := NodeUnknown(config, p.destination);
    if unknown { return ErrNotFound; }
    for j := i + 1 to |config.paths|
      invariant forall k :: i < k < j ==> config.paths[k].pathId != p.pathId
    {
      if config.paths[j].pathId == p.pathId { return ErrInvalidArgument; }
    }
    if !Forwards(p) { return ErrInvalidArgument; }
    err := CheckSegments(config, p);
    if err != ErrNone { return; }
    err := CheckRoutes(config, p);
    if err != ErrNone { return; }
    err := CheckWaypoints(config, p);
    if err != ErrNone { return; }
    if p.egressTunnelId != "" {
      var found := LookupTunnel(config, p.egressTunnelId);
      if !found { return ErrNotFound; }
    }
  }

  // ----- intents -----

  predicate InRange(limit: Option<real>, bounded: bool) {
    limit.Some? ==> limit.value >= 0.0 && (bounded ==> limit.value <= 100.0)
  }

  predicate SettingsFormed(intent: Intent) {
    var c := intent.selection.constraints;
    && ConfigToken(intent.intentId)
    && (intent.traffic.vlan.Some? ==> 1 <= intent.traffic.vlan.value <= 4094)
    && (intent.denyUnmatchedVlan ==> intent.traffic.vlan.Some?)
    && PolicyValid(intent.transition)
    && InRange(c.maxRtt, false) && InRange(c.maxPacketLoss, true) && InRange(c.hysteresis, true)
    && c.failureThreshold >= 0 && c.recoveryThreshold >= 0 && c.holdDownMs >= 0
  }

  predicate IntentFormed(config: Config, i: nat)
    requires i < |config.intents|
  {
    var intent := config.intents[i];
    var c := intent.selection.constraints;
    && SettingsFormed(intent)
    && (forall j :: i < j < |config.intents| ==> config.intents[j].intentId != intent.intentId)
    && AllDistinct(intent.selection.candidates)
    && (forall j, k :: 0 <= j < |c.requiredWaypoints| && 0 <= k < |c.forbiddenWaypoints| ==> c.requiredWaypoints[j] != c.forbiddenWaypoints[k])
    && (forall j :: 0 <= j < |c.requiredCapabilities| ==> ConfigToken(c.requiredCapabilities[j]))
    && AllDistinct(c.requiredCapabilities)
  }

  predicate IntentResolves(config: Config, intent: Intent) {
    var c := intent.selection.constraints;
    && NodeRef(config, intent.traffic.source) && NodeRef(config, intent.traffic.destination)
    && (intent.selection.mode == Explicit ==> HasPath(config, intent.selection.pathId))
    && (forall j :: 0 <= j < |intent.selection.candidates| ==> HasPath(config, intent.selection.candidates[j]))
    && (forall j :: 0 <= j < |c.requiredWaypoints| ==> NodeRef(config, c.requiredWaypoints[j]))
    && (forall j :: 0 <= j < |c.forbiddenWaypoints| ==> NodeRef(config, c.forbiddenWaypoints[j]))
  }

  method CheckCandidates(config: Config, sel: Selection) returns (err: ErrorCode)
    ensures Judged(err, AllDistinct(sel.candidates), forall j :: 0 <= j < |sel.candidates| ==> HasPath(config, sel.candidates[j]))
  {
    for j := 0 to |sel.candidates|
      invariant forall k :: 0 <= k < j ==> HasPath(config, sel.candidates[k])
      invariant forall a, b :: 0 <= a < j && a < b < |sel.candidates| ==> sel.candidates[a] != sel.candidates[b]
    {
      var found := LookupPath(config, sel.candidates[j]);
      if !found { return ErrNotFound; }
      for k := j + 1 to |sel.candidates|
        invariant forall b :: j < b < k ==> sel.candidates[j] != sel.candidates[b]
      {
        if sel.candidates[j] == sel.candidates[k] { return ErrInvalidArgument; }
      }
    }
    err := ErrNone;
  }

  method CheckConstraintWaypoints(config: Config, c: Constraints) returns (err: ErrorCode)
    ensures Judged(err,
                   forall j, k :: 0 <= j < |c.requiredWaypoints| && 0 <= k < |c.forbiddenWaypoints| ==> c.requiredWaypoints[j] != c.forbiddenWaypoints[k],
                   (forall j :: 0 <= j < |c.requiredWaypoints| ==> NodeRef(config, c.requiredWaypoints[j])) &&
                   forall j :: 0 <= j < |c.forbiddenWaypoints| ==> NodeRef(config, c.forbiddenWaypoints[j]))
  {
    hide NodeRef;
    for j := 0 to |c.requiredWaypoints|
      invariant forall k :: 0 <= k < j ==> NodeRef(config, c.requiredWaypoints[k])
      invariant forall a, k :: 0 <= a < j && 0 <= k < |c.forbiddenWaypoints| ==> c.requiredWaypoints[a] != c.forbiddenWaypoints[k]
    {
      var unknown := NodeUnknown(config, c.requiredWaypoints[j]);
      if unknown { return ErrNotFound; }
      for k := 0 to |c.forbiddenWaypoints|
        invariant forall b :: 0 <= b < k ==> c.requiredWaypoints[j] != c.forbiddenWaypoints[b]
      {
        if c.requiredWaypoints[j] == c.forbiddenWaypoints[k] { return ErrInvalidArgument; }
      }
    }
    for j := 0 to |c.forbiddenWaypoints|
      invariant forall k :: 0 <= k < j ==> NodeRef(config, c.forbiddenWaypoints[k])
    {
      var unknown := NodeUnknown(config, c.forbiddenWaypoints[j]);
      if unknown { return ErrNotFound; }
    }
    err := ErrNone;
  }

  /** The checks of an intent before its selection: its own settings and its traffic endpoints. */
  method CheckSettings(config: Config, intent: Intent) returns (err: ErrorCode)
    ensures Judged(err, SettingsFormed(intent), NodeRef(config, intent.traffic.source) && NodeRef(config, intent.traffic.destination))
  {
    hide ConfigToken, NodeRef;
    var c := intent.selection.constraints;
    if !ConfigToken(intent.intentId) { return ErrInvalidArgument; }
    if intent.traffic.vlan.Some? && (intent.traffic.vlan.value < 1 || intent.traffic.vlan.value > 4094) { return ErrInvalidArgument; }
    if intent.denyUnmatchedVlan && intent.traffic.vlan.None? { return ErrInvalidArgument; }
    var unknown := NodeUnknown(config, intent.traffic.source);
    if unknown { return ErrNotFound; }
    unknown := NodeUnknown(config, intent.traffic.destination);
    if unknown { return ErrNotFound; }
    if !PolicyValid(intent.transition) { return ErrInvalidArgument; }
    if !InRange(c.maxRtt, false) || !InRange(c.maxPacketLoss, true) || !InRange(c.hysteresis, true) { return ErrInvalidArgument; }
    if c.failureThreshold < 0 || c.recoveryThreshold < 0 || c.holdDownMs < 0 { return ErrInvalidArgument; }
    err := ErrNone;
  }

  method CheckIntent(config: Config, i: nat) returns (err: ErrorCode)
    requires i < |config.intents|
    ensures Judged(err, IntentFormed(config, i), IntentResolves(config, config.intents[i]))
  {
    hide ConfigToken, AllDistinct, NodeRef, HasPath, SettingsFormed;
    var intent := config.intents[i];
    err := CheckSettings(config, intent);
    if err != ErrNone { return; }
    for j := i + 1 to |config.intents|
      invariant forall k :: i < k < j ==> config.intents[k].intentId != intent.intentId
    {
      if config.intents[j].intentId == intent.intentId { return ErrInvalidArgument; }
    }
    if intent.selection.mode == Explicit {
      var found := LookupPath(config, intent.selection.pathId);
      if !found { return ErrNotFound; }
    }
    err := CheckCandidates(config, intent.selection);
    if err != ErrNone { return; }
    err := CheckConstraintWaypoints(config, intent.selection.constraints);
    if err != ErrNone { return; }
    var bad := FindBadToken(intent.selection.constraints.requiredCapabilities);
    if bad { return ErrInvalidArgument; }
    bad := FindDuplicate(intent.selection.constraints.requiredCapabilities);
    if bad { return ErrInvalidArgument; }
  }

  // ----- forwarding edges -----

  /** Two edges that cannot be told apart on the same node. */
  predicate Clash(a: VppEdge, b: VppEdge) {
    && a.nodeId == b.nodeId
    && (a.portId == "" || b.portId == "" || a.portId == b.portId || a.vppInterface == b.vppInterface ||
        (a.hostInterface != "" && b.hostInterface != "" && a.hostInterface == b.hostInterface))
  }

  predicate EdgeFormed(config: Config, i: nat)
    requires i < |config.vppEdges|
  {
    var e := config.vppEdges[i];
    && ConfigToken(e.nodeId) && e.vppInterface != "" && e.nextHop != ""
    && OptionalConfigToken(e.portId) && OptionalConfigToken(e.vppSocket)
    && (forall j :: i < j < |config.vppEdges| ==> !Clash(e, config.vppEdges[j]))
    && (forall k :: 0 <= k < |e.allowedVlans| ==> 1 <= e.allowedVlans[k] <= 4094)
    && AllDistinct(e.allowedVlans)
  }

  method CheckEdge(config: Config, i: nat) returns (err: ErrorCode)
    requires i < |config.vppEdges|
    ensures err in {ErrNone, ErrInvalidArgument} && (err == ErrNone <==> EdgeFormed(config, i))
  {
    var e := config.vppEdges[i];
    if e.vppInterface == "" || e.nextHop == "" || !ConfigToken(e.nodeId) || !OptionalConfigToken(e.portId) { return ErrInvalidArgument; }
    if !OptionalConfigToken(e.vppSocket) { return ErrInvalidArgument; }
    for j := i + 1 to |config.vppEdges|
      invariant forall k :: i < k < j ==> !Clash(e, config.vppEdges[k])
    {
      if Clash(e, config.vppEdges[j]) { return ErrInvalidArgument; }
    }
    for j := 0 to |e.allowedVlans|
      invariant forall k :: 0 <= k < j ==> 1 <= e.allowedVlans[k] <= 4094
      invariant forall a, b :: 0 <= a < j && a < b < |e.allowedVlans| ==> e.allowedVlans[a] != e.allowedVlans[b]
    {
      if e.allowedVlans[j] < 1 || e.allowedVlans[j] > 4094 { return ErrInvalidArgument; }
      for k := j + 1 to |e.allowedVlans|
        invariant forall b :: j < b < k ==> e.allowedVlans[j] != e.allowedVlans[b]
      {
        if e.allowedVlans[j] == e.allowedVlans[k] { return ErrInvalidArgument; }
      }
    }
    err := ErrNone;
  }

  // ----- the whole configuration -----

  predicate CountsFit(config: Config) {
    && |config.nodes| <= MAX_NODES && |config.paths| <= MAX_PATHS && |config.tunnels| <= MAX_TUNNELS
    && |config.intents| <= MAX_CANDIDATES && |config.vppEdges| <= MAX_VPP_EDGES
    && (forall i :: 0 <= i < |config.nodes| ==> |config.nodes[i].endpoints| <= MAX_ENDPOINTS && |config.nodes[i].capabilities| <= MAX_CAPABILITIES)
    && (forall i :: 0 <= i < |config.paths| ==> PathCountsValid(config.paths[i]))
    && (forall i :: 0 <= i < |config.intents| ==> IntentCountsValid(config.intents[i]))
    && (forall i :: 0 <= i < |config.vppEdges| ==> |config.vppEdges[i].allowedVlans| <= MAX_ALLOWED_VLANS)
    && |config.paths| > 0
  }

  /** Each record is well formed and no two records of a kind are confused. */
  predicate Formed(config: Config) {
    && CountsFit(config)
    && (forall i :: 0 <= i < |config.nodes| ==> NodeFormed(config, i))
    && (forall i :: 0 <= i < |config.tunnels| ==> TunnelFormed(config, i))
    && (forall i :: 0 <= i < |config.paths| ==> PathFormed(config, i))
    && (forall i :: 0 <= i < |config.intents| ==> IntentFormed(config, i))
    && (forall i :: 0 <= i < |config.vppEdges| ==> EdgeFormed(config, i))
  }

  /** Every reference between records resolves. */
  predicate Resolves(config: Config) {
    && (forall i :: 0 <= i < |config.tunnels| ==> TunnelResolves(config, config.tunnels[i]))
    && (forall i :: 0 <= i < |config.paths| ==> PathResolves(config, config.paths[i]))
    && (forall i :: 0 <= i < |config.intents| ==> IntentResolves(config, config.intents[i]))
  }

  /** `en_yaml_config_validate`: accepts exactly the configurations whose records are well formed and whose
      references resolve, and says NOT_FOUND only for a reference that does not. */
  method Validate(config: Config) returns (err: ErrorCode)
    ensures Judged(err, Formed(config), Resolves(config))
  {
    hide CountsFit, NodeFormed, TunnelFormed, PathFormed, IntentFormed, EdgeFormed, TunnelResolves, PathResolves, IntentResolves;
    if !CountsFit(config) { return ErrInvalidArgument; }
    for i := 0 to |config.nodes|
      invariant forall k :: 0 <= k < i ==> NodeFormed(config, k)
    {
      err := CheckNode(config, i);
      if err != ErrNone { return; }
    }
    for i := 0 to |config.tunnels|
      invariant forall k :: 0 <= k < i ==> TunnelFormed(config, k) && TunnelResolves(config, config.tunnels[k])
    {
      err := CheckTunnel(config, i);
      if err != ErrNone { return; }
    }
    for i := 0 to |config.paths|
      invariant forall k :: 0 <= k < i ==> PathFormed(config, k) && PathResolves(config, config.paths[k])
    {
      err := CheckPath(config, i);
      if err != ErrNone { return; }
    }
    for i := 0 to |config.intents|
      invariant forall k :: 0 <= k < i ==> IntentFormed(config, k) && IntentResolves(config, config.intents[k])
    {
      err := CheckIntent(config, i);
      if err != ErrNone { return; }
    }
    for i := 0 to |config.vppEdges|
      invariant forall k :: 0 <= k < i ==> EdgeFormed(config, k)
    {
      err := CheckEdge(config, i);
      if err != ErrNone { return; }
    }
    err := ErrNone;
  }
}
