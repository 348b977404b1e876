/** Loading a configuration (src/yaml_config.c): normalisation fills gaps once, and what validation accepts
    the controller and the plan builder can always look up. */
module ConfigLaws {
  import opened Model
  import opened Text
  import opened Backends
  import opened ControllerState
  import opened PathSelection
  import opened Transition
  import opened ControllerLoop
  import opened TrafficKeys
  import opened PlanBuilder
  import opened PlanLaws
  import opened ConfigCheck
  import StateFile

  // ----- normalisation -----

  /** What normalisation makes of a path. */
  function NormalPath(tunnels: seq<Tunnel>, path: Path): Path {
    WithLegacyFields(WithRoute(WithTunnelFields(tunnels, WithEgress(path))))
  }

  function WithEgress(p: Path): Path {
    if p.egressTunnelId == "" && |p.segments| > 0 then p.(egressTunnelId := p.segments[0].tunnelId) else p
  }

  function WithTunnelFields(tunnels: seq<Tunnel>, p: Path): Path {
    var egress := FindTunnel(tunnels, p.egressTunnelId);
    if egress.None? then p
    else p.(routeDestinationPrefix := if p.routeDestinationPrefix == "" then egress.value.remoteTrafficSelector else p.routeDestinationPrefix,
            routeNextHop := if p.routeNextHop == "" then egress.value.remoteEndpoint else p.routeNextHop)
  }

  function WithRoute(p: Path): Path {
    if |p.routes| == 0 && p.routeDestinationPrefix != "" then
      p.(routes := [Route("default", p.source, p.routeDestinationPrefix, p.routeNextHop, "", -1, -1)])
    else p
  }

  function WithLegacyFields(p: Path): Path {
    if |p.routes| == 0 then p
    else p.(routeDestinationPrefix := if p.routeDestinationPrefix == "" then p.routes[0].destinationPrefix else p.routeDestinationPrefix,
            routeNextHop := if p.routeNextHop == "" then p.routes[0].nextHop else p.routeNextHop)
  }

  function WithoutCidr(address: Id): Id {
    if |address| == 0 || address[0] == '/' then "" else [address[0]] + WithoutCidr(address[1..])
  }

  function NormalEdge(e: VppEdge): VppEdge {
    e.(vppInterface := if e.vppInterface == "" && e.hostInterface != ""
                       then "host-" + (if |e.hostInterface| <= 58 then e.hostInterface else e.hostInterface[..58])
                       else e.vppInterface,
       nextHop := if e.nextHop == "" && e.namespaceAddress != "" then WithoutCidr(e.namespaceAddress) else e.nextHop)
  }

  /** Normalising twice is normalising once. */
  lemma NormalisingIsIdempotent(tunnels: seq<Tunnel>, path: Path, edge: VppEdge)
    ensures NormalPath(tunnels, NormalPath(tunnels, path)) == NormalPath(tunnels, path)
    ensures NormalEdge(NormalEdge(edge)) == NormalEdge(edge)
  {
    hide FindTunnel, WithoutCidr;
    var a := WithEgress(path);
    var p := NormalPath(tunnels, path);
    assert p.egressTunnelId == a.egressTunnelId && p.segments == path.segments;
    assert WithEgress(p) == p;
    assert WithTunnelFields(tunnels, p) == p;
    assert "host-" != "";
  }

  /** Normalisation only fills what was empty. */
  lemma NormalisingKeeps(tunnels: seq<Tunnel>, path: Path)
    ensures var p := NormalPath(tunnels, path);
            && p.pathId == path.pathId && p.source == path.source && p.destination == path.destination
            && p.segments == path.segments && p.waypoints == path.waypoints && p.routesExplicit == path.routesExplicit
            && p.priority == path.priority && p.admin == path.admin
            && (path.egressTunnelId != "" ==> p.egressTunnelId == path.egressTunnelId)
            && (path.routeDestinationPrefix != "" ==> p.routeDestinationPrefix == path.routeDestinationPrefix)
            && (path.routeNextHop != "" ==> p.routeNextHop == path.routeNextHop)
            && (|path.routes| > 0 ==> p.routes == path.routes)
            && (|p.routes| == 0 ==> p.routeDestinationPrefix == "")
  {
    hide FindTunnel;
  }

  /** The egress tunnel and what can be taken from it. */
  method FillFromTunnel(tunnels: seq<Tunnel>, given: Path) returns (path: Path)
    ensures path == WithTunnelFields(tunnels, WithEgress(given))
  {
    hide FindTunnel;
    path := given;
    if path.egressTunnelId == "" && |path.segments| > 0 {
      path := path.(egressTunnelId := path.segments[0].tunnelId);
    }
    assert path == WithEgress(given);
    if path.routeDestinationPrefix == "" {
      var tunnel := FindTunnel(tunnels, path.egressTunnelId);
      if tunnel.Some? && tunnel.value.remoteTrafficSelector != "" {
        path := path.(routeDestinationPrefix := tunnel.value.remoteTrafficSelector);
      }
    }
    if path.routeNextHop == "" {
      var tunnel := FindTunnel(tunnels, path.egressTunnelId);
      if tunnel.Some? && tunnel.value.remoteEndpoint != "" {
        path := path.(routeNextHop := tunnel.value.remoteEndpoint);
      }
    }
  }

  /** The default route, and the fields that can be taken from the first route. */
  method FillFromRoutes(given: Path) returns (path: Path)
    ensures path == WithLegacyFields(WithRoute(given))
  {
    path := given;
    if |path.routes| == 0 && path.routeDestinationPrefix != "" {
      path := path.(routes := [Route("default", path.source, path.routeDestinationPrefix, path.routeNextHop, "", -1, -1)]);
    }
    assert path == WithRoute(given);
    if path.routeDestinationPrefix == "" && |path.routes| > 0 {
      path := path.(routeDestinationPrefix := path.routes[0].destinationPrefix);
    }
    if path.routeNextHop == "" && |path.routes| > 0 {
      path := path.(routeNextHop := path.routes[0].nextHop);
    }
  }

  lemma NormalPathStep(tunnels: seq<Tunnel>, path: Path, filled: Path)
    requires filled == WithTunnelFields(tunnels, WithEgress(path))
    ensures NormalPath(tunnels, path) == WithLegacyFields(WithRoute(filled))
  {
  }

  /** `yaml_normalize`: every path and every edge, in place. */
  method Normalize(tunnels: seq<Tunnel>, paths: array<Path>, edges: array<VppEdge>)
    modifies paths, edges
    ensures forall i :: 0 <= i < paths.Length ==> paths[i] == NormalPath(tunnels, old(paths[i]))
    ensures forall i :: 0 <= i < edges.Length ==> edges[i] == NormalEdge(old(edges[i]))
  {
    hide NormalPath, NormalEdge, WithEgress, WithTunnelFields, WithRoute, WithLegacyFields;
    for i := 0 to paths.Length
      invariant forall k :: 0 <= k < i ==> paths[k] == NormalPath(tunnels, old(paths[k]))
      invariant forall k :: i <= k < paths.Length ==> paths[k] == old(paths[k])
      invariant forall k :: 0 <= k < edges.Length ==> edges[k] == old(edges[k])
    {
      var filled := FillFromTunnel(tunnels, paths[i]);
      paths[i] := FillFromRoutes(filled);
      NormalPathStep(tunnels, old(paths[i]), filled);
    }
    for i := 0 to edges.Length
      invariant forall k :: 0 <= k < paths.Length ==> paths[k] == NormalPath(tunnels, old(paths[k]))
      invariant forall k :: 0 <= k < i ==> edges[k] == NormalEdge(old(edges[k]))
      invariant forall k :: i <= k < edges.Length ==> edges[k] == old(edges[k])
    {
      edges[i] := NormalEdge(edges[i]);
    }
  }

  /** The plan of a normalised path always lists its routes, so its rollback list is exact: the route
      without a list, whose deletion may name another next hop, cannot be planned. */
  lemma NormalisedPlansAreExact(config: Config, intent: Intent, path: Path, file: string)
    requires path == NormalPath(config.tunnels, path) && Buildable(config, intent, path, file)
    ensures |path.routes| > 0 && RollbackListNames(config, path) && forall s0 :: RollbackListSpares(s0, config, path)
  {
    hide Prelude, NormalPath, Concat;
    NormalisingKeeps(config.tunnels, path);
    if |path.routes| == 0 {
      var s := RouteSteps(config, path)[0];
      PrintableInPlan(config, intent, path, file, s);
      assert !IsToken(LegacyRoute(path, FindTunnel(config.tunnels, path.egressTunnelId).value).destinationPrefix);
    }
  }

  // ----- validation closure -----

  /** The tunnels of every path of an accepted configuration can be found. */
  lemma AcceptedTunnelsKnown(config: Config, p: nat)
    requires p < |config.paths| && Resolves(config)
    ensures TunnelsKnown(config, config.paths[p])
  {
    var path := config.paths[p];
    assert PathResolves(config, path);
    forall j | 0 <= j < |path.segments| ensures FindTunnel(config.tunnels, path.segments[j].tunnelId).Some? {
      assert SegmentResolves(config, path.segments[j]);
      var i :| 0 <= i < |config.tunnels| && config.tunnels[i].tunnelId == path.segments[j].tunnelId;
      assert config.tunnels[i] in config.tunnels;
    }
  }

  /** Every path an intent of an accepted configuration can ask for exists. */
  lemma AcceptedPathsKnown(config: Config, i: nat)
    requires i < |config.intents| && Resolves(config)
    ensures !RequestsUnknown(config.paths, config.intents[i].selection)
  {
    var sel := config.intents[i].selection;
    assert IntentResolves(config, config.intents[i]);
    forall id | id in ObservedIds(config.paths, sel) ensures FindPath(config.paths, id).Some? {
      if |sel.candidates| > 0 {
        var j :| 0 <= j < |sel.candidates| && sel.candidates[j] == id;
        assert HasPath(config, sel.candidates[j]);
      } else if sel.mode == Explicit {
        assert HasPath(config, sel.pathId);
      } else {
        var ids := ObservedIds(config.paths, sel);
        var k :| 0 <= k < |ids| && ids[k] == id;
        assert config.paths[k].pathId == id;
      }
    }
  }

  /** With nodes configured, the endpoints of every accepted intent are tokens that fit their fields, so its
      traffic key is never truncated, determines the selector, and can be written to the state file. */
  lemma AcceptedEndpointsAreTokens(config: Config, i: nat)
    requires i < |config.intents| && Formed(config) && Resolves(config) && |config.nodes| > 0
    ensures var t := config.intents[i].traffic;
            && IsToken(t.source) && IsToken(t.destination) && |TrafficKey(t)| < MAX_TRAFFIC_KEY_LEN
            && StateFile.StateEndpoints(t)
            && forall j :: 0 <= j < |config.intents| && TrafficKey(config.intents[j].traffic) == TrafficKey(t) ==> config.intents[j].traffic == t
  {
    EndpointsAreTokens(config, i);
    KeyNeverTruncated(config.intents[i].traffic);
    forall j | 0 <= j < |config.intents| && TrafficKey(config.intents[j].traffic) == TrafficKey(config.intents[i].traffic)
      ensures config.intents[j].traffic == config.intents[i].traffic
    {
      EndpointsAreTokens(config, j);
      KeyInjective(config.intents[j].traffic, config.intents[i].traffic);
    }
  }

  lemma EndpointsAreTokens(config: Config, i: nat)
    requires i < |config.intents| && Formed(config) && Resolves(config) && |config.nodes| > 0
    ensures var t := config.intents[i].traffic;
            && ConfigToken(t.source) && ConfigToken(t.destination) && StateFile.StateEndpoints(t)
            && (t.vlan.Some? ==> 1 <= t.vlan.value <= 4094)
  {
    var t := config.intents[i].traffic;
    assert IntentFormed(config, i) && IntentResolves(config, config.intents[i]);
    var a :| 0 <= a < |config.nodes| && config.nodes[a].nodeId == t.source;
    var b :| 0 <= b < |config.nodes| && config.nodes[b].nodeId == t.destination;
    assert NodeFormed(config, a) && NodeFormed(config, b);
  }

  /** Planning a path of a configuration that was accepted never fails for want of a tunnel. */
  method PlanAccepted(config: Config, intent: Intent, p: nat, file: string) returns (accepted: ErrorCode, err: ErrorCode)
    requires p < |config.paths|
    ensures accepted == ErrNone ==> err != ErrNotFound
  {
    hide Formed, Resolves, Buildable, TunnelsKnown;
    accepted := Validate(config);
    if accepted != ErrNone { return accepted, accepted; }
    AcceptedTunnelsKnown(config, p);
    var plan;
    ghost var fits;
    err, plan, fits := Build(config, intent, config.paths[p], file);
  }

  /** One submission of an intent that asks for known paths only. */
  method SubmitKnown(c: Controller, intent: Intent, clock: Clock) returns (err: ErrorCode)
    requires c.Shape() && c.Backing() && c.transitionState in {Idle, Failed}
    requires !c.net.faults.ensureTunnel && !c.net.faults.validatePath && !RequestsUnknown(c.paths, intent.selection)
    modifies c`transitionState, c`opState, c`observed, c`health, c`intents, c.net`up, c.net`trace
    modifies c.net.vpp, c.net.vpp.trafficKeys, c.net.vpp.activePaths
    modifies c.applied, c.applied.trafficKeys, c.applied.appliedPaths, c.applied.appliedSinceMs
    ensures c.Shape() && c.Backing() && c.transitionState in {Idle, Failed}
    ensures err != ErrNotFound
  {
    hide Choose, RequestsUnknown, SwitchOutcome, Bounded, Activated, Settled, TrafficKey;
    var result;
    ghost var step, view, sw;
    err, result, step, view, sw := SubmitIntent(c, intent, clock);
    if step == Unselected && err == ErrNotFound {
      NotFoundMeansUnknown(view, clock, intent.selection);
    }
  }

  /** Any of the intents, in whatever order and number, with telemetry changing in between. */
  method SubmitAll(c: Controller, intents: seq<Intent>, submitted: seq<nat>, clocks: nat -> Clock) returns (errors: seq<ErrorCode>)
    requires c.Shape() && c.Backing() && c.transitionState in {Idle, Failed}
    requires !c.net.faults.ensureTunnel && !c.net.faults.validatePath
    requires forall i :: 0 <= i < |intents| ==> !RequestsUnknown(c.paths, intents[i].selection)
    requires forall k :: 0 <= k < |submitted| ==> submitted[k] < |intents|
    modifies c`transitionState, c`opState, c`observed, c`health, c`intents, c.net`up, c.net`trace, c.net`telemetry
    modifies c.net.vpp, c.net.vpp.trafficKeys, c.net.vpp.activePaths
    modifies c.applied, c.applied.trafficKeys, c.applied.appliedPaths, c.applied.appliedSinceMs
    ensures |errors| == |submitted| && ErrNotFound !in errors
  {
    hide RequestsUnknown, Controller.Shape, Controller.Backing;
    errors := [];
    for k := 0 to |submitted|
      invariant c.Shape() && c.Backing() && c.transitionState in {Idle, Failed}
      invariant |errors| == k && ErrNotFound !in errors
    {
      c.net.telemetry := *;
      var err := SubmitKnown(c, intents[submitted[k]], clocks(k));
      errors := errors + [err];
    }
  }

  /** Whatever intents of an accepted configuration are submitted, in whatever order and number, with
      telemetry changing in between and install calls failing at any point, none of them comes back with
      NOT_FOUND. */
  method RunAccepted(config: Config, submitted: seq<nat>, clocks: nat -> Clock, requireObservations: bool) returns (accepted: ErrorCode, errors: seq<ErrorCode>)
    requires forall k :: 0 <= k < |submitted| ==> submitted[k] < |config.intents|
    ensures accepted == ErrNone ==> |errors| == |submitted| && ErrNotFound !in errors
  {
    hide Formed, Resolves, RequestsUnknown, PathCountsValid;
    errors := [];
    accepted := Validate(config);
    if accepted != ErrNone { return; }
    PathsLoadable(config);
    forall i: nat | i < |config.intents| ensures !RequestsUnknown(config.paths, config.intents[i].selection) {
      AcceptedPathsKnown(config, i);
    }
    var vpp := new VppMockAdapter.VppMock(MAX_CANDIDATES);
    var net := new Network(vpp, Offers(true, true, true, true, true), Faults(false, false, true, false, false, false, false), requireObservations);
    var c := new Controller(config.nodes, config.paths, config.tunnels, net);
    errors := SubmitAll(c, config.intents, submitted, clocks);
  }

  lemma PathsLoadable(config: Config)
    requires Formed(config)
    ensures forall i :: 0 <= i < |config.paths| ==> PathCountsValid(config.paths[i]) && config.paths[i].pathId != ""
  {
    forall i | 0 <= i < |config.paths| ensures config.paths[i].pathId != "" {
      assert PathFormed(config, i);
    }
  }
}
