/** What the rest of the program may rely on once a configuration was accepted (src/yaml_config.c:179-565). */
module Acceptance {
  import opened Model
  import opened ConfigCheck
  import opened ConfigLaws
  import opened ControllerState
  import opened ControllerLoop
  import opened PathSelection
  import opened Backends
  import opened TrafficKeys
  import Render
  import VppApi

  // ----- lookups -----

  /** Every path and every tunnel is the one that a lookup of its name finds. */
  lemma AcceptedLookups(config: Config)
    requires Formed(config)
    ensures forall i :: 0 <= i < |config.paths| ==> FindPath(config.paths, config.paths[i].pathId) == Some(i)
    ensures forall i :: 0 <= i < |config.tunnels| ==> FindTunnel(config.tunnels, config.tunnels[i].tunnelId) == Some(config.tunnels[i])
  {
    forall i | 0 <= i < |config.paths| ensures FindPath(config.paths, config.paths[i].pathId) == Some(i) {
      var j := FindPath(config.paths, config.paths[i].pathId).value;
      assert PathFormed(config, j);
    }
    forall i | 0 <= i < |config.tunnels| ensures FindTunnel(config.tunnels, config.tunnels[i].tunnelId) == Some(config.tunnels[i]) {
      var t := FindTunnel(config.tunnels, config.tunnels[i].tunnelId).value;
      var j :| 0 <= j < |config.tunnels| && config.tunnels[j] == t;
      assert TunnelFormed(config, if i < j then i else j);
    }
  }

  // ----- secrets -----

  /** A secret or a certificate name written between quotes, or at the end of a line, cannot end the string or the line. */
  lemma AcceptedSecretsStayQuoted(config: Config, i: nat, c: char)
    requires Formed(config) && i < |config.tunnels|
    requires c in config.tunnels[i].psk || c in config.tunnels[i].localCert || c in config.tunnels[i].remoteCacerts
    ensures c !in {'"', '\\', '\n', '\r', '\t', ' ', '\0'}
  {
    assert TunnelFormed(config, i);
  }

  // ----- submissions -----

  /** The stored intents are some of the configuration's, each at most once. */
  ghost predicate StoredFrom(config: Config, intents: seq<Intent>) {
    && (forall k :: 0 <= k < |intents| ==> intents[k] in config.intents)
    && (forall j, k :: 0 <= j < k < |intents| ==> intents[j].intentId != intents[k].intentId)
  }

  lemma {:induction false} StoredIds(config: Config, intents: seq<Intent>, intent: Intent)
    ensures forall x :: x in WithIntent(intents, intent) ==> x == intent || (x in intents && x.intentId != intent.intentId) || x in intents
    ensures forall x :: x in WithIntent(intents, intent) ==> x == intent || x in intents
  {
    if |intents| > 0 { StoredIds(config, intents[1..], intent); }
  }

  lemma {:induction false} StoredStays(config: Config, intents: seq<Intent>, intent: Intent)
    requires StoredFrom(config, intents) && intent in config.intents
    ensures StoredFrom(config, WithIntent(intents, intent))
  {
    if |intents| > 0 {
      var rest := intents[1..];
      assert forall k :: 0 <= k < |rest| ==> rest[k] == intents[k + 1];
      StoredStays(config, rest, intent);
      StoredIds(config, rest, intent);
      var after := WithIntent(rest, intent);
      if intents[0].intentId != intent.intentId {
        forall x | x in after ensures x.intentId != intents[0].intentId {
          if x != intent { var k :| 0 <= k < |rest| && rest[k] == x; }
        }
      }
    }
  }

  ghost function Ids(intents: seq<Intent>): set<Id> { set k | 0 <= k < |intents| :: intents[k].intentId }

  lemma {:induction false} IdsCount(intents: seq<Intent>)
    ensures |Ids(intents)| <= |intents|
    ensures (forall j, k :: 0 <= j < k < |intents| ==> intents[j].intentId != intents[k].intentId) ==> |Ids(intents)| == |intents|
  {
    if |intents| > 0 {
      var n := |intents| - 1;
      IdsCount(intents[..n]);
      assert Ids(intents) == Ids(intents[..n]) + {intents[n].intentId};
    }
  }

  /** There is room for every intent of the configuration. */
  lemma AcceptedRecordable(config: Config, intents: seq<Intent>, i: nat)
    requires Formed(config) && i < |config.intents| && StoredFrom(config, intents)
    ensures Recordable(intents, config.intents[i])
  {
    if |intents| >= MAX_CANDIDATES {
      IdsCount(intents);
      IdsCount(config.intents);
      var id := config.intents[i].intentId;
      if id !in Ids(intents) {
        assert Ids(intents) + {id} <= Ids(config.intents) by {
          forall x | x in Ids(intents) ensures x in Ids(config.intents) {
            var k :| 0 <= k < |intents| && intents[k].intentId == x;
            var m :| 0 <= m < |config.intents| && config.intents[m] == intents[k];
          }
        }
        SubsetCount(Ids(intents) + {id}, Ids(config.intents));
      }
    }
  }

  lemma SubsetCount(a: set<Id>, b: set<Id>)
    requires a <= b
    ensures |a| <= |b|
  {
    assert b == a + (b - a);
  }

  /** No intent of an accepted configuration is turned away, as long as the probe can be asked. */
  lemma AcceptedNotRefused(config: Config, c: Controller, i: nat)
    requires Formed(config) && Resolves(config) && i < |config.intents| && c.paths == config.paths
    requires StoredFrom(config, c.intents) && c.net.offers.validatePath && !c.net.faults.validatePath
    ensures !MayRefuse(c, c.intents, config.intents[i])
  {
    hide RequestsUnknown;
    AcceptedRecordable(config, c.intents, i);
    AcceptedPathsKnown(config, i);
    assert IntentFormed(config, i);
  }

  /** One submission of an intent of the configuration. */
  method SubmitAccepted(c: Controller, config: Config, i: nat, clock: Clock) returns (err: ErrorCode, result: Option<ReconcileResult>)
    requires c.Shape() && c.Backing() && c.transitionState in {Idle, Failed}
    requires Formed(config) && Resolves(config) && i < |config.intents| && c.paths == config.paths && StoredFrom(config, c.intents)
    requires c.net.offers.validatePath && !c.net.faults.validatePath
    modifies c`transitionState, c`opState, c`observed, c`health, c`intents, c.net`up, c.net`trace
    modifies c.net.vpp, c.net.vpp.trafficKeys, c.net.vpp.activePaths
    modifies c.applied, c.applied.trafficKeys, c.applied.appliedPaths, c.applied.appliedSinceMs
    ensures c.Shape() && c.Backing() && c.transitionState in {Idle, Failed}
    ensures StoredFrom(config, c.intents) && result.Some? && result.value.intentId == config.intents[i].intentId
  {
    hide Formed, Resolves, StoredFrom, MayRefuse, SwitchTried, Choose, Explains, WithIntent, AllSettled, ObservedSet, TrafficKey;
    AcceptedNotRefused(config, c, i);
    assert config.intents[i] in config.intents;
    StoredStays(config, c.intents, config.intents[i]);
    ghost var step, view, sw;
    err, result, step, view, sw := SubmitIntent(c, config.intents[i], clock);
  }

  /** Whatever intents of an accepted configuration are submitted, in whatever order and number, every one is
      taken up: it is observed and a path is selected for it or found wanting. */
  method RunTakesAll(config: Config, submitted: seq<nat>, clocks: nat -> Clock, requireObservations: bool)
    returns (accepted: ErrorCode, results: seq<ReconcileResult>)
    requires forall k :: 0 <= k < |submitted| ==> submitted[k] < |config.intents|
    ensures accepted == ErrNone ==> |results| == |submitted| && forall k :: 0 <= k < |results| ==> results[k].intentId == config.intents[submitted[k]].intentId
  {
    hide Formed, Resolves, StoredFrom, PathCountsValid;
    results := [];
    accepted := Validate(config);
    if accepted != ErrNone { return; }
    PathsLoadable(config);
    var vpp := new VppMockAdapter.VppMock(MAX_CANDIDATES);
    var net := new Network(vpp, Offers(true, true, true, true, true), Faults(true, true, true, true, true, false, false), requireObservations);
    var c := new Controller(config.nodes, config.paths, config.tunnels, net);
    results := SubmitEach(c, config, submitted, clocks);
  }

  method SubmitEach(c: Controller, config: Config, submitted: seq<nat>, clocks: nat -> Clock) returns (results: seq<ReconcileResult>)
    requires c.Shape() && c.Backing() && c.transitionState == Idle && c.intents == []
    requires Formed(config) && Resolves(config) && c.paths == config.paths
    requires c.net.offers.validatePath && !c.net.faults.validatePath
    requires forall k :: 0 <= k < |submitted| ==> submitted[k] < |config.intents|
    modifies c`transitionState, c`opState, c`observed, c`health, c`intents, c.net`up, c.net`trace, c.net`telemetry
    modifies c.net.vpp, c.net.vpp.trafficKeys, c.net.vpp.activePaths
    modifies c.applied, c.applied.trafficKeys, c.applied.appliedPaths, c.applied.appliedSinceMs
    ensures |results| == |submitted| && forall k :: 0 <= k < |results| ==> results[k].intentId == config.intents[submitted[k]].intentId
  {
    hide Formed, Resolves, Controller.Shape, Controller.Backing;
    results := [];
    assert StoredFrom(config, c.intents);
    hide StoredFrom;
    for k := 0 to |submitted|
      invariant c.Shape() && c.Backing() && c.transitionState in {Idle, Failed}
      invariant StoredFrom(config, c.intents) && |results| == k
      invariant forall j :: 0 <= j < k ==> results[j].intentId == config.intents[submitted[j]].intentId
    {
      c.net.telemetry := *;
      var err, result := SubmitAccepted(c, config, submitted[k], clocks(k));
      results := results + [result.value];
    }
  }

  // ----- forwarding -----

  /** The edges of a node have different interfaces, so their sub-interfaces for a VLAN are different ones. */
  lemma AcceptedEdgesDiffer(config: Config, i: nat, j: nat, vlan: int)
    requires Formed(config) && i < j < |config.vppEdges|
    ensures VppApi.SubOf(config.vppEdges[i], vlan) != VppApi.SubOf(config.vppEdges[j], vlan)
    ensures config.vppEdges[i].nodeId == config.vppEdges[j].nodeId ==>
              && config.vppEdges[i].portId != "" && config.vppEdges[j].portId != "" && config.vppEdges[i].portId != config.vppEdges[j].portId
              && (config.vppEdges[i].hostInterface != "" ==> config.vppEdges[i].hostInterface != config.vppEdges[j].hostInterface)
  {
    assert EdgeFormed(config, i);
    assert !Clash(config.vppEdges[i], config.vppEdges[j]);
  }

  /** The commands of a listed route can always be rendered. */
  lemma AcceptedRoutesRendered(config: Config, i: nat, j: nat)
    requires Formed(config) && i < |config.paths| && j < |config.paths[i].routes|
    requires config.paths[i].routes[j].tableId < 0x8000_0000 && config.paths[i].routes[j].metric < 0x8000_0000
    ensures var r := config.paths[i].routes[j];
            Render.Storable(r) && Render.Renderable(r) && Render.RenderAdd(r).Some? && Render.RenderDelete(r).Some?
  {
    assert PathFormed(config, i);
    assert RouteFormed(config.paths[i], j);
    Render.RenderedAddReadsBack(config.paths[i].routes[j]);
    Render.RenderedDeleteReadsBack(config.paths[i].routes[j]);
  }

  lemma {:induction false} AcceptedRoutesChecked(config: Config, p: nat, n: nat)
    requires Formed(config) && Resolves(config) && p < |config.paths| && n <= |config.paths[p].routes| && |config.vppEdges| > 0
    ensures VppApi.CheckRoutes(config.paths[p].routes[n..], config.vppEdges) == ErrNone
    decreases |config.paths[p].routes| - n
  {
    var path := config.paths[p];
    if n < |path.routes| {
      AcceptedRoutesChecked(config, p, n + 1);
      assert path.routes[n..][0] == path.routes[n] && path.routes[n..][1..] == path.routes[n + 1..];
      AcceptedRouteChecked(config, p, n);
    }
  }

  lemma AcceptedRouteChecked(config: Config, p: nat, n: nat)
    requires Formed(config) && Resolves(config) && p < |config.paths| && n < |config.paths[p].routes| && |config.vppEdges| > 0
    ensures VppApi.ValidRouteOperation(config.paths[p].routes[n])
    ensures config.paths[p].routes[n].interfaceName != "" ==>
              exists e :: 0 <= e < |config.vppEdges| && VppApi.EdgeMatchesRoute(config.vppEdges[e], config.paths[p].routes[n])
  {
    var r := config.paths[p].routes[n];
    assert PathFormed(config, p) && PathResolves(config, config.paths[p]);
    assert RouteFormed(config.paths[p], n) && RouteResolves(config, r);
    if r.interfaceName != "" {
      var e :| 0 <= e < |config.vppEdges| && EdgeCarries(config.vppEdges[e], r);
      assert VppApi.EdgeMatchesRoute(config.vppEdges[e], r);
    }
  }

  /** Two routes of the path ask for different tables at this node of it. */
  predicate Disagrees(path: Path, node: Id) {
    && VppApi.PathContainsNode(path, node)
    && exists i, j :: 0 <= i < |path.routes| && 0 <= j < |path.routes| && VppApi.Asks(path.routes[i], node) && VppApi.Asks(path.routes[j], node) &&
         path.routes[i].tableId != path.routes[j].tableId
  }

  /** Installing an accepted path that lists its routes, over the accepted edges and a backend that offers every
      call, is refused beforehand exactly if two routes of a path node ask for different tables. */
  lemma AcceptedPrecheck(config: Config, p: nat, i: nat, b: VppApi.Backend)
    requires Formed(config) && Resolves(config) && p < |config.paths| && i < |config.intents|
    requires |config.paths[p].routes| > 0 && |config.vppEdges| > 0
    requires b.callbacks == VppApi.Callbacks(true, true, true, true, true, true)
    ensures VppApi.Precheck(b, config.paths[p], config.intents[i].traffic, config.vppEdges, false) == ErrNone <==>
            !(config.intents[i].traffic.vlan.Some? && exists e :: 0 <= e < |config.vppEdges| && Disagrees(config.paths[p], config.vppEdges[e].nodeId))
  {
    hide VppApi.PathContainsNode, VppApi.TableForNode, VppApi.CheckRoutes;
    var path := config.paths[p];
    assert IntentFormed(config, i);
    AcceptedRoutesChecked(config, p, 0);
    assert path.routes[0..] == path.routes;
    forall e | 0 <= e < |config.vppEdges|
      ensures VppApi.TableUnusable(b, path, config.vppEdges[e]) <==> Disagrees(path, config.vppEdges[e].nodeId)
    {
      VppApi.TableForNodeIsAgreed(path.routes, config.vppEdges[e].nodeId);
    }
  }

  // ----- an ordinary configuration -----

  const Hub := Node("a", "edge", ["e1"], ["ipsec"], AdminEnabled)
  const Spoke := Node("b", "edge", [], [], AdminEnabled)

  /** By a shared key. */
  const Shared := Tunnel("t1", "ipsec", "a", "b", "10.0.0.1", "10.0.0.2", "10.1.0.0/16", "10.2.0.0/16", "", "", "", "", "", -1, 0,
                         "psk", "", "", "s3cret!", TunnelConfigured, HealthUnknown)
  /** By certificates, carrying GRE. */
  const Certified := Tunnel("t2", "gre_over_ipsec", "a", "b", "10.0.0.1", "10.0.0.2", "", "", "gre0", "", "", "10.9.0.1", "10.9.0.2", 0, 1400,
                            "pubkey", "a.pem", "ca.pem", "", TunnelConfigured, HealthUnknown)

  const Direct := Path("p1", "a", "b", "", "", "", [], [Route("r1", "a", "10.2.0.0/16", "10.0.0.2", "gi0", 10, -1)], true, [Segment("s1", "a", "b", "t1")], 1, AdminEnabled)
  const Spare := Path("p2", "a", "b", "10.2.0.0/16", "10.9.0.2", "t2", [], [], false, [Segment("", "", "", "t2")], 2, AdminEnabled)

  const Steady := Intent("i1", Traffic("a", "b", Some(10)), true, true,
                         Selection(Evaluated, "", ["p1", "p2"], Constraints(Some(50.0), Some(1.0), Some(10.0), 3, 3, 5000, [], [], ["ipsec"]), [ByLatency]),
                         Policy(Graceful, 100, 200, 0, 2, 50), None)

  const Port := VppEdge("a", "e1", "eth0", "gi0", "", "", "10.0.0.1", [10, 20])

  function Ordinary(): Config { Config([Hub, Spoke], [Shared, Certified], [Direct, Spare], [Steady], [Port]) }

  lemma OrdinaryNames()
    ensures ConfigToken("a") && ConfigToken("b") && ConfigToken("t1") && ConfigToken("t2") && ConfigToken("p1") && ConfigToken("p2")
    ensures ConfigToken("i1") && ConfigToken("s1") && ConfigToken("r1") && ConfigToken("e1") && ConfigToken("edge") && ConfigToken("ipsec")
    ensures ConfigToken("gi0") && ConfigToken("gre0")
  {
  }

  lemma OrdinaryAddresses()
    ensures ConfigToken("10.9.0.1") && ConfigToken("10.9.0.2") && ConfigToken("10.0.0.2") && ConfigToken("10.2.0.0/16")
    ensures ConfigToken("a.pem") && ConfigToken("ca.pem") && ValidSecret("s3cret!") && ValidSecret("")
  {
  }

  lemma OrdinaryTunnels(config: Config)
    requires config == Ordinary()
    ensures TunnelFormed(config, 0) && TunnelFormed(config, 1)
    ensures TunnelResolves(config, config.tunnels[0]) && TunnelResolves(config, config.tunnels[1])
  {
    hide ConfigToken, ValidSecret;
    OrdinaryNames();
    OrdinaryAddresses();
    OrdinaryNodes(config);
    assert "t1"[1] != "t2"[1];
  }

  lemma OrdinaryNodes(config: Config)
    requires config == Ordinary()
    ensures NodeFormed(config, 0) && NodeFormed(config, 1) && NodeRef(config, "a") && NodeRef(config, "b")
  {
    hide ConfigToken;
    OrdinaryNames();
    assert config.nodes[0].nodeId == "a" && config.nodes[1].nodeId == "b";
    assert "a"[0] != "b"[0];
  }

  lemma OrdinaryPaths(config: Config)
    requires config == Ordinary()
    ensures PathFormed(config, 0) && PathFormed(config, 1) && PathResolves(config, config.paths[0]) && PathResolves(config, config.paths[1])
  {
    hide ConfigToken, NodeRef;
    OrdinaryNames();
    OrdinaryAddresses();
    OrdinaryNodes(config);
    assert "p1"[1] != "p2"[1];
    assert config.tunnels[0].tunnelId == "t1" && config.tunnels[1].tunnelId == "t2";
    assert config.vppEdges[0].nodeId == "a" && EdgeCarries(config.vppEdges[0], config.paths[0].routes[0]);
  }

  lemma OrdinaryIntents(config: Config)
    requires config == Ordinary()
    ensures IntentFormed(config, 0) && IntentResolves(config, config.intents[0]) && EdgeFormed(config, 0)
  {
    hide ConfigToken, NodeRef;
    OrdinaryNames();
    OrdinaryNodes(config);
    assert "p1"[1] != "p2"[1];
    assert config.paths[0].pathId == "p1" && config.paths[1].pathId == "p2";
  }

  /** A shared key, certificates, GRE, listed and unlisted routes, constraints and an edge with VLANs: accepted. */
  method OrdinaryIsAccepted() returns (err: ErrorCode)
    ensures err == ErrNone
  {
    hide NodeFormed, TunnelFormed, PathFormed, IntentFormed, EdgeFormed, TunnelResolves, PathResolves, IntentResolves;
    var config := Ordinary();
    OrdinaryNodes(config);
    OrdinaryTunnels(config);
    OrdinaryPaths(config);
    OrdinaryIntents(config);
    err := Validate(config);
  }
}
