/** What normalisation fills in (src/yaml_config.c:1421-1471), said over the configuration. */
module Filling {
  import opened Model
  import opened Deployment
  import opened ConfigLaws

  /** A gap that a tunnel or else the first route of the path can fill. */
  predicate Fills(filled: Id, given: Id, fromTunnel: Id, fromRoute: Id) {
    filled == if given != "" then given else if fromTunnel != "" then fromTunnel else fromRoute
  }

  const NoRoute := Route("", "", "", "", "", -1, -1)

  /** The egress tunnel is the given one or that of the first segment. Where the prefix or the next hop is missing, it
      is what the configured egress tunnel leads to, or else what the first route says. A path without routes gets one
      default route at its source exactly if it now has a prefix. */
  lemma NormalisingFills(config: Config, path: Path)
    ensures var p, first := NormalPath(config.tunnels, path), if |path.routes| > 0 then path.routes[0] else NoRoute;
            && Fills(p.egressTunnelId, path.egressTunnelId, if |path.segments| > 0 then path.segments[0].tunnelId else "", "")
            && (forall t :: IsTunnel(config, p.egressTunnelId, t) ==>
                  && Fills(p.routeDestinationPrefix, path.routeDestinationPrefix, t.remoteTrafficSelector, first.destinationPrefix)
                  && Fills(p.routeNextHop, path.routeNextHop, t.remoteEndpoint, first.nextHop))
            && ((forall t :: !IsTunnel(config, p.egressTunnelId, t)) ==>
                  && Fills(p.routeDestinationPrefix, path.routeDestinationPrefix, "", first.destinationPrefix)
                  && Fills(p.routeNextHop, path.routeNextHop, "", first.nextHop))
            && p.routes == if |path.routes| > 0 then path.routes
                           else if p.routeDestinationPrefix == "" then []
                           else [Route("default", path.source, p.routeDestinationPrefix, p.routeNextHop, "", -1, -1)]
  {
    hide FindTunnel, IsTunnel, NormalPath, Fills;
    var a := WithEgress(path);
    IsTunnelFound(config, a.egressTunnelId);
    FillsFrom(config.tunnels, path, FindTunnel(config.tunnels, a.egressTunnelId));
  }

  lemma FillsFrom(tunnels: seq<Tunnel>, path: Path, egress: Option<Tunnel>)
    requires egress == FindTunnel(tunnels, WithEgress(path).egressTunnelId)
    ensures var p, first := NormalPath(tunnels, path), if |path.routes| > 0 then path.routes[0] else NoRoute;
            && p.egressTunnelId == WithEgress(path).egressTunnelId
            && Fills(p.egressTunnelId, path.egressTunnelId, if |path.segments| > 0 then path.segments[0].tunnelId else "", "")
            && Fills(p.routeDestinationPrefix, path.routeDestinationPrefix, if egress.Some? then egress.value.remoteTrafficSelector else "", first.destinationPrefix)
            && Fills(p.routeNextHop, path.routeNextHop, if egress.Some? then egress.value.remoteEndpoint else "", first.nextHop)
            && p.routes == if |path.routes| > 0 then path.routes
                           else if p.routeDestinationPrefix == "" then []
                           else [Route("default", path.source, p.routeDestinationPrefix, p.routeNextHop, "", -1, -1)]
  {
    hide FindTunnel;
    var a := WithEgress(path);
    var b := WithTunnelFields(tunnels, a);
    assert b.routes == path.routes;
    assert b.egressTunnelId == a.egressTunnelId;
  }

  /** The first `n` characters of an address, up to the slash of a prefix length. */
  predicate UpToSlash(address: Id, n: nat) {
    n <= |address| && (n < |address| ==> address[n] == '/') && forall i :: 0 <= i < n ==> address[i] != '/'
  }

  lemma {:induction false} CidrIsCut(address: Id, n: nat)
    requires UpToSlash(address, n)
    ensures WithoutCidr(address) == address[..n]
  {
    if n > 0 {
      assert forall i :: 0 <= i < n - 1 ==> address[1..][i] == address[i + 1];
      CidrIsCut(address[1..], n - 1);
      assert address[..n] == [address[0]] + address[1..][..n - 1];
    }
  }

  /** An edge without an interface is named after the host interface, as far as the name fits its field; one without a
      next hop gets the address of the namespace, without the prefix length. */
  lemma NormalisingNames(e: VppEdge, n: nat)
    requires UpToSlash(e.namespaceAddress, n)
    ensures var edge := NormalEdge(e);
            && Fills(edge.vppInterface, e.vppInterface,
                     if e.hostInterface == "" then "" else "host-" + if |e.hostInterface| > 58 then e.hostInterface[..58] else e.hostInterface, "")
            && Fills(edge.nextHop, e.nextHop, e.namespaceAddress[..n], "")
            && |edge.vppInterface| <= (if |e.vppInterface| >= MAX_ID_LEN then |e.vppInterface| else MAX_ID_LEN - 1)
            && edge == e.(vppInterface := edge.vppInterface, nextHop := edge.nextHop)
  {
    CidrIsCut(e.namespaceAddress, n);
  }
}
