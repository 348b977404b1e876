/** Installing and removing a path through the VPP message API (src/vpp_api_adapter.c): sub-interfaces for
    the VLAN, then routes, each call able to fail, and an undo in reverse order when one does. */
module VppApi {
  import opened Model
  import opened Text

  /** What identifies a route in a forwarding table. */
  datatype FibEntry = FibEntry(nodeId: Id, tableId: int, prefix: Id, nextHop: Id, interfaceName: Id)

  datatype SubInterface = SubInterface(nodeId: Id, vppInterface: Id, vlan: int)

  /** One call into the backend, with its result. */
  datatype Op =
    | RouteAdded(route: Route, ok: bool)
    | RouteRemoved(route: Route, ok: bool)
    | VlanCreated(edge: VppEdge, vlan: int, ok: bool)
    | VlanRemoved(edge: VppEdge, vlan: int, ok: bool)
    | TableSet(edge: VppEdge, vlan: int, table: int, ok: bool)
    | VrfEnsured(table: int, ok: bool)

  /** The optional callbacks of `en_vpp_api_message_ops_t`. */
  datatype Callbacks = Callbacks(
    addRoute: bool,
    removeRoute: bool,
    createVlan: bool,
    removeVlan: bool,
    setTable: bool,
    ensureVrf: bool)

  function FibOf(r: Route): FibEntry {
    FibEntry(r.nodeId, r.tableId, r.destinationPrefix, r.nextHop, r.interfaceName)
  }

  function SubOf(edge: VppEdge, vlan: int): SubInterface {
    SubInterface(edge.nodeId, edge.vppInterface, vlan)
  }

  class Backend {
    const callbacks: Callbacks
    /** Removal calls always succeed. */
    const reliable: bool
    /** Additions always succeed too. */
    const flawless: bool
    ghost var fib: set<FibEntry>
    ghost var subInterfaces: set<SubInterface>
    ghost var bindings: map<SubInterface, int>
    ghost var trace: seq<Op>

    constructor (callbacks: Callbacks, reliable: bool, flawless: bool)
      ensures this.callbacks == callbacks && this.reliable == reliable && this.flawless == flawless
      ensures fib == {} && subInterfaces == {} && bindings == map[] && trace == []
    {
      this.callbacks, this.reliable, this.flawless := callbacks, reliable, flawless;
      fib, subInterfaces, bindings, trace := {}, {}, map[], [];
    }

    method AddRoute(r: Route) returns (err: ErrorCode)
      modifies this`fib, this`trace
      ensures trace == old(trace) + [RouteAdded(r, err == ErrNone)]
      ensures fib == if err == ErrNone then old(fib) + {FibOf(r)} else old(fib)
      ensures flawless ==> err == ErrNone
    {
      err := ErrNone;
      if !flawless { err := *; }
      if err == ErrNone { fib := fib + {FibOf(r)}; }
      trace := trace + [RouteAdded(r, err == ErrNone)];
    }

    method RemoveRoute(r: Route) returns (err: ErrorCode)
      modifies this`fib, this`trace
      ensures trace == old(trace) + [RouteRemoved(r, err == ErrNone)]
      ensures fib == if err == ErrNone then old(fib) - {FibOf(r)} else old(fib)
      ensures reliable ==> err == ErrNone
    {
      err := ErrNone;
      if !reliable { err := *; }
      if err == ErrNone { fib := fib - {FibOf(r)}; }
      trace := trace + [RouteRemoved(r, err == ErrNone)];
    }

    method CreateVlan(edge: VppEdge, vlan: int) returns (err: ErrorCode)
      modifies this`subInterfaces, this`trace
      ensures trace == old(trace) + [VlanCreated(edge, vlan, err == ErrNone)]
      ensures subInterfaces == if err == ErrNone then old(subInterfaces) + {SubOf(edge, vlan)} else old(subInterfaces)
      ensures flawless ==> err == ErrNone
    {
      err := ErrNone;
      if !flawless { err := *; }
      if err == ErrNone { subInterfaces := subInterfaces + {SubOf(edge, vlan)}; }
      trace := trace + [VlanCreated(edge, vlan, err == ErrNone)];
    }

    /** A removed sub-interface takes its table binding with it. */
    method RemoveVlan(edge: VppEdge, vlan: int) returns (err: ErrorCode)
      modifies this`subInterfaces, this`bindings, this`trace
      ensures trace == old(trace) + [VlanRemoved(edge, vlan, err == ErrNone)]
      ensures subInterfaces == if err == ErrNone then old(subInterfaces) - {SubOf(edge, vlan)} else old(subInterfaces)
      ensures bindings == if err == ErrNone then old(bindings) - {SubOf(edge, vlan)} else old(bindings)
      ensures reliable ==> err == ErrNone
    {
      err := ErrNone;
      if !reliable { err := *; }
      if err == ErrNone {
        subInterfaces := subInterfaces - {SubOf(edge, vlan)};
        bindings := bindings - {SubOf(edge, vlan)};
      }
      trace := trace + [VlanRemoved(edge, vlan, err == ErrNone)];
    }

    method SetTable(edge: VppEdge, vlan: int, table: int) returns (err: ErrorCode)
      modifies this`bindings, this`trace
      ensures trace == old(trace) + [TableSet(edge, vlan, table, err == ErrNone)]
      ensures bindings == if err == ErrNone then old(bindings)[SubOf(edge, vlan) := table] else old(bindings)
      ensures flawless ==> err == ErrNone
    {
      err := ErrNone;
      if !flawless { err := *; }
      if err == ErrNone { bindings := bindings[SubOf(edge, vlan) := table]; }
      trace := trace + [TableSet(edge, vlan, table, err == ErrNone)];
    }

    method EnsureVrf(table: int) returns (err: ErrorCode)
      modifies this`trace
      ensures trace == old(trace) + [VrfEnsured(table, err == ErrNone)]
      ensures flawless ==> err == ErrNone
    {
      err := ErrNone;
      if !flawless { err := *; }
      trace := trace + [VrfEnsured(table, err == ErrNone)];
    }
  }

  // ----- reading the path -----

  predicate PathContainsNode(path: Path, node: Id) {
    || path.source == node
    || path.destination == node
    || node in path.waypoints
    || exists i :: 0 <= i < |path.segments| && (path.segments[i].fromNode == node || path.segments[i].toNode == node)
  }

  predicate EdgeAllowsVlan(edge: VppEdge, vlan: int) {
    |edge.allowedVlans| == 0 || vlan in edge.allowedVlans
  }

  predicate EdgeMatchesRoute(edge: VppEdge, route: Route) {
    && edge.nodeId == route.nodeId
    && (route.interfaceName == "" || route.interfaceName == edge.vppInterface || route.interfaceName == edge.hostInterface)
  }

  const CONFLICT := -2
  const UNSET := -1

  /** The one table the routes of a node ask for: `UNSET` if none does, `CONFLICT` if two differ. */
  function TableForNode(routes: seq<Route>, node: Id): int {
    if |routes| == 0 then UNSET
    else
      var rest, last := TableForNode(routes[..|routes| - 1], node), routes[|routes| - 1];
      if rest == CONFLICT then CONFLICT
      else if last.nodeId != node || last.tableId < 0 then rest
      else if rest != UNSET && rest != last.tableId then CONFLICT
      else last.tableId
  }

  /** `r` asks for a table at `node`. */
  predicate Asks(r: Route, node: Id) { r.nodeId == node && r.tableId >= 0 }

  lemma {:induction false} TableForNodeIsAgreed(routes: seq<Route>, node: Id)
    ensures TableForNode(routes, node) >= CONFLICT
    ensures TableForNode(routes, node) == UNSET <==> forall i :: 0 <= i < |routes| ==> !Asks(routes[i], node)
    ensures TableForNode(routes, node) == CONFLICT <==>
              exists i, j :: 0 <= i < |routes| && 0 <= j < |routes| && Asks(routes[i], node) && Asks(routes[j], node)
                && routes[i].tableId != routes[j].tableId
    ensures TableForNode(routes, node) >= 0 ==>
              forall i :: 0 <= i < |routes| && Asks(routes[i], node) ==> routes[i].tableId == TableForNode(routes, node)
  {
    if |routes| > 0 {
      var n := |routes| - 1;
      var before, last := routes[..n], routes[n];
      TableForNodeIsAgreed(before, node);
      assert forall i :: 0 <= i < n ==> before[i] == routes[i];
      if TableForNode(before, node) == CONFLICT {
        var i, j :| 0 <= i < n && 0 <= j < n && Asks(before[i], node) && Asks(before[j], node) && before[i].tableId != before[j].tableId;
        assert routes[i] == before[i] && routes[j] == before[j];
      } else if Asks(last, node) && TableForNode(before, node) != UNSET && TableForNode(before, node) != last.tableId {
        var i :| 0 <= i < n && Asks(before[i], node);
        assert routes[i] == before[i] && routes[i].tableId != routes[n].tableId;
      }
    }
  }

  /** The routes to install: those listed, or one made up from the path. */
  function EffectiveRoutes(path: Path): (r: seq<Route>)
    ensures |r| > 0
  {
    if |path.routes| > 0 then path.routes
    else [Route(path.pathId, path.source, path.routeDestinationPrefix, path.routeNextHop, "", -1, 0)]
  }

  predicate ValidRouteOperation(r: Route) {
    && (r.routeId == "" || IsToken(r.routeId))
    && (r.nodeId == "" || IsToken(r.nodeId))
    && IsToken(r.destinationPrefix) && IsToken(r.nextHop)
    && (r.interfaceName == "" || IsToken(r.interfaceName))
    && r.tableId >= -1
  }

  /** The first route with a fault decides the error. */
  function CheckRoutes(routes: seq<Route>, edges: seq<VppEdge>): ErrorCode {
    if |routes| == 0 then ErrNone
    else if !ValidRouteOperation(routes[0]) then ErrInvalidArgument
    else if routes[0].interfaceName != "" && !(exists e :: 0 <= e < |edges| && EdgeMatchesRoute(edges[e], routes[0])) then ErrNotFound
    else CheckRoutes(routes[1..], edges)
  }

  /** The checks made before the first call. */
  function Precheck(b: Backend, path: Path, traffic: Traffic, edges: seq<VppEdge>, remove: bool): ErrorCode {
    if |edges| > MAX_VPP_EDGES || !b.callbacks.removeRoute || (!remove && !b.callbacks.addRoute) then ErrInvalidArgument
    else if |path.routes| > MAX_ROUTES || (traffic.vlan.Some? && !(0 <= traffic.vlan.value <= 4095)) then ErrInvalidArgument
    else if !remove && !b.callbacks.ensureVrf && exists i :: 0 <= i < |path.routes| && path.routes[i].tableId > 0 then ErrInvalidArgument
    else if traffic.vlan.Some? && (!b.callbacks.removeVlan || (!remove && !b.callbacks.createVlan)) then ErrInvalidArgument
    else if traffic.vlan.Some? && !remove && exists e :: 0 <= e < |edges| && TableUnusable(b, path, edges[e]) then ErrInvalidArgument
    else if |path.routes| == 0 then
      if ValidRouteOperation(EffectiveRoutes(path)[0]) then ErrNone else ErrInvalidArgument
    else CheckRoutes(path.routes, edges)
  }

  predicate TableUnusable(b: Backend, path: Path, edge: VppEdge) {
    PathContainsNode(path, edge.nodeId) &&
    var table := TableForNode(path.routes, edge.nodeId);
    table < UNSET || (table > 0 && !b.callbacks.setTable)
  }

  // ----- undoing -----

  /** The call that takes back a successful addition. */
  function Inverse(op: Op): seq<Op> {
    match op
    case RouteAdded(r, ok) => if ok then [RouteRemoved(r, true)] else []
    case VlanCreated(e, v, ok) => if ok then [VlanRemoved(e, v, true)] else []
    case _ => []
  }

  /** What takes back the successful additions of a trace, last first. */
  function Undo(trace: seq<Op>): seq<Op> {
    if |trace| == 0 then [] else Inverse(trace[|trace| - 1]) + Undo(trace[..|trace| - 1])
  }

  lemma UndoStep(trace: seq<Op>, op: Op)
    ensures Undo(trace + [op]) == Inverse(op) + Undo(trace)
  {
    assert (trace + [op])[..|trace|] == trace;
  }

  function RouteUndos(routes: seq<Route>): seq<Op> {
    if |routes| == 0 then [] else [RouteRemoved(routes[|routes| - 1], true)] + RouteUndos(routes[..|routes| - 1])
  }

  function VlanUndos(edges: seq<VppEdge>, vlan: int): seq<Op> {
    if |edges| == 0 then [] else [VlanRemoved(edges[|edges| - 1], vlan, true)] + VlanUndos(edges[..|edges| - 1], vlan)
  }

  lemma RouteUndosStep(routes: seq<Route>, r: Route)
    ensures RouteUndos(routes + [r]) == [RouteRemoved(r, true)] + RouteUndos(routes)
  {
    assert (routes + [r])[..|routes|] == routes;
  }

  lemma VlanUndosStep(edges: seq<VppEdge>, e: VppEdge, vlan: int)
    ensures VlanUndos(edges + [e], vlan) == [VlanRemoved(e, vlan, true)] + VlanUndos(edges, vlan)
  {
    assert (edges + [e])[..|edges|] == edges;
  }

  ghost function Fibs(routes: seq<Route>): set<FibEntry> {
    set i | 0 <= i < |routes| :: FibOf(routes[i])
  }

  ghost function Subs(edges: seq<VppEdge>, vlan: int): set<SubInterface> {
    set i | 0 <= i < |edges| :: SubOf(edges[i], vlan)
  }

  lemma FibsStep(routes: seq<Route>, n: nat)
    requires n < |routes|
    ensures Fibs(routes[..n + 1]) == Fibs(routes[..n]) + {FibOf(routes[n])}
  {
    assert routes[..n + 1] == routes[..n] + [routes[n]];
    FibsAppend(routes[..n], routes[n]);
  }

  lemma FibsAppend(routes: seq<Route>, r: Route)
    ensures Fibs(routes + [r]) == Fibs(routes) + {FibOf(r)}
  {
    assert forall i :: 0 <= i < |routes| ==> (routes + [r])[i] == routes[i];
    assert (routes + [r])[|routes|] == r;
    forall x | x in Fibs(routes) ensures x in Fibs(routes + [r]) {
      var i :| 0 <= i < |routes| && x == FibOf(routes[i]);
      assert (routes + [r])[i] == routes[i];
    }
  }

  lemma SubsAppend(edges: seq<VppEdge>, e: VppEdge, vlan: int)
    ensures Subs(edges + [e], vlan) == Subs(edges, vlan) + {SubOf(e, vlan)}
  {
    assert (edges + [e])[|edges|] == e;
    forall x | x in Subs(edges, vlan) ensures x in Subs(edges + [e], vlan) {
      var i :| 0 <= i < |edges| && x == SubOf(edges[i], vlan);
      assert (edges + [e])[i] == edges[i];
    }
  }

  method RollbackRoutes(b: Backend, routes: seq<Route>)
    modifies b`fib, b`trace
    ensures b.reliable ==> b.fib == old(b.fib) - Fibs(routes) && b.trace == old(b.trace) + RouteUndos(routes)
  {
    var i := |routes|;
    assert routes[..i] == routes;
    while i > 0
      invariant 0 <= i <= |routes|
      invariant b.reliable ==> b.fib - Fibs(routes[..i]) == old(b.fib) - Fibs(routes)
      invariant b.reliable ==> b.trace + RouteUndos(routes[..i]) == old(b.trace) + RouteUndos(routes)
    {
      i := i - 1;
      FibsStep(routes, i);
      assert routes[..i + 1][..i] == routes[..i];
      var ignored := b.RemoveRoute(routes[i]);
    }
    assert Fibs(routes[..0]) == {};
  }

  method RollbackVlans(b: Backend, edges: seq<VppEdge>, vlan: int)
    modifies b`subInterfaces, b`bindings, b`trace
    ensures b.reliable ==>
              && b.subInterfaces == old(b.subInterfaces) - Subs(edges, vlan)
              && b.bindings == old(b.bindings) - Subs(edges, vlan)
              && b.trace == old(b.trace) + VlanUndos(edges, vlan)
  {
    var i := |edges|;
    assert edges[..i] == edges;
    while i > 0
      invariant 0 <= i <= |edges|
      invariant b.reliable ==> b.subInterfaces - Subs(edges[..i], vlan) == old(b.subInterfaces) - Subs(edges, vlan)
      invariant b.reliable ==> b.bindings - Subs(edges[..i], vlan) == old(b.bindings) - Subs(edges, vlan)
      invariant b.reliable ==> b.trace + VlanUndos(edges[..i], vlan) == old(b.trace) + VlanUndos(edges, vlan)
    {
      i := i - 1;
      assert edges[..i + 1] == edges[..i] + [edges[i]];
      SubsAppend(edges[..i], edges[i], vlan);
      assert edges[..i + 1][..i] == edges[..i];
      var ignored := b.RemoveVlan(edges[i], vlan);
    }
    assert Subs(edges[..0], vlan) == {};
  }

  // ----- installing -----

  /** The edges the path runs over, in order. */
  function PathEdges(path: Path, edges: seq<VppEdge>): (r: seq<VppEdge>)
    ensures forall i :: 0 <= i < |r| ==> PathContainsNode(path, r[i].nodeId)
    ensures forall i :: 0 <= i < |edges| && PathContainsNode(path, edges[i].nodeId) ==> edges[i] in r
  {
    if |edges| == 0 then []
    else
      var rest, last := PathEdges(path, edges[..|edges| - 1]), edges[|edges| - 1];
      if PathContainsNode(path, last.nodeId) then rest + [last] else rest
  }

  lemma PathEdgesStep(path: Path, edges: seq<VppEdge>, i: nat)
    requires i < |edges|
    ensures PathEdges(path, edges[..i + 1]) ==
            if PathContainsNode(path, edges[i].nodeId) then PathEdges(path, edges[..i]) + [edges[i]] else PathEdges(path, edges[..i])
  {
    assert edges[..i + 1][..i] == edges[..i];
  }

  predicate Disallows(path: Path, edge: VppEdge, vlan: Option<int>) {
    PathContainsNode(path, edge.nodeId) && vlan.Some? && !EdgeAllowsVlan(edge, vlan.value)
  }

  /** How many edges come before the first path edge that does not allow the VLAN; all of them if every
      path edge allows it. */
  function Allowing(path: Path, edges: seq<VppEdge>, vlan: Option<int>): (n: nat)
    ensures n <= |edges|
    ensures n < |edges| ==> Disallows(path, edges[n], vlan)
    ensures forall i :: 0 <= i < n ==> !Disallows(path, edges[i], vlan)
  {
    if |edges| == 0 || Disallows(path, edges[0], vlan) then 0
    else
      var n := Allowing(path, edges[1..], vlan);
      assert forall i :: 0 < i < n + 1 ==> edges[i] == edges[1..][i - 1];
      n + 1
  }

  /** The VLAN tag as an integer; irrelevant where there is none. */
  function Tag(vlan: Option<int>): int {
    if vlan.Some? then vlan.value else -1
  }

  /** `fwd` is what was called to create the sub-interfaces of `created`. */
  ghost predicate Builds(fwd: seq<Op>, created: seq<VppEdge>, tag: int) {
    && Undo(fwd) == VlanUndos(created, tag)
    && forall i :: 0 <= i < |fwd| ==> fwd[i].VlanCreated?
  }

  lemma BuildsStep(fwd: seq<Op>, created: seq<VppEdge>, tag: int, edge: VppEdge)
    requires Builds(fwd, created, tag)
    ensures Builds(fwd + [VlanCreated(edge, tag, true)], created + [edge], tag)
    ensures Builds(fwd + [VlanCreated(edge, tag, false)], created, tag)
    ensures Subs(created + [edge], tag) == Subs(created, tag) + {SubOf(edge, tag)}
  {
    UndoStep(fwd, VlanCreated(edge, tag, true));
    UndoStep(fwd, VlanCreated(edge, tag, false));
    VlanUndosStep(created, edge, tag);
    SubsAppend(created, edge, tag);
  }

  /** Every call of the trace succeeded. */
  ghost predicate AllOk(trace: seq<Op>) {
    forall i :: 0 <= i < |trace| ==> trace[i].ok
  }

  /** Checks the VLAN on every edge of the path and, when installing, creates its sub-interfaces. A failed
      creation is undone; a forbidden VLAN is not, and leaves what was created before it `stranded`. */
  method CreateVlans(b: Backend, path: Path, edges: seq<VppEdge>, vlan: Option<int>, remove: bool)
    returns (err: ErrorCode, created: seq<VppEdge>, ghost fwd: seq<Op>, ghost stranded: bool)
    modifies b`subInterfaces, b`bindings, b`trace
    ensures Builds(fwd, created, Tag(vlan))
    ensures stranded ==> err == ErrInvalidArgument && Allowing(path, edges, vlan) < |edges| && AllOk(fwd)
    ensures err == ErrNone ==> Allowing(path, edges, vlan) == |edges| && !stranded
    ensures err == ErrNone || stranded ==>
              && created == (if remove || vlan.None? then [] else PathEdges(path, edges[..Allowing(path, edges, vlan)]))
              && b.subInterfaces == old(b.subInterfaces) + Subs(created, Tag(vlan))
              && b.bindings == old(b.bindings)
              && b.trace == old(b.trace) + fwd
    ensures b.flawless && err != ErrNone ==> stranded
    ensures err != ErrNone && !stranded ==>
              && Subs(created, Tag(vlan)) <= Subs(PathEdges(path, edges), Tag(vlan))
              && !AllOk(fwd)
              && (b.reliable ==>
                    && b.subInterfaces == old(b.subInterfaces) + Subs(created, Tag(vlan)) - Subs(created, Tag(vlan))
                    && b.bindings == old(b.bindings) - Subs(created, Tag(vlan))
                    && b.trace == old(b.trace) + fwd + Undo(fwd))
    ensures remove || vlan.None? ==> created == [] && fwd == []
  {
    hide Allowing, Undo, VlanUndos, Subs, PathEdges, PathContainsNode;
    created, fwd, stranded := [], [], false;
    BuildsNothing(path, edges, Tag(vlan));
    var i := 0;
    while i < |edges|
      invariant 0 <= i <= |edges| && !stranded
      invariant i <= Allowing(path, edges, vlan)
      invariant created == if remove || vlan.None? then [] else PathEdges(path, edges[..i])
      invariant b.subInterfaces == old(b.subInterfaces) + Subs(created, Tag(vlan))
      invariant b.bindings == old(b.bindings)
      invariant b.trace == old(b.trace) + fwd
      invariant Builds(fwd, created, Tag(vlan)) && AllOk(fwd)
      invariant remove || vlan.None? ==> fwd == []
    {
      PathEdgesStep(path, edges, i);
      AllowingStep(path, edges, vlan, i);
      if PathContainsNode(path, edges[i].nodeId) {
        if vlan.Some? && !EdgeAllowsVlan(edges[i], vlan.value) {
          stranded := true;
          return ErrInvalidArgument, created, fwd, stranded;
        }
        if !remove && vlan.Some? {
          BuildsStep(fwd, created, vlan.value, edges[i]);
          err := b.CreateVlan(edges[i], vlan.value);
          fwd := fwd + [VlanCreated(edges[i], vlan.value, err == ErrNone)];
          if err != ErrNone {
            assert !fwd[|fwd| - 1].ok;
            CreatedOnPath(path, edges, i, vlan.value);
            RollbackVlans(b, created, vlan.value);
            return;
          }
          created := created + [edges[i]];
        }
      }
      i := i + 1;
    }
    assert edges[..i] == edges;
    err := ErrNone;
  }

  lemma BuildsNothing(path: Path, edges: seq<VppEdge>, tag: int)
    ensures Builds([], [], tag) && Subs([], tag) == {} && PathEdges(path, edges[..0]) == []
  {
  }

  lemma AllowingStep(path: Path, edges: seq<VppEdge>, vlan: Option<int>, i: nat)
    requires i < |edges| && i <= Allowing(path, edges, vlan)
    ensures Disallows(path, edges[i], vlan) <==> i == Allowing(path, edges, vlan)
  {
  }

  lemma {:induction false} CreatedOnPath(path: Path, edges: seq<VppEdge>, i: nat, tag: int)
    requires i <= |edges|
    ensures Subs(PathEdges(path, edges[..i]), tag) <= Subs(PathEdges(path, edges), tag)
    decreases |edges| - i
  {
    if i < |edges| {
      CreatedOnPath(path, edges, i + 1, tag);
      PathEdgesStep(path, edges, i);
      if PathContainsNode(path, edges[i].nodeId) { SubsAppend(PathEdges(path, edges[..i]), edges[i], tag); }
    } else {
      assert edges[..i] == edges;
    }
  }

  /** An earlier route already had its table made. */
  predicate TablePrepared(routes: seq<Route>, i: nat)
    requires i < |routes|
  {
    exists j :: 0 <= j < i && routes[j].tableId == routes[i].tableId
  }

  /** An earlier route for the same node and interface already bound the VLAN sub-interface to a table. */
  predicate TableAlreadySet(routes: seq<Route>, i: nat)
    requires i < |routes|
  {
    exists j :: 0 <= j < i && routes[j].nodeId == routes[i].nodeId && routes[j].tableId >= 0 &&
      (routes[i].interfaceName == "" || (routes[j].interfaceName != "" && routes[j].interfaceName == routes[i].interfaceName))
  }

  /** The first edge a route may leave through. */
  function FirstMatch(edges: seq<VppEdge>, route: Route): (r: Option<nat>)
    ensures r.Some? ==> r.value < |edges| && EdgeMatchesRoute(edges[r.value], route)
  {
    if |edges| == 0 then None
    else if EdgeMatchesRoute(edges[0], route) then Some(0)
    else
      var r := FirstMatch(edges[1..], route);
      if r.Some? then Some(r.value + 1) else None
  }

  /** The calls `fwd` created the sub-interfaces of `created` and then added the routes `added`. */
  ghost predicate Installs(fwd: seq<Op>, created: seq<VppEdge>, tag: int, added: seq<Route>) {
    Undo(fwd) == RouteUndos(added) + VlanUndos(created, tag)
  }

  lemma InstallsStep(fwd: seq<Op>, created: seq<VppEdge>, tag: int, added: seq<Route>, r: Route)
    requires Installs(fwd, created, tag, added)
    ensures Installs(fwd + [RouteAdded(r, true)], created, tag, added + [r])
    ensures Installs(fwd + [RouteAdded(r, false)], created, tag, added)
    ensures Fibs(added + [r]) == Fibs(added) + {FibOf(r)}
  {
    hide Undo, RouteUndos, VlanUndos, Fibs;
    UndoStep(fwd, RouteAdded(r, true));
    UndoStep(fwd, RouteAdded(r, false));
    RouteUndosStep(added, r);
    FibsAppend(added, r);
  }

  lemma InstallsOther(fwd: seq<Op>, created: seq<VppEdge>, tag: int, added: seq<Route>, op: Op)
    requires Installs(fwd, created, tag, added) && (op.TableSet? || op.VrfEnsured?)
    ensures Installs(fwd + [op], created, tag, added)
  {
    UndoStep(fwd, op);
  }

  // ----- tables -----

  /** No route was added to a table, and no sub-interface bound to one, that had not been made before. */
  ghost predicate TablesFirst(fwd: seq<Op>) {
    forall k :: 0 <= k < |fwd| && NeedsTable(fwd[k]) > 0 ==> VrfEnsured(NeedsTable(fwd[k]), true) in fwd[..k]
  }

  /** The table a call relies on; 0 if on none but the default one. */
  function NeedsTable(op: Op): int {
    match op
    case RouteAdded(r, _) => r.tableId
    case TableSet(_, _, table, _) => table
    case _ => 0
  }

  lemma TablesFirstStep(fwd: seq<Op>, op: Op)
    requires TablesFirst(fwd) && (NeedsTable(op) > 0 ==> VrfEnsured(NeedsTable(op), true) in fwd)
    ensures TablesFirst(fwd + [op])
  {
    var all := fwd + [op];
    forall k | 0 <= k < |all| && NeedsTable(all[k]) > 0 ensures VrfEnsured(NeedsTable(all[k]), true) in all[..k] {
      if k < |fwd| { assert all[..k] == fwd[..k]; } else { assert all[..k] == fwd; }
    }
  }

  lemma NoTablesYet(fwd: seq<Op>)
    requires forall k :: 0 <= k < |fwd| ==> fwd[k].VlanCreated?
    ensures TablesFirst(fwd)
  {
  }

  /** The tables of the first `n` routes have been made. */
  ghost predicate TablesMade(routes: seq<Route>, n: nat, fwd: seq<Op>)
    requires n <= |routes|
  {
    forall k :: 0 <= k < n && routes[k].tableId > 0 ==> VrfEnsured(routes[k].tableId, true) in fwd
  }

  lemma TablesMadeStep(routes: seq<Route>, n: nat, fwd: seq<Op>, longer: seq<Op>)
    requires n < |routes| && TablesMade(routes, n, fwd) && fwd <= longer
    requires routes[n].tableId > 0 && !TablePrepared(routes, n) ==> VrfEnsured(routes[n].tableId, true) in longer
    ensures TablesMade(routes, n + 1, longer)
  {
  }

  /** The route leaves through a sub-interface that looks its table up. */
  ghost predicate Reached(route: Route, edges: seq<VppEdge>, tag: int, bindings: map<SubInterface, int>) {
    exists e :: 0 <= e < |edges| && EdgeMatchesRoute(edges[e], route) &&
      SubOf(edges[e], tag) in bindings && bindings[SubOf(edges[e], tag)] == route.tableId
  }

  ghost predicate HasEdge(route: Route, edges: seq<VppEdge>) {
    exists e :: 0 <= e < |edges| && EdgeMatchesRoute(edges[e], route)
  }

  /** The first `n` routes to a table, at nodes that agree on it and with an edge to leave through, are reached. */
  ghost predicate AllReached(routes: seq<Route>, n: nat, edges: seq<VppEdge>, tag: int, bindings: map<SubInterface, int>)
    requires n <= |routes|
  {
    forall k :: 0 <= k < n && routes[k].tableId > 0 && TableForNode(routes, routes[k].nodeId) >= 0 && HasEdge(routes[k], edges) ==>
      Reached(routes[k], edges, tag, bindings)
  }

  /** The binding that is made for route `n`, if any. */
  function Binding(routes: seq<Route>, n: nat, edges: seq<VppEdge>, vlan: Option<int>, offered: bool): Option<VppEdge>
    requires n < |routes|
  {
    var e := FirstMatch(edges, routes[n]);
    if vlan.Some? && routes[n].tableId > 0 && offered && !TableAlreadySet(routes, n) && e.Some? then Some(edges[e.value]) else None
  }

  function Bound(bindings: map<SubInterface, int>, edge: Option<VppEdge>, tag: int, table: int): map<SubInterface, int> {
    if edge.Some? then bindings[SubOf(edge.value, tag) := table] else bindings
  }

  lemma {:induction false} FirstMatchFinds(edges: seq<VppEdge>, route: Route)
    ensures HasEdge(route, edges) ==> FirstMatch(edges, route).Some?
  {
    if |edges| > 0 && !EdgeMatchesRoute(edges[0], route) {
      FirstMatchFinds(edges[1..], route);
      if HasEdge(route, edges) {
        var e :| 0 <= e < |edges| && EdgeMatchesRoute(edges[e], route);
        assert edges[1..][e - 1] == edges[e];
      }
    }
  }

  /** A route that names an interface has an edge with it, as is checked before the first call. */
  ghost predicate EdgesNamed(routes: seq<Route>, edges: seq<VppEdge>) {
    forall k :: 0 <= k < |routes| && routes[k].interfaceName != "" ==> HasEdge(routes[k], edges)
  }

  lemma {:induction false} CheckedEdgesNamed(routes: seq<Route>, edges: seq<VppEdge>)
    requires CheckRoutes(routes, edges) == ErrNone
    ensures EdgesNamed(routes, edges)
    ensures forall k :: 0 <= k < |routes| ==> ValidRouteOperation(routes[k])
  {
    if |routes| > 0 {
      CheckedEdgesNamed(routes[1..], edges);
      assert forall k :: 0 < k < |routes| ==> routes[k] == routes[1..][k - 1];
    }
  }

  /** Binding one more sub-interface reaches one more route and loses none. */
  lemma ReachedStep(routes: seq<Route>, n: nat, edges: seq<VppEdge>, vlan: int, bindings: map<SubInterface, int>)
    requires n < |routes| && AllReached(routes, n, edges, vlan, bindings) && EdgesNamed(routes, edges)
    ensures AllReached(routes, n + 1, edges, vlan, Bound(bindings, Binding(routes, n, edges, Some(vlan), true), vlan, routes[n].tableId))
  {
    hide TableForNode, FirstMatch;
    var edge := Binding(routes, n, edges, Some(vlan), true);
    var after := Bound(bindings, edge, vlan, routes[n].tableId);
    forall k | 0 <= k < n + 1 && routes[k].tableId > 0 && TableForNode(routes, routes[k].nodeId) >= 0 && HasEdge(routes[k], edges)
      ensures Reached(routes[k], edges, vlan, after)
    {
      TableForNodeIsAgreed(routes, routes[k].nodeId);
      if k < n {
        StillReached(routes, k, n, edges, vlan, bindings, edge);
      } else if edge.Some? {
        assert edges[FirstMatch(edges, routes[n]).value] == edge.value;
      } else {
        FirstMatchFinds(edges, routes[n]);
        var p :| 0 <= p < n && routes[p].nodeId == routes[n].nodeId && routes[p].tableId >= 0 &&
          (routes[n].interfaceName == "" || (routes[p].interfaceName != "" && routes[p].interfaceName == routes[n].interfaceName));
        assert Asks(routes[p], routes[k].nodeId) && Asks(routes[n], routes[k].nodeId);
        ReachedLike(routes[p], routes[n], edges, vlan, bindings);
      }
    }
  }

  lemma StillReached(routes: seq<Route>, k: nat, n: nat, edges: seq<VppEdge>, vlan: int, bindings: map<SubInterface, int>, edge: Option<VppEdge>)
    requires k < n < |routes| && routes[k].tableId > 0 && TableForNode(routes, routes[k].nodeId) >= 0
    requires Reached(routes[k], edges, vlan, bindings)
    requires edge.Some? ==> edge.value.nodeId == routes[n].nodeId && routes[n].tableId >= 0
    ensures Reached(routes[k], edges, vlan, Bound(bindings, edge, vlan, routes[n].tableId))
  {
    TableForNodeIsAgreed(routes, routes[k].nodeId);
    var e :| 0 <= e < |edges| && EdgeMatchesRoute(edges[e], routes[k]) && SubOf(edges[e], vlan) in bindings &&
      bindings[SubOf(edges[e], vlan)] == routes[k].tableId;
    if edge.Some? && SubOf(edge.value, vlan) == SubOf(edges[e], vlan) {
      assert Asks(routes[n], routes[k].nodeId) && Asks(routes[k], routes[k].nodeId);
    }
  }

  /** A route of the same node and table that is no pickier about its interface is reached with it. */
  lemma ReachedLike(p: Route, r: Route, edges: seq<VppEdge>, vlan: int, bindings: map<SubInterface, int>)
    requires p.nodeId == r.nodeId && p.tableId == r.tableId && (r.interfaceName == "" || r.interfaceName == p.interfaceName)
    ensures HasEdge(r, edges) && r.interfaceName == p.interfaceName ==> HasEdge(p, edges)
    ensures Reached(p, edges, vlan, bindings) ==> Reached(r, edges, vlan, bindings)
  {
  }

  /** Every binding is as before, or was made for a route to that table through that edge. */
  ghost predicate OnlyForRoutes(before: map<SubInterface, int>, after: map<SubInterface, int>, routes: seq<Route>, edges: seq<VppEdge>, tag: int) {
    && before.Keys <= after.Keys
    && forall s :: s in after ==> (s in before && after[s] == before[s]) || ForRoute(s, after[s], routes, edges, tag)
  }

  ghost predicate ForRoute(s: SubInterface, table: int, routes: seq<Route>, edges: seq<VppEdge>, tag: int) {
    exists k, e :: 0 <= k < |routes| && 0 <= e < |edges| && EdgeMatchesRoute(edges[e], routes[k]) &&
      s == SubOf(edges[e], tag) && table == routes[k].tableId && table > 0
  }

  lemma OnlyForRoutesStep(before: map<SubInterface, int>, now: map<SubInterface, int>, routes: seq<Route>, n: nat, edges: seq<VppEdge>,
                          vlan: Option<int>, offered: bool)
    requires n < |routes| && OnlyForRoutes(before, now, routes, edges, Tag(vlan))
    ensures OnlyForRoutes(before, Bound(now, Binding(routes, n, edges, vlan, offered), Tag(vlan), routes[n].tableId), routes, edges, Tag(vlan))
  {
    hide FirstMatch, ForRoute, TableAlreadySet;
    var edge := Binding(routes, n, edges, vlan, offered);
    if edge.Some? { MadeForRoute(routes, n, edges, Tag(vlan), edge.value); }
  }

  lemma MadeForRoute(routes: seq<Route>, n: nat, edges: seq<VppEdge>, tag: int, edge: VppEdge)
    requires n < |routes| && routes[n].tableId > 0 && edge in edges && EdgeMatchesRoute(edge, routes[n])
    ensures ForRoute(SubOf(edge, tag), routes[n].tableId, routes, edges, tag)
  {
    var e :| 0 <= e < |edges| && edges[e] == edge;
  }

  /** Tables can be made, or none is asked for. */
  predicate TablesOffered(b: Backend, routes: seq<Route>) {
    b.callbacks.ensureVrf || forall k :: 0 <= k < |routes| ==> routes[k].tableId <= 0
  }

  lemma FailedLast(fwd: seq<Op>)
    requires |fwd| > 0 && !fwd[|fwd| - 1].ok
    ensures !AllOk(fwd)
  {
  }

  lemma MadeIsThere(routes: seq<Route>, i: nat, fwd: seq<Op>, longer: seq<Op>)
    requires i < |routes| && TablesMade(routes, i + 1, fwd) && fwd <= longer
    ensures routes[i].tableId > 0 ==> VrfEnsured(routes[i].tableId, true) in fwd
    ensures TablesMade(routes, i + 1, longer)
  {
  }

  /** Makes the table of a route, unless an earlier route had it made. */
  method MakeTable(b: Backend, routes: seq<Route>, i: nat, ghost tag: int,
                   ghost fwd: seq<Op>, ghost created: seq<VppEdge>, ghost added: seq<Route>)
    returns (err: ErrorCode, ghost fwd': seq<Op>)
    requires i < |routes| && Installs(fwd, created, tag, added)
    requires TablesOffered(b, routes) && TablesFirst(fwd) && TablesMade(routes, i, fwd)
    modifies b`trace
    ensures Installs(fwd', created, tag, added)
    ensures fwd <= fwd' && b.trace == old(b.trace) + fwd'[|fwd|..]
    ensures TablesFirst(fwd') && (if err == ErrNone then TablesMade(routes, i + 1, fwd') else !AllOk(fwd'))
    ensures b.flawless ==> err == ErrNone
  {
    hide Installs, AllOk, TablesFirst, TablesMade, TablePrepared;
    err, fwd' := ErrNone, fwd;
    var table := routes[i].tableId;
    if table > 0 && b.callbacks.ensureVrf && !TablePrepared(routes, i) {
      err := b.EnsureVrf(table);
      InstallsOther(fwd, created, tag, added, VrfEnsured(table, err == ErrNone));
      TablesFirstStep(fwd, VrfEnsured(table, err == ErrNone));
      fwd' := fwd + [VrfEnsured(table, err == ErrNone)];
      if err != ErrNone { FailedLast(fwd'); }
    }
    if err == ErrNone { TablesMadeStep(routes, i, fwd, fwd'); }
  }

  /** Binds the VLAN sub-interface of a route to its table, unless an earlier route had it bound. */
  method BindTable(b: Backend, routes: seq<Route>, i: nat, edges: seq<VppEdge>, vlan: Option<int>,
                   ghost fwd: seq<Op>, ghost created: seq<VppEdge>, ghost added: seq<Route>)
    returns (err: ErrorCode, ghost fwd': seq<Op>)
    requires i < |routes| && Installs(fwd, created, Tag(vlan), added)
    requires TablesFirst(fwd) && TablesMade(routes, i + 1, fwd)
    modifies b`bindings, b`trace
    ensures Installs(fwd', created, Tag(vlan), added)
    ensures fwd <= fwd' && b.trace == old(b.trace) + fwd'[|fwd|..]
    ensures TablesFirst(fwd') && TablesMade(routes, i + 1, fwd') && (err != ErrNone ==> !AllOk(fwd'))
    ensures b.bindings == if err == ErrNone then Bound(old(b.bindings), Binding(routes, i, edges, vlan, b.callbacks.setTable), Tag(vlan), routes[i].tableId)
                          else old(b.bindings)
    ensures b.flawless ==> err == ErrNone
  {
    hide Installs, AllOk, TablesFirst, TablesMade, TableAlreadySet;
    err, fwd' := ErrNone, fwd;
    var table := routes[i].tableId;
    if vlan.Some? && table > 0 && b.callbacks.setTable && !TableAlreadySet(routes, i) {
      var e := FirstMatch(edges, routes[i]);
      if e.Some? {
        err := b.SetTable(edges[e.value], vlan.value, table);
        var op := TableSet(edges[e.value], vlan.value, table, err == ErrNone);
        MadeIsThere(routes, i, fwd, fwd + [op]);
        InstallsOther(fwd, created, Tag(vlan), added, op);
        TablesFirstStep(fwd, op);
        fwd' := fwd + [op];
        if err != ErrNone { FailedLast(fwd'); }
      }
    }
  }

  lemma BindsCreatedOnly(routes: seq<Route>, i: nat, edges: seq<VppEdge>, vlan: Option<int>, offered: bool, created: seq<VppEdge>,
                         bindings: map<SubInterface, int>)
    requires i < |routes|
    requires forall e :: e in edges && e.nodeId == routes[i].nodeId && vlan.Some? ==> SubOf(e, Tag(vlan)) in Subs(created, Tag(vlan))
    ensures Bound(bindings, Binding(routes, i, edges, vlan, offered), Tag(vlan), routes[i].tableId) - Subs(created, Tag(vlan)) ==
            bindings - Subs(created, Tag(vlan))
  {
    hide Subs, FirstMatch, TableAlreadySet;
    var edge := Binding(routes, i, edges, vlan, offered);
    if edge.Some? { assert edge.value in edges; }
  }

  /** Makes the table of a route and binds the VLAN sub-interface to it, where that is still to be done. */
  method PrepareTable(b: Backend, routes: seq<Route>, i: nat, edges: seq<VppEdge>, vlan: Option<int>,
                      ghost fwd: seq<Op>, ghost created: seq<VppEdge>, ghost added: seq<Route>)
    returns (err: ErrorCode, ghost fwd': seq<Op>)
    requires i < |routes| && Installs(fwd, created, Tag(vlan), added)
    requires TablesOffered(b, routes) && TablesFirst(fwd) && TablesMade(routes, i, fwd)
    modifies b`bindings, b`trace
    ensures Installs(fwd', created, Tag(vlan), added)
    ensures fwd <= fwd' && b.trace == old(b.trace) + fwd'[|fwd|..]
    ensures TablesFirst(fwd') && (if err == ErrNone then TablesMade(routes, i + 1, fwd') else !AllOk(fwd'))
    ensures b.bindings == if err == ErrNone then Bound(old(b.bindings), Binding(routes, i, edges, vlan, b.callbacks.setTable), Tag(vlan), routes[i].tableId)
                          else old(b.bindings)
    ensures b.flawless ==> err == ErrNone
  {
    hide Installs, AllOk, TablesFirst, TablesMade, TablesOffered, Binding, Bound;
    err, fwd' := MakeTable(b, routes, i, Tag(vlan), fwd, created, added);
    if err != ErrNone { return; }
    ghost var made := fwd';
    err, fwd' := BindTable(b, routes, i, edges, vlan, made, created, added);
    assert fwd'[|fwd|..] == made[|fwd|..] + fwd'[|made|..];
  }

  /** Undoes an installation: routes last to first, then sub-interfaces last to first. */
  method RollbackInstall(b: Backend, added: seq<Route>, created: seq<VppEdge>, vlan: Option<int>, ghost fwd: seq<Op>)
    requires Installs(fwd, created, Tag(vlan), added)
    requires if vlan.None? then created == [] else vlan.value >= 0 && b.callbacks.removeVlan
    modifies b`fib, b`subInterfaces, b`bindings, b`trace
    ensures b.reliable ==>
              && b.trace == old(b.trace) + Undo(fwd)
              && b.fib == old(b.fib) - Fibs(added)
              && b.subInterfaces == old(b.subInterfaces) - Subs(created, Tag(vlan))
              && b.bindings == old(b.bindings) - Subs(created, Tag(vlan))
  {
    RollbackRoutes(b, added);
    if vlan.Some? && vlan.value >= 0 && b.callbacks.removeVlan {
      RollbackVlans(b, created, vlan.value);
    }
  }

  /** The sub-interfaces that the routes may bind are all among those created. */
  ghost predicate BindsOnlyCreated(routes: seq<Route>, edges: seq<VppEdge>, vlan: Option<int>, created: seq<VppEdge>) {
    forall i, e :: 0 <= i < |routes| && e in edges && e.nodeId == routes[i].nodeId && vlan.Some? ==>
      SubOf(e, Tag(vlan)) in Subs(created, Tag(vlan))
  }

  /** After the first `n` routes: every binding is as before or was made for a route, and, with a VLAN, every
      route to an agreed table is reached. */
  ghost predicate Looked(before: map<SubInterface, int>, after: map<SubInterface, int>, routes: seq<Route>, n: nat, edges: seq<VppEdge>,
                         vlan: Option<int>, offered: bool)
    requires n <= |routes|
  {
    && OnlyForRoutes(before, after, routes, edges, Tag(vlan))
    && (vlan.Some? && offered ==> AllReached(routes, n, edges, vlan.value, after))
    && (vlan.None? ==> after == before)
  }

  lemma NothingLooked(before: map<SubInterface, int>, routes: seq<Route>, edges: seq<VppEdge>, vlan: Option<int>, offered: bool, fwd: seq<Op>)
    ensures Looked(before, before, routes, 0, edges, vlan, offered) && TablesMade(routes, 0, fwd)
  {
  }

  lemma LookedStep(before: map<SubInterface, int>, now: map<SubInterface, int>, routes: seq<Route>, n: nat, edges: seq<VppEdge>,
                   vlan: Option<int>, offered: bool)
    requires n < |routes| && Looked(before, now, routes, n, edges, vlan, offered) && EdgesNamed(routes, edges)
    ensures Looked(before, Bound(now, Binding(routes, n, edges, vlan, offered), Tag(vlan), routes[n].tableId), routes, n + 1, edges, vlan, offered)
  {
    hide AllReached, OnlyForRoutes, EdgesNamed, FirstMatch, TableAlreadySet;
    OnlyForRoutesStep(before, now, routes, n, edges, vlan, offered);
    if vlan.Some? && offered { ReachedStep(routes, n, edges, vlan.value, now); }
  }

  lemma BoundCreated(routes: seq<Route>, i: nat, edges: seq<VppEdge>, vlan: Option<int>, offered: bool, created: seq<VppEdge>,
                     bindings: map<SubInterface, int>)
    requires i < |routes| && BindsOnlyCreated(routes, edges, vlan, created)
    ensures Bound(bindings, Binding(routes, i, edges, vlan, offered), Tag(vlan), routes[i].tableId) - Subs(created, Tag(vlan)) ==
            bindings - Subs(created, Tag(vlan))
  {
    hide Subs, Bound, Binding;
    BindsCreatedOnly(routes, i, edges, vlan, offered, created, bindings);
  }

  /** The route made up for a path without any asks for no table. */
  lemma ImplicitRoute(path: Path)
    ensures |path.routes| == 0 ==> |EffectiveRoutes(path)| == 1 && EffectiveRoutes(path)[0].tableId <= 0
    ensures |path.routes| > 0 ==> EffectiveRoutes(path) == path.routes
  {
  }

  /** The bindings once the table of route `i` is prepared; as they were for a path without routes. */
  function BoundFor(bindings: map<SubInterface, int>, routes: seq<Route>, i: nat, edges: seq<VppEdge>, vlan: Option<int>, offered: bool): map<SubInterface, int> {
    if i < |routes| then Bound(bindings, Binding(routes, i, edges, vlan, offered), Tag(vlan), routes[i].tableId) else bindings
  }

  /** The calls so far installed the first `i` routes. */
  ghost predicate Installing(path: Path, i: nat, fwd: seq<Op>, created: seq<VppEdge>, tag: int)
    requires i <= |EffectiveRoutes(path)|
  {
    && Installs(fwd, created, tag, EffectiveRoutes(path)[..i])
    && TablesFirst(fwd)
    && (|path.routes| > 0 ==> TablesMade(EffectiveRoutes(path), i, fwd))
  }

  lemma InstallingStep(path: Path, i: nat, fwd: seq<Op>, prepared: seq<Op>, created: seq<VppEdge>, tag: int, ok: bool)
    requires i < |EffectiveRoutes(path)| && fwd <= prepared
    requires Installs(prepared, created, tag, EffectiveRoutes(path)[..i]) && TablesFirst(prepared)
    requires |path.routes| > 0 ==> TablesMade(EffectiveRoutes(path), i + 1, prepared)
    ensures var route := EffectiveRoutes(path)[i];
            var longer := prepared + [RouteAdded(route, ok)];
            && (if ok then Installing(path, i + 1, longer, created, tag)
                else Installs(longer, created, tag, EffectiveRoutes(path)[..i]) && TablesFirst(longer) && !AllOk(longer))
            && Fibs(EffectiveRoutes(path)[..i + 1]) == Fibs(EffectiveRoutes(path)[..i]) + {FibOf(route)}
  {
    hide Installs, TablesFirst, TablesMade, Fibs, AllOk, EffectiveRoutes;
    var routes := EffectiveRoutes(path);
    assert routes[..i + 1] == routes[..i] + [routes[i]];
    InstallsStep(prepared, created, tag, routes[..i], routes[i]);
    ImplicitRoute(path);
    if |path.routes| > 0 { MadeIsThere(routes, i, prepared, prepared + [RouteAdded(routes[i], ok)]); }
    TablesFirstStep(prepared, RouteAdded(routes[i], ok));
    if !ok { FailedLast(prepared + [RouteAdded(routes[i], ok)]); }
  }

  /** Prepares the table of one route and adds the route. */
  method InstallRoute(b: Backend, path: Path, i: nat, edges: seq<VppEdge>, vlan: Option<int>, ghost created: seq<VppEdge>, ghost fwd: seq<Op>)
    returns (err: ErrorCode, ghost fwd': seq<Op>)
    requires i < |EffectiveRoutes(path)| && Installing(path, i, fwd, created, Tag(vlan)) && TablesOffered(b, path.routes)
    modifies b`fib, b`bindings, b`trace
    ensures fwd <= fwd' && b.trace == old(b.trace) + fwd'[|fwd|..]
    ensures if err == ErrNone then Installing(path, i + 1, fwd', created, Tag(vlan))
            else Installs(fwd', created, Tag(vlan), EffectiveRoutes(path)[..i]) && TablesFirst(fwd') && !AllOk(fwd')
    ensures b.fib == if err == ErrNone then old(b.fib) + {FibOf(EffectiveRoutes(path)[i])} else old(b.fib)
    ensures b.bindings == BoundFor(old(b.bindings), path.routes, i, edges, vlan, b.callbacks.setTable) ||
            (err != ErrNone && b.bindings == old(b.bindings))
    ensures b.flawless ==> err == ErrNone
  {
    hide Installs, TablesFirst, TablesMade, TablesOffered, AllOk, Binding, Bound, EffectiveRoutes, Fibs;
    ImplicitRoute(path);
    var routes := EffectiveRoutes(path);
    err, fwd' := ErrNone, fwd;
    if |path.routes| > 0 {
      err, fwd' := PrepareTable(b, path.routes, i, edges, vlan, fwd, created, routes[..i]);
      if err != ErrNone { return; }
    }
    ghost var prepared := fwd';
    err := b.AddRoute(routes[i]);
    fwd' := prepared + [RouteAdded(routes[i], err == ErrNone)];
    InstallingStep(path, i, fwd, prepared, created, Tag(vlan), err == ErrNone);
    assert fwd'[|fwd|..] == prepared[|fwd|..] + [RouteAdded(routes[i], err == ErrNone)];
  }

  lemma BindingsStep(path: Path, i: nat, edges: seq<VppEdge>, vlan: Option<int>, offered: bool, created: seq<VppEdge>,
                     before: map<SubInterface, int>, now: map<SubInterface, int>)
    requires i < |EffectiveRoutes(path)| && EdgesNamed(path.routes, edges)
    requires Looked(before, now, path.routes, if |path.routes| > 0 then i else 0, edges, vlan, offered)
    ensures Looked(before, BoundFor(now, path.routes, i, edges, vlan, offered), path.routes, if |path.routes| > 0 then i + 1 else 0, edges, vlan, offered)
    ensures BindsOnlyCreated(path.routes, edges, vlan, created) ==>
              BoundFor(now, path.routes, i, edges, vlan, offered) - Subs(created, Tag(vlan)) == now - Subs(created, Tag(vlan))
  {
    hide Looked, EdgesNamed, Bound, Binding, Subs, BindsOnlyCreated;
    if i < |path.routes| {
      LookedStep(before, now, path.routes, i, edges, vlan, offered);
      if BindsOnlyCreated(path.routes, edges, vlan, created) { BoundCreated(path.routes, i, edges, vlan, offered, created, now); }
    }
  }

  lemma NothingInstalled(path: Path, fwd: seq<Op>, created: seq<VppEdge>, tag: int)
    requires Installs(fwd, created, tag, []) && TablesFirst(fwd)
    ensures Installing(path, 0, fwd, created, tag)
  {
    assert EffectiveRoutes(path)[..0] == [];
  }

  /** Adds the routes one by one after preparing their tables; any failure undoes the whole installation. */
  method InstallRoutes(b: Backend, path: Path, edges: seq<VppEdge>, vlan: Option<int>, created: seq<VppEdge>, ghost begun: seq<Op>)
    returns (err: ErrorCode, ghost fwd: seq<Op>)
    requires Installs(begun, created, Tag(vlan), [])
    requires TablesFirst(begun) && TablesOffered(b, path.routes) && EdgesNamed(path.routes, edges)
    requires if vlan.None? then created == [] else vlan.value >= 0 && b.callbacks.removeVlan
    modifies b`fib, b`subInterfaces, b`bindings, b`trace
    ensures begun <= fwd
    ensures err == ErrNone ==>
              && b.trace == old(b.trace) + fwd[|begun|..]
              && b.fib == old(b.fib) + Fibs(EffectiveRoutes(path))
              && b.subInterfaces == old(b.subInterfaces)
    ensures err != ErrNone && b.reliable ==>
              && b.trace == old(b.trace) + fwd[|begun|..] + Undo(fwd)
              && (Fibs(EffectiveRoutes(path)) !! old(b.fib) ==> b.fib == old(b.fib))
              && b.subInterfaces == old(b.subInterfaces) - Subs(created, Tag(vlan))
              && (BindsOnlyCreated(path.routes, edges, vlan, created) ==>
                    b.bindings == old(b.bindings) - Subs(created, Tag(vlan)))
    ensures err != ErrNone ==> !AllOk(fwd)
    // every table is made before anything relies on it, and looked up where its routes leave
    ensures TablesFirst(fwd)
    ensures b.flawless ==> err == ErrNone
    ensures err == ErrNone ==> Looked(old(b.bindings), b.bindings, path.routes, |path.routes|, edges, vlan, b.callbacks.setTable)
  {
    hide TablesFirst, Installing, TablesOffered, EdgesNamed, Looked, AllOk, BoundFor, BindsOnlyCreated, EffectiveRoutes;
    hide Installs, Subs, Undo, Fibs;
    fwd, err := begun, ErrNone;
    ImplicitRoute(path);
    var routes := EffectiveRoutes(path);
    ghost var bound := BindsOnlyCreated(path.routes, edges, vlan, created);
    FibsEmpty(routes);
    NothingInstalled(path, begun, created, Tag(vlan));
    NothingLooked(b.bindings, path.routes, edges, vlan, b.callbacks.setTable, begun);
    var i := 0;
    while i < |routes|
      invariant 0 <= i <= |routes| && err == ErrNone
      invariant begun <= fwd && b.trace == old(b.trace) + fwd[|begun|..]
      invariant Installing(path, i, fwd, created, Tag(vlan))
      invariant b.fib == old(b.fib) + Fibs(routes[..i])
      invariant b.subInterfaces == old(b.subInterfaces)
      invariant Looked(old(b.bindings), b.bindings, path.routes, if |path.routes| > 0 then i else 0, edges, vlan, b.callbacks.setTable)
      invariant bound ==> b.bindings - Subs(created, Tag(vlan)) == old(b.bindings) - Subs(created, Tag(vlan))
    {
      ghost var before := fwd;
      BindingsStep(path, i, edges, vlan, b.callbacks.setTable, created, old(b.bindings), b.bindings);
      FibsStep(routes, i);
      err, fwd := InstallRoute(b, path, i, edges, vlan, created, fwd);
      assert fwd[|begun|..] == before[|begun|..] + fwd[|before|..];
      if err != ErrNone {
        FibsPrefix(routes, i);
        RollbackInstall(b, routes[..i], created, vlan, fwd);
        return;
      }
      i := i + 1;
    }
    assert routes[..i] == routes;
    InstalledTables(path, i, fwd, created, Tag(vlan));
  }

  lemma InstalledTables(path: Path, i: nat, fwd: seq<Op>, created: seq<VppEdge>, tag: int)
    requires i <= |EffectiveRoutes(path)| && Installing(path, i, fwd, created, tag)
    ensures TablesFirst(fwd)
  {
  }

  lemma FibsEmpty(routes: seq<Route>)
    ensures Fibs(routes[..0]) == {} && Fibs([]) == {}
  {
  }

  lemma FibsPrefix(routes: seq<Route>, i: nat)
    requires i <= |routes|
    ensures Fibs(routes[..i]) <= Fibs(routes)
  {
    forall x | x in Fibs(routes[..i]) ensures x in Fibs(routes) {
      var j :| 0 <= j < i && x == FibOf(routes[..i][j]);
      assert routes[j] == routes[..i][j];
    }
  }

  /** Removes the routes in order, then the sub-interfaces; the first failure stops. */
  method RemoveAll(b: Backend, path: Path, edges: seq<VppEdge>, vlan: Option<int>) returns (err: ErrorCode)
    modifies b`fib, b`subInterfaces, b`bindings, b`trace
    ensures err == ErrNone ==>
              && b.fib == old(b.fib) - Fibs(EffectiveRoutes(path))
              && b.subInterfaces == (if vlan.Some? then old(b.subInterfaces) - Subs(PathEdges(path, edges), vlan.value) else old(b.subInterfaces))
    ensures b.reliable ==> err == ErrNone
  {
    var routes := EffectiveRoutes(path);
    var i := 0;
    while i < |routes|
      invariant 0 <= i <= |routes|
      invariant b.fib == old(b.fib) - Fibs(routes[..i])
      invariant b.subInterfaces == old(b.subInterfaces)
    {
      FibsStep(routes, i);
      err := b.RemoveRoute(routes[i]);
      if err != ErrNone { return; }
      i := i + 1;
    }
    assert routes[..i] == routes;
    if vlan.Some? { err := RemoveVlans(b, path, edges, vlan.value); } else { err := ErrNone; }
  }

  method RemoveVlans(b: Backend, path: Path, edges: seq<VppEdge>, vlan: int) returns (err: ErrorCode)
    modifies b`subInterfaces, b`bindings, b`trace
    ensures err == ErrNone ==> b.subInterfaces == old(b.subInterfaces) - Subs(PathEdges(path, edges), vlan)
    ensures b.reliable ==> err == ErrNone
  {
    err := ErrNone;
    var i := 0;
    BuildsNothing(path, edges, vlan);
    while i < |edges|
      invariant 0 <= i <= |edges| && err == ErrNone
      invariant b.subInterfaces == old(b.subInterfaces) - Subs(PathEdges(path, edges[..i]), vlan)
    {
      PathEdgesStep(path, edges, i);
      if PathContainsNode(path, edges[i].nodeId) {
        SubsAppend(PathEdges(path, edges[..i]), edges[i], vlan);
        err := b.RemoveVlan(edges[i], vlan);
        if err != ErrNone { return; }
      }
      i := i + 1;
    }
    assert edges[..i] == edges;
  }

  // ----- the operation -----

  /** None of what the path needs exists yet. */
  ghost predicate Fresh(b: Backend, path: Path, edges: seq<VppEdge>, vlan: Option<int>)
    reads b`fib, b`subInterfaces, b`bindings
  {
    && Fibs(EffectiveRoutes(path)) !! b.fib
    && Subs(PathEdges(path, edges), Tag(vlan)) !! b.subInterfaces
    && Subs(PathEdges(path, edges), Tag(vlan)) !! b.bindings.Keys
  }

  predicate RoutesOnPath(path: Path) {
    forall i :: 0 <= i < |path.routes| ==> PathContainsNode(path, path.routes[i].nodeId)
  }

  /** Installs a path, or removes it.

      Installing is all or nothing: with reliable removals and fresh resources, a failure leaves routes,
      sub-interfaces and, for routes on the path's own nodes, table bindings as they were, and the calls that
      undo are the exact reverse of the successful additions. The one exception is a VLAN that some edge of
      the path forbids (src/vpp_api_adapter.c:190): then the operation always fails, and what it leaves behind
      are exactly the sub-interfaces of the path edges before the forbidding one, unless there are none, or
      one of them could not be created. */
  method ApplyPathOperations(b: Backend, path: Path, traffic: Traffic, edges: seq<VppEdge>, remove: bool)
    returns (err: ErrorCode, ghost fwd: seq<Op>)
    modifies b`fib, b`subInterfaces, b`bindings, b`trace
    ensures Precheck(b, path, traffic, edges, remove) != ErrNone ==>
              && err == Precheck(b, path, traffic, edges, remove)
              && b.fib == old(b.fib) && b.subInterfaces == old(b.subInterfaces)
              && b.bindings == old(b.bindings) && b.trace == old(b.trace)
    // success
    ensures err == ErrNone && !remove ==>
              && b.fib == old(b.fib) + Fibs(EffectiveRoutes(path))
              && b.subInterfaces == (if traffic.vlan.Some? then old(b.subInterfaces) + Subs(PathEdges(path, edges), traffic.vlan.value)
                                     else old(b.subInterfaces))
              && b.trace == old(b.trace) + fwd
    ensures err == ErrNone && !remove && traffic.vlan.Some? ==> CarriesVlan(path, edges, traffic.vlan.value, b.subInterfaces)
    // every table is made before anything relies on it, and looked up where its routes leave
    ensures TablesFirst(fwd)
    ensures b.flawless && !remove && Precheck(b, path, traffic, edges, remove) == ErrNone && Allowing(path, edges, traffic.vlan) == |edges| ==>
              err == ErrNone
    ensures err == ErrNone && !remove ==>
              && OnlyForRoutes(old(b.bindings), b.bindings, path.routes, edges, Tag(traffic.vlan))
              && (if traffic.vlan.Some? then RoutesReached(path, edges, traffic.vlan.value, b.bindings) else b.bindings == old(b.bindings))
    ensures err == ErrNone && remove ==>
              && b.fib == old(b.fib) - Fibs(EffectiveRoutes(path))
              && b.subInterfaces == (if traffic.vlan.Some? then old(b.subInterfaces) - Subs(PathEdges(path, edges), traffic.vlan.value)
                                     else old(b.subInterfaces))
    // all or nothing
    ensures var allowed := Allowing(path, edges, traffic.vlan);
            err != ErrNone && !remove && b.reliable && old(Fresh(b, path, edges, traffic.vlan)) && allowed == |edges| ==>
              && b.fib == old(b.fib) && b.subInterfaces == old(b.subInterfaces)
              && (RoutesOnPath(path) ==> b.bindings == old(b.bindings))
              && (Precheck(b, path, traffic, edges, remove) == ErrNone ==> b.trace == old(b.trace) + fwd + Undo(fwd))
    // and exactly what a forbidden VLAN leaves behind
    ensures var allowed := Allowing(path, edges, traffic.vlan);
            Precheck(b, path, traffic, edges, remove) == ErrNone && !remove && allowed < |edges| ==>
              && err != ErrNone && b.fib == old(b.fib)
              && (b.flawless ==> AllOk(fwd))
              && (AllOk(fwd) ==>
                    && err == ErrInvalidArgument
                    && b.subInterfaces == old(b.subInterfaces) + Subs(PathEdges(path, edges[..allowed]), traffic.vlan.value)
                    && b.bindings == old(b.bindings) && b.trace == old(b.trace) + fwd
                    && (old(Fresh(b, path, edges, traffic.vlan)) ==>
                          (b.subInterfaces == old(b.subInterfaces) <==> PathEdges(path, edges[..allowed]) == [])))
              && (!AllOk(fwd) && b.reliable && old(Fresh(b, path, edges, traffic.vlan)) ==>
                    && b.subInterfaces == old(b.subInterfaces) && b.bindings == old(b.bindings)
                    && b.trace == old(b.trace) + fwd + Undo(fwd))
    ensures b.reliable && remove && Precheck(b, path, traffic, edges, remove) == ErrNone ==>
              (err == ErrNone <==> Allowing(path, edges, traffic.vlan) == |edges|)
  {
    hide Subs, Fibs, Undo, PathEdges, PathContainsNode, Allowing, Precheck, EffectiveRoutes, Installs;
    hide RoutesOnPath, BindsOnlyCreated, Builds;
    hide CarriesVlan, TablesFirst, OnlyForRoutes, RoutesReached, Looked, TablesOffered, EdgesNamed, AllOk;
    fwd := [];
    NoTablesYet(fwd);
    NothingFailed();
    err := Precheck(b, path, traffic, edges, remove);
    if err != ErrNone { return; }
    PrecheckMeans(b, path, traffic, edges, remove);
    var created;
    ghost var stranded;
    err, created, fwd, stranded := CreateVlans(b, path, edges, traffic.vlan, remove);
    BuildsNoTables(fwd, created, Tag(traffic.vlan));
    FreshSubs(path, edges, traffic.vlan, created);
    NoneStranded(path, edges, traffic.vlan, Allowing(path, edges, traffic.vlan));
    if err != ErrNone { return; }
    assert edges[..|edges|] == edges;
    if remove {
      err := RemoveAll(b, path, edges, traffic.vlan);
    } else {
      ghost var begun := fwd;
      BuildsInstalls(fwd, created, Tag(traffic.vlan));
      BindsCreated(path, edges, traffic.vlan, created);
      err, fwd := InstallRoutes(b, path, edges, traffic.vlan, created, fwd);
      assert begun + fwd[|begun|..] == fwd;
      if err == ErrNone {
        if traffic.vlan.Some? { PathEdgesCarry(path, edges, traffic.vlan.value, b.subInterfaces); }
        LookedMeans(b, path, traffic, edges, old(b.bindings), b.bindings);
      }
    }
  }

  lemma PrecheckMeans(b: Backend, path: Path, traffic: Traffic, edges: seq<VppEdge>, remove: bool)
    requires Precheck(b, path, traffic, edges, remove) == ErrNone
    ensures traffic.vlan.Some? ==> 0 <= traffic.vlan.value && b.callbacks.removeVlan
    ensures EdgesNamed(path.routes, edges) && (!remove ==> TablesOffered(b, path.routes))
  {
    if |path.routes| > 0 { CheckedEdgesNamed(path.routes, edges); }
  }

  /** The nodes a path touches. */
  function NodesOf(path: Path): set<Id> {
    {path.source, path.destination} + (set w | w in path.waypoints) +
    (set i | 0 <= i < |path.segments| :: path.segments[i].fromNode) + (set i | 0 <= i < |path.segments| :: path.segments[i].toNode)
  }

  /** Every edge at a node of the path has a sub-interface for the VLAN, and allows it. */
  ghost predicate CarriesVlan(path: Path, edges: seq<VppEdge>, vlan: int, subInterfaces: set<SubInterface>) {
    forall e :: 0 <= e < |edges| && edges[e].nodeId in NodesOf(path) ==>
      SubInterface(edges[e].nodeId, edges[e].vppInterface, vlan) in subInterfaces && (edges[e].allowedVlans != [] ==> vlan in edges[e].allowedVlans)
  }

  lemma PathEdgesCarry(path: Path, edges: seq<VppEdge>, vlan: int, subInterfaces: set<SubInterface>)
    requires Subs(PathEdges(path, edges), vlan) <= subInterfaces && Allowing(path, edges, Some(vlan)) == |edges|
    ensures CarriesVlan(path, edges, vlan, subInterfaces)
  {
    forall e | 0 <= e < |edges| && edges[e].nodeId in NodesOf(path)
      ensures SubInterface(edges[e].nodeId, edges[e].vppInterface, vlan) in subInterfaces
      ensures edges[e].allowedVlans != [] ==> vlan in edges[e].allowedVlans
    {
      assert !Disallows(path, edges[e], Some(vlan));
      var on := PathEdges(path, edges);
      var k :| 0 <= k < |on| && on[k] == edges[e];
      assert SubOf(on[k], vlan) in Subs(on, vlan);
    }
  }

  lemma NothingFailed()
    ensures AllOk([])
  {
  }

  lemma BuildsNoTables(fwd: seq<Op>, created: seq<VppEdge>, tag: int)
    requires Builds(fwd, created, tag)
    ensures TablesFirst(fwd)
  {
  }

  /** At the nodes of the path, a route to a table that has an edge to leave through leaves through a
      sub-interface that is bound to this table, which is the one all routes of the node agree on. */
  ghost predicate RoutesReached(path: Path, edges: seq<VppEdge>, tag: int, bindings: map<SubInterface, int>) {
    forall k :: 0 <= k < |path.routes| && path.routes[k].tableId > 0 && PathContainsNode(path, path.routes[k].nodeId) &&
                HasEdge(path.routes[k], edges) ==>
      Reached(path.routes[k], edges, tag, bindings) && TableForNode(path.routes, path.routes[k].nodeId) == path.routes[k].tableId
  }

  lemma LookedMeans(b: Backend, path: Path, traffic: Traffic, edges: seq<VppEdge>, before: map<SubInterface, int>, after: map<SubInterface, int>)
    requires Precheck(b, path, traffic, edges, false) == ErrNone
    requires Looked(before, after, path.routes, |path.routes|, edges, traffic.vlan, b.callbacks.setTable)
    ensures OnlyForRoutes(before, after, path.routes, edges, Tag(traffic.vlan))
    ensures if traffic.vlan.Some? then RoutesReached(path, edges, traffic.vlan.value, after) else after == before
  {
    hide OnlyForRoutes, PathContainsNode, CheckRoutes, TableForNode, ValidRouteOperation;
    if traffic.vlan.Some? {
      forall k | 0 <= k < |path.routes| && path.routes[k].tableId > 0 && PathContainsNode(path, path.routes[k].nodeId) && HasEdge(path.routes[k], edges)
        ensures Reached(path.routes[k], edges, traffic.vlan.value, after)
        ensures TableForNode(path.routes, path.routes[k].nodeId) == path.routes[k].tableId
      {
        var r := path.routes[k];
        var e :| 0 <= e < |edges| && EdgeMatchesRoute(edges[e], r);
        assert !TableUnusable(b, path, edges[e]);
        TableForNodeIsAgreed(path.routes, r.nodeId);
        assert Asks(r, r.nodeId);
      }
    }
  }

  lemma BuildsInstalls(fwd: seq<Op>, created: seq<VppEdge>, tag: int)
    requires Builds(fwd, created, tag)
    ensures Installs(fwd, created, tag, [])
  {
  }

  lemma BindsCreated(path: Path, edges: seq<VppEdge>, vlan: Option<int>, created: seq<VppEdge>)
    requires vlan.Some? ==> created == PathEdges(path, edges)
    ensures RoutesOnPath(path) ==> BindsOnlyCreated(path.routes, edges, vlan, created)
  {
    if RoutesOnPath(path) && vlan.Some? {
      forall i, e | 0 <= i < |path.routes| && e in edges && e.nodeId == path.routes[i].nodeId
        ensures SubOf(e, Tag(vlan)) in Subs(created, Tag(vlan))
      {
        var k :| 0 <= k < |edges| && edges[k] == e;
        assert PathContainsNode(path, edges[k].nodeId);
        var j :| 0 <= j < |created| && created[j] == e;
      }
    }
  }

  lemma FreshSubs(path: Path, edges: seq<VppEdge>, vlan: Option<int>, created: seq<VppEdge>)
    ensures created == [] ==> Subs(created, Tag(vlan)) == {}
  {
  }

  /** What is stranded is new, and nothing only if no edge of the path was passed. */
  lemma NoneStranded(path: Path, edges: seq<VppEdge>, vlan: Option<int>, n: nat)
    requires n <= |edges|
    ensures Subs(PathEdges(path, edges[..n]), Tag(vlan)) == {} <==> PathEdges(path, edges[..n]) == []
    ensures Subs(PathEdges(path, edges[..n]), Tag(vlan)) <= Subs(PathEdges(path, edges), Tag(vlan))
  {
    var passed := PathEdges(path, edges[..n]);
    if passed != [] { assert SubOf(passed[0], Tag(vlan)) in Subs(passed, Tag(vlan)); }
    CreatedOnPath(path, edges, n, Tag(vlan));
  }

  function EdgeAt(node: Id, vlan: int): VppEdge { VppEdge(node, "", "", "gi0", "", "", "10.0.0.1", [vlan]) }

  /** For example: a VLAN of one edge, and one route into table 10 at its node. On a fresh backend whose calls
      never fail the sub-interface is created and looks that table up. */
  method TableExample() returns (b: Backend, err: ErrorCode, ghost fwd: seq<Op>)
    ensures err == ErrNone
    ensures var sub, route := SubOf(EdgeAt("a", 10), 10), Route("r", "a", "10.1.0.0/16", "10.0.0.1", "", 10, -1);
            && b.subInterfaces == {sub} && b.fib == {FibOf(route)} && b.bindings == map[sub := 10]
            && b.trace == fwd && TablesFirst(fwd)
  {
    b := new Backend(Callbacks(true, true, true, true, true, true), true, true);
    var edges, route := [EdgeAt("a", 10)], Route("r", "a", "10.1.0.0/16", "10.0.0.1", "", 10, -1);
    var path := Path("p", "a", "c", "", "", "", [], [route], false, [], 0, AdminEnabled);
    OneTable(route, edges);
    OneRoute(b, path, edges);
    assert edges[..1] == edges;
    FirstEdgeOnly(path, edges);
    err, fwd := ApplyPathOperations(b, path, Traffic("a", "c", Some(10)), edges, false);
    assert Fibs(path.routes) == {FibOf(route)};
    OneBinding(path, edges, b.bindings);
  }

  lemma OneTable(route: Route, edges: seq<VppEdge>)
    requires route.tableId == 10 && edges == [EdgeAt("a", 10)] && route.nodeId == "a" && route.interfaceName == ""
    ensures TableForNode([route], "a") == 10 && HasEdge(route, edges) && edges[0].allowedVlans[0] == 10
  {
    TableForNodeIsAgreed([route], "a");
    assert Asks([route][0], "a");
    assert EdgeMatchesRoute(edges[0], route);
  }

  lemma OneRoute(b: Backend, path: Path, edges: seq<VppEdge>)
    requires b.callbacks == Callbacks(true, true, true, true, true, true) && edges == [EdgeAt("a", 10)]
    requires path.source == "a" && path.routes == [Route("r", "a", "10.1.0.0/16", "10.0.0.1", "", 10, -1)]
    requires TableForNode(path.routes, "a") == 10 && edges[0].allowedVlans[0] == 10
    ensures Precheck(b, path, Traffic("a", "c", Some(10)), edges, false) == ErrNone
    ensures Allowing(path, edges, Some(10)) == 1
  {
    assert CheckRoutes(path.routes[1..], edges) == ErrNone;
    assert ValidRouteOperation(path.routes[0]);
  }

  lemma OneBinding(path: Path, edges: seq<VppEdge>, bindings: map<SubInterface, int>)
    requires edges == [EdgeAt("a", 10)] && path.source == "a"
    requires path.routes == [Route("r", "a", "10.1.0.0/16", "10.0.0.1", "", 10, -1)] && HasEdge(path.routes[0], edges)
    requires OnlyForRoutes(map[], bindings, path.routes, edges, 10) && RoutesReached(path, edges, 10, bindings)
    ensures bindings == map[SubOf(EdgeAt("a", 10), 10) := 10]
  {
    assert Reached(path.routes[0], edges, 10, bindings);
    forall s | s in bindings ensures s == SubOf(EdgeAt("a", 10), 10) && bindings[s] == 10 {
      assert ForRoute(s, bindings[s], path.routes, edges, 10);
    }
  }

  /** For example: of two edges at the ends of the path, only the first allows VLAN 10. Installing on a fresh
      backend whose calls never fail is refused, and leaves the sub-interface of the first behind. */
  method ForbiddenVlanExample() returns (b: Backend, err: ErrorCode)
    ensures err == ErrInvalidArgument
    ensures b.subInterfaces == {SubOf(EdgeAt("a", 10), 10)} && b.fib == {}
  {
    b := new Backend(Callbacks(true, true, true, true, true, true), true, true);
    var edges := [EdgeAt("a", 10), EdgeAt("c", 20)];
    var path := Path("p", "a", "c", "10.1.0.0/16", "10.0.0.1", "", [], [], false, [], 0, AdminEnabled);
    assert edges[0].allowedVlans[0] == 10 && edges[1].allowedVlans[0] == 20;
    assert Allowing(path, edges, Some(10)) == 1;
    assert TableForNode(path.routes, "a") == UNSET && TableForNode(path.routes, "c") == UNSET;
    assert Precheck(b, path, Traffic("a", "c", Some(10)), edges, false) == ErrNone by {
      assert ValidRouteOperation(EffectiveRoutes(path)[0]);
    }
    FirstEdgeOnly(path, edges);
    ghost var fwd;
    err, fwd := ApplyPathOperations(b, path, Traffic("a", "c", Some(10)), edges, false);
  }

  lemma FirstEdgeOnly(path: Path, edges: seq<VppEdge>)
    requires |edges| > 0 && PathContainsNode(path, edges[0].nodeId)
    ensures PathEdges(path, edges[..1]) == [edges[0]] && Subs(PathEdges(path, edges[..1]), 10) == {SubOf(edges[0], 10)}
  {
    PathEdgesStep(path, edges, 0);
    assert PathEdges(path, edges[..0]) == [];
    SubsAppend([], edges[0], 10);
    assert [] + [edges[0]] == [edges[0]];
  }

  /** Installing a fresh path and removing it again is the identity on routes and sub-interfaces. */
  method InstallThenRemove(b: Backend, path: Path, traffic: Traffic, edges: seq<VppEdge>) returns (installed: ErrorCode, removed: ErrorCode)
    requires Fresh(b, path, edges, traffic.vlan)
    modifies b`fib, b`subInterfaces, b`bindings, b`trace
    ensures installed == ErrNone && removed == ErrNone ==> b.fib == old(b.fib) && b.subInterfaces == old(b.subInterfaces)
  {
    hide Subs, Fibs, Undo, PathEdges, Precheck, Allowing, EffectiveRoutes;
    ghost var fwd;
    installed, fwd := ApplyPathOperations(b, path, traffic, edges, false);
    removed, fwd := ApplyPathOperations(b, path, traffic, edges, true);
  }

  // ----- what undoing means -----

  datatype Tables = Tables(fib: set<FibEntry>, subInterfaces: set<SubInterface>)

  /** The effect of one call on routes and sub-interfaces. */
  function Effect(s: Tables, op: Op): Tables {
    if !op.ok then s
    else
      match op
      case RouteAdded(r, _) => s.(fib := s.fib + {FibOf(r)})
      case RouteRemoved(r, _) => s.(fib := s.fib - {FibOf(r)})
      case VlanCreated(e, v, _) => s.(subInterfaces := s.subInterfaces + {SubOf(e, v)})
      case VlanRemoved(e, v, _) => s.(subInterfaces := s.subInterfaces - {SubOf(e, v)})
      case _ => s
  }

  function Replay(s: Tables, trace: seq<Op>): Tables
    decreases |trace|
  {
    if |trace| == 0 then s else Replay(Effect(s, trace[0]), trace[1..])
  }

  lemma {:induction false} ReplayConcat(s: Tables, a: seq<Op>, b: seq<Op>)
    ensures Replay(s, a + b) == Replay(Replay(s, a), b)
    decreases |a|
  {
    if |a| == 0 {
      assert a + b == b;
    } else {
      assert (a + b)[1..] == a[1..] + b;
      ReplayConcat(Effect(s, a[0]), a[1..], b);
    }
  }

  /** What the successful additions of a trace add. */
  function Additions(trace: seq<Op>): Tables {
    if |trace| == 0 then Tables({}, {}) else Effect(Additions(trace[..|trace| - 1]), trace[|trace| - 1])
  }

  predicate OnlyAdds(trace: seq<Op>) {
    forall i :: 0 <= i < |trace| ==> !trace[i].RouteRemoved? && !trace[i].VlanRemoved?
  }

  lemma {:induction false} ReplayAdds(s: Tables, trace: seq<Op>)
    requires OnlyAdds(trace)
    ensures Replay(s, trace) == Tables(s.fib + Additions(trace).fib, s.subInterfaces + Additions(trace).subInterfaces)
  {
    if |trace| > 0 {
      var n := |trace| - 1;
      ReplayAdds(s, trace[..n]);
      assert trace == trace[..n] + [trace[n]];
      ReplayConcat(s, trace[..n], [trace[n]]);
      assert Replay(Replay(s, trace[..n]), [trace[n]]) == Effect(Replay(s, trace[..n]), trace[n]);
    }
  }

  lemma {:induction false} ReplayUndo(s: Tables, trace: seq<Op>)
    requires OnlyAdds(trace)
    ensures Replay(s, Undo(trace)) == Tables(s.fib - Additions(trace).fib, s.subInterfaces - Additions(trace).subInterfaces)
    decreases |trace|
  {
    if |trace| > 0 {
      var n := |trace| - 1;
      var s' := Replay(s, Inverse(trace[n]));
      ReplayConcat(s, Inverse(trace[n]), Undo(trace[..n]));
      if Inverse(trace[n]) != [] { assert s' == Effect(s, Inverse(trace[n])[0]); }
      ReplayUndo(s', trace[..n]);
    }
  }

  /** Replaying any trace of additions and then its undo restores whatever tables held none of them before. */
  lemma UndoRestores(s: Tables, trace: seq<Op>)
    requires OnlyAdds(trace)
    requires Additions(trace).fib !! s.fib && Additions(trace).subInterfaces !! s.subInterfaces
    ensures Replay(s, trace + Undo(trace)) == s
  {
    ReplayConcat(s, trace, Undo(trace));
    ReplayAdds(s, trace);
    ReplayUndo(Replay(s, trace), trace);
    assert Replay(s, trace + Undo(trace)).fib == s.fib;
  }
}
