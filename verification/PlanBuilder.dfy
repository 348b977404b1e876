/** Building the apply plan of a path (src/apply_plan.c), and what running or taking back a built plan does. */
module PlanBuilder {
  import opened Model
  import opened Render
  import opened Argv
  import opened ApplyPlan

  // ----- sequences in parts -----

  function Concat<T>(parts: seq<seq<T>>): seq<T>
    decreases |parts|
  {
    if |parts| == 0 then [] else Concat(parts[..|parts| - 1]) + parts[|parts| - 1]
  }

  lemma {:induction false} ConcatMember<T>(parts: seq<seq<T>>, x: T)
    ensures x in Concat(parts) <==> exists i :: 0 <= i < |parts| && x in parts[i]
    decreases |parts|
  {
    if |parts| > 0 {
      var n := |parts| - 1;
      ConcatMember(parts[..n], x);
      if x in Concat(parts[..n]) {
        var i :| 0 <= i < n && x in parts[..n][i];
        assert x in parts[i];
      }
      if i :| 0 <= i < |parts| && x in parts[i] {
        assert i < n ==> x in parts[..n][i];
      }
    }
  }

  // ----- what a plan consists of -----

  /** The tunnels of a path's segments, in order. */
  function PathTunnels(config: Config, path: Path): seq<Tunnel>
    requires TunnelsKnown(config, path)
  {
    seq(|path.segments|, i requires 0 <= i < |path.segments| => FindTunnel(config.tunnels, path.segments[i].tunnelId).value)
  }

  predicate TunnelsKnown(config: Config, path: Path) {
    forall i :: 0 <= i < |path.segments| ==> FindTunnel(config.tunnels, path.segments[i].tunnelId).Some?
  }

  function InitiatePart(t: Tunnel): seq<Step> { [Step(Initiate(t), Some(Terminate(t)))] }

  function GreSteps(t: Tunnel): seq<Step> {
    [Step(GreCreate(t), Some(GreDelete(t))), Step(GreSetAddress(t), None)] +
    (if t.greMtu > 0 then [Step(GreSetMtu(t), None)] else []) +
    [Step(GreSetUp(t), None)]
  }

  predicate SeenIn(ts: seq<Tunnel>, id: Id) { exists k :: 0 <= k < |ts| && ts[k].tunnelId == id }

  /** A GRE tunnel is created at the first segment that uses it. */
  function GrePart(ts: seq<Tunnel>, i: nat): seq<Step>
    requires i < |ts|
  {
    if IsGre(ts[i]) && !SeenIn(ts[..i], ts[i].tunnelId) then GreSteps(ts[i]) else []
  }

  function OutBlock(t: Tunnel): Block { Block(false, t.localTrafficSelector, t.remoteTrafficSelector) }

  function InBlock(t: Tunnel): Block { Block(true, t.remoteTrafficSelector, t.localTrafficSelector) }

  function BlockPart(t: Tunnel): seq<Step> {
    [Step(BlockAdd(OutBlock(t)), Some(BlockDelete(OutBlock(t)))), Step(BlockAdd(InBlock(t)), Some(BlockDelete(InBlock(t))))]
  }

  /** The first GRE tunnel of the path carries its routes. */
  function FirstGre(ts: seq<Tunnel>): (r: Option<Tunnel>)
    ensures r.Some? ==> r.value in ts && IsGre(r.value)
    ensures r.None? ==> forall t :: t in ts ==> !IsGre(t)
  {
    if |ts| == 0 then None else if IsGre(ts[0]) then Some(ts[0]) else FirstGre(ts[1..])
  }

  /** `en_route_resolve_tunnel_egress`: what the route leaves open is taken from the tunnel. */
  function Resolved(r: Route, t: Tunnel): Route {
    if r.nextHop != "" && r.interfaceName != "" then r
    else if IsGre(t) then
      r.(nextHop := if r.nextHop == "" then t.greRemoteAddress else r.nextHop,
         interfaceName := if r.interfaceName == "" then t.greInterface else r.interfaceName)
    else r.(nextHop := if r.nextHop == "" then t.remoteEndpoint else r.nextHop)
  }

  function Through(r: Route, egress: Option<Tunnel>): Route {
    if egress.Some? then Resolved(r, egress.value) else r
  }

  function RoutePart(r: Route): seq<Step> { [Step(RouteAdd(r), Some(RouteDelete(r)))] }

  /** The one route of a path without a route list. */
  function LegacyRoute(path: Path, egress: Tunnel): Route {
    Resolved(Route("", "", path.routeDestinationPrefix, path.routeNextHop, "", -1, -1), egress)
  }

  function LegacyUndo(path: Path, egress: Tunnel): Command {
    if IsGre(egress) then GreRouteDelete(path.routeDestinationPrefix, egress) else RouteDeletePrefix(path.routeDestinationPrefix)
  }

  function InitiateParts(ts: seq<Tunnel>): seq<seq<Step>> { seq(|ts|, i requires 0 <= i < |ts| => InitiatePart(ts[i])) }

  function GreParts(ts: seq<Tunnel>): seq<seq<Step>> { seq(|ts|, i requires 0 <= i < |ts| => GrePart(ts, i)) }

  function BlockParts(ts: seq<Tunnel>): seq<seq<Step>> { seq(|ts|, i requires 0 <= i < |ts| => BlockPart(ts[i])) }

  function RouteParts(routes: seq<Route>, egress: Option<Tunnel>): seq<seq<Step>> {
    seq(|routes|, i requires 0 <= i < |routes| => RoutePart(Through(routes[i], egress)))
  }

  function Prelude(ts: seq<Tunnel>, blocking: bool, file: string): seq<Step> {
    [Step(LoadConnections(file), None)] + Concat(InitiateParts(ts)) + Concat(GreParts(ts)) +
    (if blocking then Concat(BlockParts(ts)) else [])
  }

  predicate EgressKnown(config: Config, path: Path) {
    |path.routes| > 0 || FindTunnel(config.tunnels, path.egressTunnelId).Some?
  }

  function RouteSteps(config: Config, path: Path): seq<Step>
    requires TunnelsKnown(config, path) && EgressKnown(config, path)
  {
    if |path.routes| > 0 then Concat(RouteParts(path.routes, FirstGre(PathTunnels(config, path))))
    else
      var egress := FindTunnel(config.tunnels, path.egressTunnelId).value;
      [Step(RouteAdd(LegacyRoute(path, egress)), Some(LegacyUndo(path, egress)))]
  }

  /** The commands of a path's plan: connections, tunnels, GRE interfaces, policies and then routes. */
  function PlanSteps(config: Config, intent: Intent, path: Path, file: string): seq<Step>
    requires TunnelsKnown(config, path) && EgressKnown(config, path)
  {
    Prelude(PathTunnels(config, path), intent.blockNonIpsec, file) + RouteSteps(config, path)
  }

  predicate Printable(s: Step) {
    CommandText(s.command).Some? && (s.undo.Some? ==> CommandText(s.undo.value).Some?)
  }

  predicate AllPrintable(steps: seq<Step>) { forall s :: s in steps ==> Printable(s) }

  /** When a plan can be built, apart from the connection text. */
  predicate Buildable(config: Config, intent: Intent, path: Path, file: string) {
    && |config.tunnels| <= MAX_TUNNELS && PathCountsValid(path)
    && TunnelsKnown(config, path) && EgressKnown(config, path)
    && AllPrintable(PlanSteps(config, intent, path, file))
  }

  // ----- building the command list -----

  /** Appends one command with its undo, refusing what cannot be rendered. */
  method Put(plan: Plan, c: Command, undo: Option<Command>) returns (ok: bool)
    requires |plan.steps| < MAX_PLAN_COMMANDS
    modifies plan`steps, plan`hasUndos
    ensures ok <==> Printable(Step(c, undo))
    ensures ok ==> plan.steps == old(plan.steps) + [Step(c, undo)] && plan.hasUndos == (old(plan.hasUndos) || undo.Some?)
    ensures |old(plan.steps)| <= |plan.steps|
  {
    if CommandText(c).None? { return false; }
    match undo
    case Some(u) =>
      if CommandText(u).None? { return false; }
      ok := plan.AppendCommandWithRollback(c, u);
    case None =>
      ok := plan.AppendCommand(c);
  }

  /** One part fewer, and the part that could not be printed. */
  lemma PartUnprintable(parts: seq<seq<Step>>, i: nat, s: Step)
    requires i < |parts| && s in parts[i] && !Printable(s)
    ensures !AllPrintable(Concat(parts))
  {
    ConcatMember(parts, s);
  }

  lemma OnePartMore(parts: seq<seq<Step>>, i: nat, before: seq<Step>)
    requires i < |parts|
    ensures before + Concat(parts[..i]) + parts[i] == before + Concat(parts[..i + 1])
    ensures AllPrintable(Concat(parts[..i + 1])) <==> AllPrintable(Concat(parts[..i])) && AllPrintable(parts[i])
  {
    assert parts[..i + 1][..i] == parts[..i];
    var a, b := Concat(parts[..i]), parts[i];
    assert before + a + b == before + (a + b);
    assert forall s :: s in a + b <==> s in a || s in b;
  }

  lemma AllParts(parts: seq<seq<Step>>)
    ensures parts[..|parts|] == parts && Concat(parts[..0]) == []
  {
    assert parts[..0] == [];
  }

  /** `find_tunnel` of a segment. */
  method TunnelOf(config: Config, path: Path, i: nat) returns (t: Tunnel)
    requires TunnelsKnown(config, path) && i < |path.segments|
    ensures t == PathTunnels(config, path)[i] && t.tunnelId == path.segments[i].tunnelId
  {
    var found := FindTunnel(config.tunnels, path.segments[i].tunnelId);
    t := found.value;
  }

  method AppendInitiations(plan: Plan, config: Config, path: Path) returns (ok: bool)
    requires TunnelsKnown(config, path) && PathCountsValid(path) && |plan.steps| <= 8
    modifies plan`steps, plan`hasUndos
    ensures var parts := InitiateParts(PathTunnels(config, path));
            && (ok <==> AllPrintable(Concat(parts)))
            && (ok ==> plan.steps == old(plan.steps) + Concat(parts))
            && (ok ==> |plan.steps| <= |old(plan.steps)| + MAX_SEGMENTS)
  {
    hide Printable, Concat;
    ghost var parts := InitiateParts(PathTunnels(config, path));
    AllParts(parts);
    var i := 0;
    while i < |path.segments|
      invariant 0 <= i <= |path.segments|
      invariant plan.steps == old(plan.steps) + Concat(parts[..i]) && AllPrintable(Concat(parts[..i]))
      invariant |plan.steps| <= |old(plan.steps)| + i
    {
      var t := TunnelOf(config, path, i);
      OnePartMore(parts, i, old(plan.steps));
      ok := Put(plan, Initiate(t), Some(Terminate(t)));
      if !ok {
        PartUnprintable(parts, i, Step(Initiate(t), Some(Terminate(t))));
        return false;
      }
      i := i + 1;
    }
    ok := true;
  }

  /** Whether an earlier segment runs through the same tunnel. */
  method AlreadyAdded(config: Config, path: Path, i: nat) returns (seen: bool)
    requires TunnelsKnown(config, path) && i < |path.segments|
    ensures seen == SeenIn(PathTunnels(config, path)[..i], path.segments[i].tunnelId)
  {
    var prior := 0;
    while prior < i
      invariant 0 <= prior <= i
      invariant forall k :: 0 <= k < prior ==> path.segments[k].tunnelId != path.segments[i].tunnelId
    {
      if path.segments[prior].tunnelId == path.segments[i].tunnelId {
        assert PathTunnels(config, path)[..i][prior].tunnelId == path.segments[i].tunnelId;
        return true;
      }
      prior := prior + 1;
    }
    seen := false;
  }

  /** The commands that make one GRE interface ready. */
  method AppendGre(plan: Plan, t: Tunnel) returns (ok: bool)
    requires |plan.steps| <= 64
    modifies plan`steps, plan`hasUndos
    ensures ok <==> AllPrintable(GreSteps(t))
    ensures ok ==> plan.steps == old(plan.steps) + GreSteps(t) && |plan.steps| <= |old(plan.steps)| + 4
  {
    hide Printable;
    var steps := GreSteps(t);
    assert forall s :: s in steps <==>
      s in [Step(GreCreate(t), Some(GreDelete(t))), Step(GreSetAddress(t), None), Step(GreSetUp(t), None)] || (t.greMtu > 0 && s == Step(GreSetMtu(t), None));
    ok := Put(plan, GreCreate(t), Some(GreDelete(t)));
    if !ok { return; }
    ok := Put(plan, GreSetAddress(t), None);
    if !ok { return; }
    if t.greMtu > 0 {
      ok := Put(plan, GreSetMtu(t), None);
      if !ok { return; }
    }
    ok := Put(plan, GreSetUp(t), None);
  }

  method AppendGres(plan: Plan, config: Config, path: Path) returns (ok: bool)
    requires TunnelsKnown(config, path) && PathCountsValid(path) && |plan.steps| <= 16
    modifies plan`steps, plan`hasUndos
    ensures var parts := GreParts(PathTunnels(config, path));
            && (ok <==> AllPrintable(Concat(parts)))
            && (ok ==> plan.steps == old(plan.steps) + Concat(parts))
            && (ok ==> |plan.steps| <= |old(plan.steps)| + 4 * MAX_SEGMENTS)
  {
    hide Printable, Concat, GreSteps;
    ghost var parts := GreParts(PathTunnels(config, path));
    AllParts(parts);
    var i := 0;
    while i < |path.segments|
      invariant 0 <= i <= |path.segments|
      invariant plan.steps == old(plan.steps) + Concat(parts[..i]) && AllPrintable(Concat(parts[..i]))
      invariant |plan.steps| <= |old(plan.steps)| + 4 * i
    {
      var t := TunnelOf(config, path, i);
      OnePartMore(parts, i, old(plan.steps));
      var seen := AlreadyAdded(config, path, i);
      if IsGre(t) && !seen {
        assert parts[i] == GreSteps(t);
        ok := AppendGre(plan, t);
        if !ok {
          var s :| s in GreSteps(t) && !Printable(s);
          PartUnprintable(parts, i, s);
          return false;
        }
      } else {
        assert parts[i] == [];
        assert plan.steps + [] == plan.steps;
      }
      i := i + 1;
    }
    ok := true;
  }

  method AppendBlocks(plan: Plan, config: Config, path: Path) returns (ok: bool)
    requires TunnelsKnown(config, path) && PathCountsValid(path) && |plan.steps| <= 64
    modifies plan`steps, plan`hasUndos
    ensures var parts := BlockParts(PathTunnels(config, path));
            && (ok <==> AllPrintable(Concat(parts)))
            && (ok ==> plan.steps == old(plan.steps) + Concat(parts))
            && (ok ==> |plan.steps| <= |old(plan.steps)| + 2 * MAX_SEGMENTS)
  {
    hide Printable, Concat;
    ghost var parts := BlockParts(PathTunnels(config, path));
    AllParts(parts);
    var i := 0;
    while i < |path.segments|
      invariant 0 <= i <= |path.segments|
      invariant plan.steps == old(plan.steps) + Concat(parts[..i]) && AllPrintable(Concat(parts[..i]))
      invariant |plan.steps| <= |old(plan.steps)| + 2 * i
    {
      var t := TunnelOf(config, path, i);
      OnePartMore(parts, i, old(plan.steps));
      ghost var before := plan.steps;
      ok := Put(plan, BlockAdd(OutBlock(t)), Some(BlockDelete(OutBlock(t))));
      if !ok {
        PartUnprintable(parts, i, BlockPart(t)[0]);
        return false;
      }
      ok := Put(plan, BlockAdd(InBlock(t)), Some(BlockDelete(InBlock(t))));
      if !ok {
        PartUnprintable(parts, i, BlockPart(t)[1]);
        return false;
      }
      assert plan.steps == before + BlockPart(t);
      i := i + 1;
    }
    ok := true;
  }

  /** The first GRE tunnel among the segments. */
  method EgressOf(config: Config, path: Path) returns (egress: Option<Tunnel>)
    requires TunnelsKnown(config, path)
    ensures egress == FirstGre(PathTunnels(config, path))
  {
    var i := 0;
    ghost var ts := PathTunnels(config, path);
    assert ts[0..] == ts;
    while i < |path.segments|
      invariant 0 <= i <= |path.segments| && FirstGre(ts) == FirstGre(ts[i..])
    {
      var t := TunnelOf(config, path, i);
      if IsGre(t) { return Some(t); }
      assert ts[i..][1..] == ts[i + 1..];
      i := i + 1;
    }
    egress := None;
  }

  method AppendRoutes(plan: Plan, config: Config, path: Path) returns (ok: bool)
    requires TunnelsKnown(config, path) && PathCountsValid(path) && |plan.steps| <= 80
    modifies plan`steps, plan`hasUndos
    ensures var parts := RouteParts(path.routes, FirstGre(PathTunnels(config, path)));
            && (ok <==> AllPrintable(Concat(parts)))
            && (ok ==> plan.steps == old(plan.steps) + Concat(parts))
            && (ok ==> |plan.steps| <= |old(plan.steps)| + MAX_ROUTES && plan.hasUndos == (old(plan.hasUndos) || |path.routes| > 0))
  {
    hide Printable, Concat, Through;
    ghost var parts := RouteParts(path.routes, FirstGre(PathTunnels(config, path)));
    AllParts(parts);
    var i := 0;
    while i < |path.routes|
      invariant 0 <= i <= |path.routes|
      invariant plan.steps == old(plan.steps) + Concat(parts[..i]) && AllPrintable(Concat(parts[..i]))
      invariant |plan.steps| <= |old(plan.steps)| + i && plan.hasUndos == (old(plan.hasUndos) || i > 0)
    {
      var egress := EgressOf(config, path);
      var route := Through(path.routes[i], egress);
      OnePartMore(parts, i, old(plan.steps));
      ok := Put(plan, RouteAdd(route), Some(RouteDelete(route)));
      if !ok {
        PartUnprintable(parts, i, RoutePart(route)[0]);
        return false;
      }
      i := i + 1;
    }
    ok := true;
  }

  /** The route of a path without a route list, which needs a known egress tunnel. */
  method AppendLegacyRoute(plan: Plan, config: Config, path: Path) returns (ok: bool)
    requires |plan.steps| < MAX_PLAN_COMMANDS
    modifies plan`steps, plan`hasUndos
    ensures var egress := FindTunnel(config.tunnels, path.egressTunnelId);
            && (ok <==> egress.Some? && Printable(Step(RouteAdd(LegacyRoute(path, egress.value)), Some(LegacyUndo(path, egress.value)))))
            && (ok ==> plan.steps == old(plan.steps) + [Step(RouteAdd(LegacyRoute(path, egress.value)), Some(LegacyUndo(path, egress.value)))])
            && (ok ==> plan.hasUndos)
  {
    var egress := FindTunnel(config.tunnels, path.egressTunnelId);
    if egress.None? { return false; }
    ok := Put(plan, RouteAdd(LegacyRoute(path, egress.value)), Some(LegacyUndo(path, egress.value)));
  }

  // ----- members of a plan -----

  /** What each step of a plan is. */
  predicate StepShape(ts: seq<Tunnel>, s: Step) {
    match s.command
    case LoadConnections(_) => s.undo.None?
    case Initiate(t) => s.undo == Some(Terminate(t))
    case GreCreate(t) => t in ts && IsGre(t) && s.undo == Some(GreDelete(t))
    case GreSetAddress(t) => t in ts && IsGre(t) && s.undo.None?
    case GreSetMtu(t) => t in ts && IsGre(t) && s.undo.None?
    case GreSetUp(t) => t in ts && IsGre(t) && s.undo.None?
    case BlockAdd(b) => s.undo == Some(BlockDelete(b))
    case RouteAdd(r) => s.undo == Some(RouteDelete(r))
    case _ => false
  }

  lemma PreludeShape(ts: seq<Tunnel>, blocking: bool, file: string, s: Step)
    requires s in Prelude(ts, blocking, file)
    ensures StepShape(ts, s) && !s.command.RouteAdd?
  {
    ConcatMember(InitiateParts(ts), s);
    ConcatMember(GreParts(ts), s);
    ConcatMember(BlockParts(ts), s);
  }

  lemma RouteShape(config: Config, path: Path, s: Step)
    requires TunnelsKnown(config, path) && EgressKnown(config, path) && s in RouteSteps(config, path)
    ensures s.command.RouteAdd?
    ensures |path.routes| > 0 ==> StepShape(PathTunnels(config, path), s)
    ensures |path.routes| == 0 ==>
              var egress := FindTunnel(config.tunnels, path.egressTunnelId).value;
              s == Step(RouteAdd(LegacyRoute(path, egress)), Some(LegacyUndo(path, egress)))
  {
    if |path.routes| > 0 {
      ConcatMember(RouteParts(path.routes, FirstGre(PathTunnels(config, path))), s);
    }
  }

  lemma InitiateInPlan(ts: seq<Tunnel>, blocking: bool, file: string, i: nat)
    requires i < |ts|
    ensures Step(Initiate(ts[i]), Some(Terminate(ts[i]))) in Prelude(ts, blocking, file)
  {
    assert InitiatePart(ts[i])[0] in InitiateParts(ts)[i];
    ConcatMember(InitiateParts(ts), InitiatePart(ts[i])[0]);
  }

  lemma BlocksInPlan(ts: seq<Tunnel>, file: string, i: nat)
    requires i < |ts|
    ensures BlockPart(ts[i])[0] in Prelude(ts, true, file) && BlockPart(ts[i])[1] in Prelude(ts, true, file)
  {
    assert BlockPart(ts[i])[0] in BlockParts(ts)[i] && BlockPart(ts[i])[1] in BlockParts(ts)[i];
    ConcatMember(BlockParts(ts), BlockPart(ts[i])[0]);
    ConcatMember(BlockParts(ts), BlockPart(ts[i])[1]);
  }

  /** Tunnels with the same identifier are the same. */
  predicate Consistent(ts: seq<Tunnel>) {
    forall i, j :: 0 <= i < |ts| && 0 <= j < |ts| && ts[i].tunnelId == ts[j].tunnelId ==> ts[i] == ts[j]
  }

  lemma FirstUse(ts: seq<Tunnel>, i: nat) returns (p: nat)
    requires i < |ts| && Consistent(ts)
    ensures p <= i && ts[p] == ts[i] && !SeenIn(ts[..p], ts[p].tunnelId)
    decreases i
  {
    if SeenIn(ts[..i], ts[i].tunnelId) {
      var k :| 0 <= k < i && ts[..i][k].tunnelId == ts[i].tunnelId;
      assert ts[k] == ts[i];
      p := FirstUse(ts, k);
    } else {
      p := i;
    }
  }

  /** Every GRE tunnel of the path is created by the plan. */
  lemma GreInPlan(ts: seq<Tunnel>, blocking: bool, file: string, i: nat)
    requires i < |ts| && IsGre(ts[i]) && Consistent(ts)
    ensures Step(GreCreate(ts[i]), Some(GreDelete(ts[i]))) in Prelude(ts, blocking, file)
  {
    var p := FirstUse(ts, i);
    var s := Step(GreCreate(ts[i]), Some(GreDelete(ts[i])));
    assert GreSteps(ts[p])[0] == s;
    assert s in GreParts(ts)[p];
    ConcatMember(GreParts(ts), s);
  }

  // ----- building the rollback list -----

  function LegacyTeardown(path: Path, egress: Tunnel): Command {
    if IsGre(egress) then RouteDelete(Resolved(Route("", "", path.routeDestinationPrefix, "", "", -1, -1), egress))
    else RouteDeletePrefix(path.routeDestinationPrefix)
  }

  function RouteDeleteParts(routes: seq<Route>, egress: Option<Tunnel>): seq<seq<Command>> {
    seq(|routes|, k requires 0 <= k < |routes| => [RouteDelete(Through(routes[|routes| - 1 - k], egress))])
  }

  /** A GRE tunnel is deleted at the last segment that uses it. */
  function GreDeletePart(ts: seq<Tunnel>, i: nat): seq<Command>
    requires i < |ts|
  {
    if IsGre(ts[i]) && !SeenIn(ts[i + 1..], ts[i].tunnelId) then [GreDelete(ts[i])] else []
  }

  function GreDeleteParts(ts: seq<Tunnel>): seq<seq<Command>> {
    seq(|ts|, k requires 0 <= k < |ts| => GreDeletePart(ts, |ts| - 1 - k))
  }

  function TerminateParts(ts: seq<Tunnel>): seq<seq<Command>> {
    seq(|ts|, k requires 0 <= k < |ts| => [Terminate(ts[|ts| - 1 - k])])
  }

  function BlockDeleteParts(ts: seq<Tunnel>): seq<seq<Command>> {
    seq(|ts|, k requires 0 <= k < |ts| => [BlockDelete(OutBlock(ts[|ts| - 1 - k])), BlockDelete(InBlock(ts[|ts| - 1 - k]))])
  }

  function RouteRollbacks(config: Config, path: Path): seq<Command>
    requires TunnelsKnown(config, path) && EgressKnown(config, path)
  {
    if |path.routes| > 0 then Concat(RouteDeleteParts(path.routes, FirstGre(PathTunnels(config, path))))
    else [LegacyTeardown(path, FindTunnel(config.tunnels, path.egressTunnelId).value)]
  }

  /** The commands that take a whole plan back: routes, GRE interfaces, tunnels and then policies. */
  function PlanRollbacks(config: Config, intent: Intent, path: Path): seq<Command>
    requires TunnelsKnown(config, path) && EgressKnown(config, path)
  {
    var ts := PathTunnels(config, path);
    RouteRollbacks(config, path) + Concat(GreDeleteParts(ts)) + Concat(TerminateParts(ts)) +
    (if intent.blockNonIpsec then Concat(BlockDeleteParts(ts)) else [])
  }

  /** Every command of these can be rendered. */
  predicate AllTexts(commands: seq<Command>) { forall c :: c in commands ==> CommandText(c).Some? }

  lemma OneCommandPart(parts: seq<seq<Command>>, i: nat, before: seq<Command>)
    requires i < |parts|
    ensures before + Concat(parts[..i]) + parts[i] == before + Concat(parts[..i + 1])
    ensures forall c :: c in parts[i] ==> c in Concat(parts)
  {
    assert parts[..i + 1][..i] == parts[..i];
    assert before + Concat(parts[..i]) + parts[i] == before + (Concat(parts[..i]) + parts[i]);
    forall c | c in parts[i] ensures c in Concat(parts) { ConcatMember(parts, c); }
  }

  lemma AllCommandParts(parts: seq<seq<Command>>)
    ensures parts[..|parts|] == parts && Concat(parts[..0]) == []
  {
    assert parts[..0] == [];
  }

  /** Appends one rollback command, refusing what cannot be rendered. */
  method PutRollback(plan: Plan, c: Command) returns (ok: bool)
    modifies plan`rollbacks
    ensures ok <==> CommandText(c).Some? && |old(plan.rollbacks)| < MAX_PLAN_COMMANDS
    ensures ok ==> plan.rollbacks == old(plan.rollbacks) + [c]
  {
    if CommandText(c).None? { return false; }
    ok := plan.AppendRollback(c);
  }

  method RollbackRoutes(plan: Plan, config: Config, path: Path) returns (ok: bool)
    requires TunnelsKnown(config, path) && EgressKnown(config, path) && PathCountsValid(path) && |plan.rollbacks| == 0
    requires AllTexts(RouteRollbacks(config, path))
    modifies plan`rollbacks
    ensures ok && plan.rollbacks == RouteRollbacks(config, path) && |plan.rollbacks| <= MAX_ROUTES
  {
    hide Concat, Through, CommandText;
    if |path.routes| == 0 {
      var egress := FindTunnel(config.tunnels, path.egressTunnelId);
      ok := PutRollback(plan, LegacyTeardown(path, egress.value));
      return;
    }
    ghost var parts := RouteDeleteParts(path.routes, FirstGre(PathTunnels(config, path)));
    AllCommandParts(parts);
    var i := |path.routes|;
    while i > 0
      invariant 0 <= i <= |path.routes|
      invariant plan.rollbacks == [] + Concat(parts[..|path.routes| - i]) && |plan.rollbacks| == |path.routes| - i
    {
      var egress := EgressOf(config, path);
      OneCommandPart(parts, |path.routes| - i, []);
      assert RouteDelete(Through(path.routes[i - 1], egress)) in parts[|path.routes| - i];
      ok := PutRollback(plan, RouteDelete(Through(path.routes[i - 1], egress)));
      assert ok;
      i := i - 1;
    }
    ok := true;
  }

  /** Whether a later segment runs through the same tunnel. */
  method UsedLater(config: Config, path: Path, i: nat) returns (seen: bool)
    requires TunnelsKnown(config, path) && i < |path.segments|
    ensures seen == SeenIn(PathTunnels(config, path)[i + 1..], path.segments[i].tunnelId)
  {
    var later := |path.segments|;
    while later > i + 1
      invariant i + 1 <= later <= |path.segments|
      invariant forall k :: later <= k < |path.segments| ==> path.segments[k].tunnelId != path.segments[i].tunnelId
    {
      if path.segments[later - 1].tunnelId == path.segments[i].tunnelId {
        assert PathTunnels(config, path)[i + 1..][later - 2 - i].tunnelId == path.segments[i].tunnelId;
        return true;
      }
      later := later - 1;
    }
    seen := false;
  }

  method RollbackGres(plan: Plan, config: Config, path: Path) returns (ok: bool)
    requires TunnelsKnown(config, path) && PathCountsValid(path) && |plan.rollbacks| <= 16
    requires AllTexts(Concat(GreDeleteParts(PathTunnels(config, path))))
    modifies plan`rollbacks
    ensures ok && plan.rollbacks == old(plan.rollbacks) + Concat(GreDeleteParts(PathTunnels(config, path)))
    ensures |plan.rollbacks| <= |old(plan.rollbacks)| + MAX_SEGMENTS
  {
    hide Concat, CommandText;
    ghost var parts := GreDeleteParts(PathTunnels(config, path));
    AllCommandParts(parts);
    var i := |path.segments|;
    while i > 0
      invariant 0 <= i <= |path.segments|
      invariant plan.rollbacks == old(plan.rollbacks) + Concat(parts[..|path.segments| - i])
      invariant |plan.rollbacks| <= |old(plan.rollbacks)| + |path.segments| - i
    {
      var t := TunnelOf(config, path, i - 1);
      OneCommandPart(parts, |path.segments| - i, old(plan.rollbacks));
      var seen := UsedLater(config, path, i - 1);
      assert parts[|path.segments| - i] == GreDeletePart(PathTunnels(config, path), i - 1);
      if IsGre(t) && !seen {
        assert parts[|path.segments| - i] == [GreDelete(t)];
        ok := PutRollback(plan, GreDelete(t));
        assert ok;
      } else {
        assert parts[|path.segments| - i] == [];
        assert plan.rollbacks + [] == plan.rollbacks;
      }
      i := i - 1;
    }
    ok := true;
  }

  method RollbackTunnels(plan: Plan, config: Config, path: Path) returns (ok: bool)
    requires TunnelsKnown(config, path) && PathCountsValid(path) && |plan.rollbacks| <= 24
    requires AllTexts(Concat(TerminateParts(PathTunnels(config, path))))
    modifies plan`rollbacks
    ensures ok && plan.rollbacks == old(plan.rollbacks) + Concat(TerminateParts(PathTunnels(config, path)))
    ensures |plan.rollbacks| <= |old(plan.rollbacks)| + MAX_SEGMENTS
  {
    hide Concat, CommandText;
    ghost var parts := TerminateParts(PathTunnels(config, path));
    AllCommandParts(parts);
    var i := |path.segments|;
    while i > 0
      invariant 0 <= i <= |path.segments|
      invariant plan.rollbacks == old(plan.rollbacks) + Concat(parts[..|path.segments| - i])
      invariant |plan.rollbacks| <= |old(plan.rollbacks)| + |path.segments| - i
    {
      var t := TunnelOf(config, path, i - 1);
      OneCommandPart(parts, |path.segments| - i, old(plan.rollbacks));
      assert Terminate(t) in parts[|path.segments| - i];
      ok := PutRollback(plan, Terminate(t));
      assert ok;
      i := i - 1;
    }
    ok := true;
  }

  method RollbackBlocks(plan: Plan, config: Config, path: Path) returns (ok: bool)
    requires TunnelsKnown(config, path) && PathCountsValid(path) && |plan.rollbacks| <= 32
    requires AllTexts(Concat(BlockDeleteParts(PathTunnels(config, path))))
    modifies plan`rollbacks
    ensures ok && plan.rollbacks == old(plan.rollbacks) + Concat(BlockDeleteParts(PathTunnels(config, path)))
    ensures |plan.rollbacks| <= |old(plan.rollbacks)| + 2 * MAX_SEGMENTS
  {
    hide Concat, CommandText;
    ghost var parts := BlockDeleteParts(PathTunnels(config, path));
    AllCommandParts(parts);
    var i := |path.segments|;
    while i > 0
      invariant 0 <= i <= |path.segments|
      invariant plan.rollbacks == old(plan.rollbacks) + Concat(parts[..|path.segments| - i])
      invariant |plan.rollbacks| <= |old(plan.rollbacks)| + 2 * (|path.segments| - i)
    {
      var t := TunnelOf(config, path, i - 1);
      OneCommandPart(parts, |path.segments| - i, old(plan.rollbacks));
      ghost var before := plan.rollbacks;
      assert BlockDelete(OutBlock(t)) in parts[|path.segments| - i] && BlockDelete(InBlock(t)) in parts[|path.segments| - i];
      ok := PutRollback(plan, BlockDelete(OutBlock(t)));
      assert ok;
      ok := PutRollback(plan, BlockDelete(InBlock(t)));
      assert ok;
      assert plan.rollbacks == before + parts[|path.segments| - i];
      i := i - 1;
    }
    ok := true;
  }

  // ----- whatever the plan does can be taken back -----

  lemma TunnelsConsistent(config: Config, path: Path)
    requires TunnelsKnown(config, path)
    ensures Consistent(PathTunnels(config, path))
  {
  }

  lemma PrintableInPlan(config: Config, intent: Intent, path: Path, file: string, s: Step)
    requires Buildable(config, intent, path, file)
    requires s in Prelude(PathTunnels(config, path), intent.blockNonIpsec, file) || s in RouteSteps(config, path)
    ensures Printable(s)
  {
    assert s in PlanSteps(config, intent, path, file);
  }

  lemma GreDeletesPrintable(config: Config, intent: Intent, path: Path, file: string)
    requires Buildable(config, intent, path, file)
    ensures AllTexts(Concat(GreDeleteParts(PathTunnels(config, path))))
  {
    hide Concat, CommandText, Prelude, PlanSteps, RouteSteps;
    var ts := PathTunnels(config, path);
    TunnelsConsistent(config, path);
    forall c | c in Concat(GreDeleteParts(ts)) ensures CommandText(c).Some? {
      ConcatMember(GreDeleteParts(ts), c);
      var k :| 0 <= k < |ts| && c in GreDeleteParts(ts)[k];
      var i := |ts| - 1 - k;
      assert GreDeleteParts(ts)[k] == GreDeletePart(ts, i);
      GreInPlan(ts, intent.blockNonIpsec, file, i);
      PrintableInPlan(config, intent, path, file, Step(GreCreate(ts[i]), Some(GreDelete(ts[i]))));
    }
  }

  lemma TerminatesPrintable(config: Config, intent: Intent, path: Path, file: string)
    requires Buildable(config, intent, path, file)
    ensures AllTexts(Concat(TerminateParts(PathTunnels(config, path))))
  {
    hide Concat, CommandText, Prelude, PlanSteps, RouteSteps;
    var ts := PathTunnels(config, path);
    forall c | c in Concat(TerminateParts(ts)) ensures CommandText(c).Some? {
      ConcatMember(TerminateParts(ts), c);
      var k :| 0 <= k < |ts| && c in TerminateParts(ts)[k];
      var i := |ts| - 1 - k;
      InitiateInPlan(ts, intent.blockNonIpsec, file, i);
      PrintableInPlan(config, intent, path, file, Step(Initiate(ts[i]), Some(Terminate(ts[i]))));
    }
  }

  lemma BlockDeletesAreUndos(ts: seq<Tunnel>, k: nat, c: Command)
    requires k < |ts| && c in BlockDeleteParts(ts)[k]
    ensures var part := BlockPart(ts[|ts| - 1 - k]);
            |part| == 2 && (part[0].undo == Some(c) || part[1].undo == Some(c))
  {
    var parts := BlockDeleteParts(ts)[k];
    var m :| 0 <= m < |parts| && parts[m] == c;
  }

  lemma BlockDeletesPrintable(config: Config, intent: Intent, path: Path, file: string)
    requires Buildable(config, intent, path, file) && intent.blockNonIpsec
    ensures AllTexts(Concat(BlockDeleteParts(PathTunnels(config, path))))
  {
    hide Concat, CommandText, Prelude, PlanSteps, RouteSteps, BlockPart;
    var ts := PathTunnels(config, path);
    forall c | c in Concat(BlockDeleteParts(ts)) ensures CommandText(c).Some? {
      ConcatMember(BlockDeleteParts(ts), c);
      var k :| 0 <= k < |ts| && c in BlockDeleteParts(ts)[k];
      var i := |ts| - 1 - k;
      BlockDeletesAreUndos(ts, k, c);
      BlocksInPlan(ts, file, i);
      PrintableInPlan(config, intent, path, file, BlockPart(ts[i])[0]);
      PrintableInPlan(config, intent, path, file, BlockPart(ts[i])[1]);
    }
  }

  /** For a GRE egress the teardown names the tunnel's own next hop, like the undo of the route. */
  lemma LegacyTeardownText(path: Path, egress: Tunnel)
    ensures CommandText(LegacyUndo(path, egress)).Some? ==> CommandText(LegacyTeardown(path, egress)).Some?
  {
    hide RenderDelete;
    if IsGre(egress) {
      assert Resolved(Route("", "", path.routeDestinationPrefix, "", "", -1, -1), egress) == GreRoute(path.routeDestinationPrefix, egress);
    }
  }

  lemma RouteRollbacksPrintable(config: Config, intent: Intent, path: Path, file: string)
    requires Buildable(config, intent, path, file)
    ensures AllTexts(RouteRollbacks(config, path))
  {
    hide Concat, Prelude, PlanSteps, CommandText, LegacyUndo, LegacyTeardown, LegacyRoute, Through;
    if |path.routes| > 0 {
      var egress := FirstGre(PathTunnels(config, path));
      var parts := RouteDeleteParts(path.routes, egress);
      forall c | c in Concat(parts) ensures CommandText(c).Some? {
        ConcatMember(parts, c);
        var k :| 0 <= k < |parts| && c in parts[k];
        var i := |path.routes| - 1 - k;
        var s := RoutePart(Through(path.routes[i], egress))[0];
        assert s in RouteParts(path.routes, egress)[i];
        ConcatMember(RouteParts(path.routes, egress), s);
        PrintableInPlan(config, intent, path, file, s);
      }
    } else {
      LegacyTeardownText(path, FindTunnel(config.tunnels, path.egressTunnelId).value);
      PrintableInPlan(config, intent, path, file, RouteSteps(config, path)[0]);
    }
  }

  // ----- building a plan -----

  /** Everything of the command list up to the routes. */
  method BuildPrelude(plan: Plan, config: Config, intent: Intent, path: Path, file: string) returns (ok: bool)
    requires TunnelsKnown(config, path) && PathCountsValid(path) && plan.steps == []
    modifies plan`steps, plan`hasUndos
    ensures var prelude := Prelude(PathTunnels(config, path), intent.blockNonIpsec, file);
            && (ok <==> AllPrintable(prelude))
            && (ok ==> plan.steps == prelude && |plan.steps| <= 1 + 7 * MAX_SEGMENTS)
  {
    hide Concat, Printable;
    ghost var ts := PathTunnels(config, path);
    ghost var a, b, c := Concat(InitiateParts(ts)), Concat(GreParts(ts)), Concat(BlockParts(ts));
    assert forall s :: s in Prelude(ts, intent.blockNonIpsec, file) <==>
      s == Step(LoadConnections(file), None) || s in a || s in b || (intent.blockNonIpsec && s in c);
    ok := Put(plan, LoadConnections(file), None);
    if !ok { return; }
    ok := AppendInitiations(plan, config, path);
    if !ok { return; }
    ok := AppendGres(plan, config, path);
    if !ok { return; }
    if intent.blockNonIpsec {
      ok := AppendBlocks(plan, config, path);
    }
  }

  /** The rollback list of a plan whose command list was built. */
  method BuildRollbacks(plan: Plan, config: Config, intent: Intent, path: Path, ghost file: string) returns (ok: bool)
    requires Buildable(config, intent, path, file) && plan.rollbacks == []
    modifies plan`rollbacks
    ensures ok && plan.rollbacks == PlanRollbacks(config, intent, path) && |plan.rollbacks| <= MAX_ROUTES + 4 * MAX_SEGMENTS
  {
    hide Concat, AllTexts, PlanSteps;
    RouteRollbacksPrintable(config, intent, path, file);
    GreDeletesPrintable(config, intent, path, file);
    TerminatesPrintable(config, intent, path, file);
    if intent.blockNonIpsec { BlockDeletesPrintable(config, intent, path, file); }
    ok := RollbackRoutes(plan, config, path);
    ok := RollbackGres(plan, config, path);
    ok := RollbackTunnels(plan, config, path);
    if intent.blockNonIpsec {
      ok := RollbackBlocks(plan, config, path);
    }
  }

  /** `en_apply_plan_from_config_with_file`. `confFits` stands for the connection text: that the block and the
      secret of every tunnel were accepted and fit the text buffer. A plan never runs out of room. */
  method Build(config: Config, intent: Intent, path: Path, file: string) returns (err: ErrorCode, plan: Plan, ghost confFits: bool)
    ensures fresh(plan)
    ensures err in {ErrNone, ErrNotFound, ErrInvalidArgument}
    ensures err == ErrNone <==> confFits && Buildable(config, intent, path, file)
    ensures err == ErrNotFound ==> !TunnelsKnown(config, path)
    ensures err == ErrNone ==>
              && plan.steps == PlanSteps(config, intent, path, file) && plan.hasUndos
              && plan.rollbacks == PlanRollbacks(config, intent, path)
              && |plan.steps| <= 73 && |plan.rollbacks| <= 48
  {
    hide Printable, Prelude, PlanRollbacks;
    plan := new Plan();
    confFits := true;
    if |config.tunnels| > MAX_TUNNELS || !PathCountsValid(path) { return ErrInvalidArgument, plan, confFits; }
    var i := 0;
    while i < |path.segments|
      invariant 0 <= i <= |path.segments|
      invariant forall k :: 0 <= k < i ==> FindTunnel(config.tunnels, path.segments[k].tunnelId).Some?
      invariant confFits && plan.steps == [] && plan.rollbacks == []
    {
      if FindTunnel(config.tunnels, path.segments[i].tunnelId).None? { return ErrNotFound, plan, confFits; }
      var fits: bool := *;
      if !fits { return ErrInvalidArgument, plan, false; }
      i := i + 1;
    }
    var fits: bool := *;
    if !fits { return ErrInvalidArgument, plan, false; }
    assert TunnelsKnown(config, path);
    ghost var prelude := Prelude(PathTunnels(config, path), intent.blockNonIpsec, file);
    assert EgressKnown(config, path) ==>
      forall s :: s in PlanSteps(config, intent, path, file) <==> s in prelude || s in RouteSteps(config, path);
    var ok := BuildPrelude(plan, config, intent, path, file);
    if !ok { return ErrInvalidArgument, plan, true; }
    if |path.routes| > 0 {
      ok := AppendRoutes(plan, config, path);
    } else {
      ok := AppendLegacyRoute(plan, config, path);
    }
    if !ok { return ErrInvalidArgument, plan, true; }
    assert plan.steps == PlanSteps(config, intent, path, file);
    ok := BuildRollbacks(plan, config, intent, path, file);
    err := ErrNone;
  }
}
