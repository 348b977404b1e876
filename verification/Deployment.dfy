/** What a deployed path consists of (src/apply_plan.c:139-232), said over the configuration: exactly these tunnels,
    interfaces with these settings, policies and routes. */
module Deployment {
  import opened Model
  import opened Argv
  import opened Render
  import opened ApplyPlan
  import opened PlanBuilder
  import opened PlanLaws

  // ----- what is wanted -----

  /** The tunnel the configuration has under this name; the first one if there were several. */
  ghost predicate IsTunnel(config: Config, id: Id, t: Tunnel) {
    exists i :: 0 <= i < |config.tunnels| && config.tunnels[i] == t && t.tunnelId == id && forall j :: 0 <= j < i ==> config.tunnels[j].tunnelId != id
  }

  /** The tunnel of some segment of the path. */
  ghost predicate IsUsed(config: Config, path: Path, t: Tunnel) {
    exists i :: 0 <= i < |path.segments| && IsTunnel(config, path.segments[i].tunnelId, t)
  }

  /** The tunnel of the first segment that runs over GRE. */
  ghost predicate IsExit(config: Config, path: Path, t: Tunnel) {
    exists i :: 0 <= i < |path.segments| && IsTunnel(config, path.segments[i].tunnelId, t) && t.tunnelType == "gre_over_ipsec" &&
      forall j, u :: 0 <= j < i && IsTunnel(config, path.segments[j].tunnelId, u) ==> u.tunnelType != "gre_over_ipsec"
  }

  function Either(given: Id, otherwise: Id): Id { if given != "" then given else otherwise }

  /** The forwarding entry of a route of the path: what it leaves open is taken from the exit tunnel. */
  ghost predicate IsEntry(config: Config, path: Path, r: Route, fib: Fib) {
    && fib.table == (if r.tableId >= 0 then r.tableId else 0) && fib.prefix == r.destinationPrefix
    && ((exists t :: IsExit(config, path, t) && fib.nextHop == Either(r.nextHop, t.greRemoteAddress) &&
                     fib.interfaceName == Either(r.interfaceName, t.greInterface))
        || ((forall t :: !IsExit(config, path, t)) && fib.nextHop == r.nextHop && fib.interfaceName == r.interfaceName))
  }

  /** The entry of a path that lists no routes. */
  ghost predicate IsLegacyEntry(config: Config, path: Path, fib: Fib) {
    exists t :: IsTunnel(config, path.egressTunnelId, t) &&
      fib == if t.tunnelType == "gre_over_ipsec" then Fib(0, path.routeDestinationPrefix, Either(path.routeNextHop, t.greRemoteAddress), t.greInterface)
             else Fib(0, path.routeDestinationPrefix, Either(path.routeNextHop, t.remoteEndpoint), "")
  }

  /** The policy that blocks what would bypass the tunnel in that direction. */
  predicate Blocks(b: Block, t: Tunnel) {
    if b.inbound then b.src == t.remoteTrafficSelector && b.dst == t.localTrafficSelector
    else b.src == t.localTrafficSelector && b.dst == t.remoteTrafficSelector
  }

  /** A deployed path consists of its tunnels, the interfaces of its GRE tunnels, the policies that block what
      bypasses them, if asked for, and its routes. */
  ghost predicate IsWanted(config: Config, intent: Intent, path: Path, r: Resource) {
    match r
    case TunnelUp(id) => exists i :: 0 <= i < |path.segments| && path.segments[i].tunnelId == id
    case Interface(name) => exists t :: IsUsed(config, path, t) && t.tunnelType == "gre_over_ipsec" && t.greInterface == name
    case Blocked(b) =>
      && intent.blockNonIpsec
      && exists t :: IsUsed(config, path, t) && Blocks(b, t)
    case Routed(fib) =>
      if |path.routes| > 0 then exists k :: 0 <= k < |path.routes| && IsEntry(config, path, path.routes[k], fib)
      else IsLegacyEntry(config, path, fib)
  }

  // ----- the plan makes exactly what is wanted -----

  lemma {:induction false} FoundIsTunnel(tunnels: seq<Tunnel>, id: Id)
    ensures FindTunnel(tunnels, id).Some? ==>
              exists i :: 0 <= i < |tunnels| && tunnels[i] == FindTunnel(tunnels, id).value && forall j :: 0 <= j < i ==> tunnels[j].tunnelId != id
  {
    if |tunnels| > 0 && tunnels[0].tunnelId != id {
      FoundIsTunnel(tunnels[1..], id);
      if FindTunnel(tunnels, id).Some? {
        var i :| 0 <= i < |tunnels[1..]| && tunnels[1..][i] == FindTunnel(tunnels, id).value && forall j :: 0 <= j < i ==> tunnels[1..][j].tunnelId != id;
        assert tunnels[i + 1] == tunnels[1..][i];
        assert forall j :: 0 < j < i + 1 ==> tunnels[j] == tunnels[1..][j - 1];
      }
    }
  }

  lemma IsTunnelFound(config: Config, id: Id)
    ensures forall t :: IsTunnel(config, id, t) <==> FindTunnel(config.tunnels, id) == Some(t)
  {
    FoundIsTunnel(config.tunnels, id);
  }

  lemma UsedAreTunnels(config: Config, path: Path)
    requires TunnelsKnown(config, path)
    ensures forall i, t :: 0 <= i < |path.segments| ==> (IsTunnel(config, path.segments[i].tunnelId, t) <==> PathTunnels(config, path)[i] == t)
    ensures forall t :: IsUsed(config, path, t) <==> t in PathTunnels(config, path)
  {
    hide IsTunnel, FindTunnel;
    var ts := PathTunnels(config, path);
    forall i, t | 0 <= i < |path.segments| ensures IsTunnel(config, path.segments[i].tunnelId, t) <==> ts[i] == t {
      IsTunnelFound(config, path.segments[i].tunnelId);
    }
    forall t ensures IsUsed(config, path, t) <==> t in ts {
      if t in ts { var i :| 0 <= i < |ts| && ts[i] == t; }
    }
  }

  lemma {:induction false} FirstGreIsFirst(ts: seq<Tunnel>)
    ensures FirstGre(ts).Some? ==> exists i :: 0 <= i < |ts| && ts[i] == FirstGre(ts).value && forall j :: 0 <= j < i ==> !IsGre(ts[j])
  {
    if |ts| > 0 && !IsGre(ts[0]) {
      FirstGreIsFirst(ts[1..]);
      if FirstGre(ts).Some? {
        var i :| 0 <= i < |ts[1..]| && ts[1..][i] == FirstGre(ts).value && forall j :: 0 <= j < i ==> !IsGre(ts[1..][j]);
        assert ts[i + 1] == ts[1..][i];
        assert forall j :: 0 < j < i + 1 ==> ts[j] == ts[1..][j - 1];
      }
    }
  }

  lemma ExitIsFirstGre(config: Config, path: Path)
    requires TunnelsKnown(config, path)
    ensures forall t :: IsExit(config, path, t) <==> FirstGre(PathTunnels(config, path)) == Some(t)
  {
    hide IsTunnel, FindTunnel, FirstGre;
    var ts := PathTunnels(config, path);
    UsedAreTunnels(config, path);
    FirstGreIsFirst(ts);
    forall t ensures IsExit(config, path, t) <==> FirstGre(ts) == Some(t) {
      if FirstGre(ts) == Some(t) {
        var i :| 0 <= i < |ts| && ts[i] == t && forall j :: 0 <= j < i ==> !IsGre(ts[j]);
        assert IsTunnel(config, path.segments[i].tunnelId, t);
      }
      if IsExit(config, path, t) {
        var i :| 0 <= i < |path.segments| && IsTunnel(config, path.segments[i].tunnelId, t) && t.tunnelType == "gre_over_ipsec" &&
          forall j, u :: 0 <= j < i && IsTunnel(config, path.segments[j].tunnelId, u) ==> u.tunnelType != "gre_over_ipsec";
        assert ts[i] == t && IsGre(ts[i]);
        forall j | 0 <= j < i ensures !IsGre(ts[j]) { assert IsTunnel(config, path.segments[j].tunnelId, ts[j]); }
      }
    }
  }

  lemma EntryOfRoute(config: Config, path: Path, r: Route)
    requires TunnelsKnown(config, path)
    ensures forall fib :: IsEntry(config, path, r, fib) <==> fib == FibOf(Through(r, FirstGre(PathTunnels(config, path))))
  {
    hide IsExit, FindTunnel, FirstGre;
    ExitIsFirstGre(config, path);
  }

  lemma EntryOfLegacy(config: Config, path: Path)
    requires EgressKnown(config, path) && |path.routes| == 0
    ensures forall fib :: IsLegacyEntry(config, path, fib) <==>
              fib == FibOf(LegacyRoute(path, FindTunnel(config.tunnels, path.egressTunnelId).value))
  {
    hide IsTunnel, FindTunnel;
    IsTunnelFound(config, path.egressTunnelId);
  }

  /** The forwarder names the GRE tunnels of the path as configured. */
  ghost predicate NamedAsConfigured(names: Gre -> Id, config: Config, path: Path)
    requires TunnelsKnown(config, path)
  {
    forall t :: t in PathTunnels(config, path) && IsGre(t) ==> names(GreOf(t)) == t.greInterface
  }

  lemma PreludeMakesWanted(names: Gre -> Id, config: Config, intent: Intent, path: Path, file: string, s: Step, r: Resource)
    requires Plannable(config, path) && NamedAsConfigured(names, config, path)
    requires s in Prelude(PathTunnels(config, path), intent.blockNonIpsec, file) && Creates(names, s.command) == Some(r)
    ensures IsWanted(config, intent, path, r)
  {
    hide FindTunnel, Concat, GreSteps, InitiatePart, BlockPart, IsWanted, Creates, SeenIn;
    var ts := PathTunnels(config, path);
    ConcatMember(InitiateParts(ts), s);
    ConcatMember(GreParts(ts), s);
    ConcatMember(BlockParts(ts), s);
    if i :| 0 <= i < |ts| && s in InitiateParts(ts)[i] {
      PartMakesWanted(names, config, intent, path, i, s, r);
    } else if i :| 0 <= i < |ts| && s in GreParts(ts)[i] {
      PartMakesWanted(names, config, intent, path, i, s, r);
    } else if intent.blockNonIpsec && exists i :: 0 <= i < |ts| && s in BlockParts(ts)[i] {
      var i :| 0 <= i < |ts| && s in BlockParts(ts)[i];
      PartMakesWanted(names, config, intent, path, i, s, r);
    } else {
      LoadMakesNothing(names, file);
    }
  }

  lemma LoadMakesNothing(names: Gre -> Id, file: string)
    ensures Creates(names, LoadConnections(file)).None?
  {
  }

  lemma PartMakesWanted(names: Gre -> Id, config: Config, intent: Intent, path: Path, i: nat, s: Step, r: Resource)
    requires Plannable(config, path) && NamedAsConfigured(names, config, path) && i < |path.segments|
    requires var t := PathTunnels(config, path)[i];
             s in InitiatePart(t) || (IsGre(t) && s in GreSteps(t)) || (intent.blockNonIpsec && s in BlockPart(t))
    requires Creates(names, s.command) == Some(r)
    ensures IsWanted(config, intent, path, r)
  {
    hide IsTunnel, IsUsed, FindTunnel, Concat, GreOf, IsEntry, IsLegacyEntry;
    var ts := PathTunnels(config, path);
    UsedAreTunnels(config, path);
    var t := ts[i];
    assert t in ts;
    match r
    case TunnelUp(id) => assert path.segments[i].tunnelId == id;
    case Interface(_) => assert IsUsed(config, path, t);
    case Blocked(b) => assert IsUsed(config, path, t) && Blocks(b, t);
    case Routed(_) =>
  }

  lemma RouteMakesWanted(names: Gre -> Id, config: Config, intent: Intent, path: Path, s: Step, r: Resource)
    requires Plannable(config, path) && s in RouteSteps(config, path) && Creates(names, s.command) == Some(r)
    ensures IsWanted(config, intent, path, r)
  {
    hide IsTunnel, IsUsed, FindTunnel, Concat, IsEntry, IsLegacyEntry, FirstGre, Resolved, FibOf;
    if |path.routes| > 0 {
      var parts := RouteParts(path.routes, FirstGre(PathTunnels(config, path)));
      ConcatMember(parts, s);
      var k :| 0 <= k < |parts| && s in parts[k];
      EntryOfRoute(config, path, path.routes[k]);
    } else {
      EntryOfLegacy(config, path);
    }
  }

  lemma WantedIsMade(names: Gre -> Id, config: Config, intent: Intent, path: Path, file: string, r: Resource) returns (s: Step)
    requires Plannable(config, path) && NamedAsConfigured(names, config, path) && IsWanted(config, intent, path, r)
    ensures s in PlanSteps(config, intent, path, file) && Creates(names, s.command) == Some(r)
  {
    hide IsTunnel, IsUsed, FindTunnel, Concat, IsEntry, IsLegacyEntry, FirstGre, Resolved, FibOf, GreOf, Prelude, RouteSteps, NamedAsConfigured;
    var ts := PathTunnels(config, path);
    UsedAreTunnels(config, path);
    match r
    case TunnelUp(id) =>
      var i :| 0 <= i < |path.segments| && path.segments[i].tunnelId == id;
      InitiateInPlan(ts, intent.blockNonIpsec, file, i);
      s := Step(Initiate(ts[i]), Some(Terminate(ts[i])));
    case Interface(name) =>
      var t :| IsUsed(config, path, t) && t.tunnelType == "gre_over_ipsec" && t.greInterface == name;
      s := WantedInterfaceIsMade(names, config, intent, path, file, t);
    case Blocked(b) =>
      var t :| IsUsed(config, path, t) && Blocks(b, t);
      var i :| 0 <= i < |ts| && ts[i] == t;
      BlocksInPlan(ts, file, i);
      s := BlockPart(t)[if b.inbound then 1 else 0];
    case Routed(fib) => s := WantedRouteIsMade(names, config, intent, path, file, fib);
  }

  lemma WantedInterfaceIsMade(names: Gre -> Id, config: Config, intent: Intent, path: Path, file: string, t: Tunnel) returns (s: Step)
    requires Plannable(config, path) && NamedAsConfigured(names, config, path) && IsUsed(config, path, t) && IsGre(t)
    ensures s in PlanSteps(config, intent, path, file) && Creates(names, s.command) == Some(Interface(t.greInterface))
  {
    hide IsTunnel, IsUsed, FindTunnel, Concat, GreOf, Prelude, RouteSteps;
    var ts := PathTunnels(config, path);
    UsedAreTunnels(config, path);
    var i :| 0 <= i < |ts| && ts[i] == t;
    TunnelsConsistent(config, path);
    GreInPlan(ts, intent.blockNonIpsec, file, i);
    s := Step(GreCreate(t), Some(GreDelete(t)));
  }

  lemma WantedRouteIsMade(names: Gre -> Id, config: Config, intent: Intent, path: Path, file: string, fib: Fib) returns (s: Step)
    requires Plannable(config, path) && IsWanted(config, intent, path, Routed(fib))
    ensures s in PlanSteps(config, intent, path, file) && Creates(names, s.command) == Some(Routed(fib))
  {
    hide IsTunnel, FindTunnel, Concat, IsEntry, IsLegacyEntry, FirstGre, Resolved, FibOf, Prelude;
    if |path.routes| > 0 {
      var k :| 0 <= k < |path.routes| && IsEntry(config, path, path.routes[k], fib);
      EntryOfRoute(config, path, path.routes[k]);
      var parts := RouteParts(path.routes, FirstGre(PathTunnels(config, path)));
      s := parts[k][0];
      ConcatMember(parts, s);
    } else {
      EntryOfLegacy(config, path);
      s := RouteSteps(config, path)[0];
    }
  }

  /** The plan of a path makes exactly what is wanted. */
  lemma CreatedIsWanted(names: Gre -> Id, config: Config, intent: Intent, path: Path, file: string)
    requires Plannable(config, path) && NamedAsConfigured(names, config, path)
    ensures forall r :: r in Created(names, PlanSteps(config, intent, path, file)) <==> IsWanted(config, intent, path, r)
  {
    hide IsWanted, Creates, Prelude, RouteSteps, NamedAsConfigured, FindTunnel;
    var steps := PlanSteps(config, intent, path, file);
    forall r ensures r in Created(names, steps) <==> IsWanted(config, intent, path, r) {
      CreatedMember(names, steps, r);
      if r in Created(names, steps) {
        var k :| 0 <= k < |steps| && Creates(names, steps[k].command) == Some(r);
        if steps[k] in Prelude(PathTunnels(config, path), intent.blockNonIpsec, file) {
          PreludeMakesWanted(names, config, intent, path, file, steps[k], r);
        } else {
          RouteMakesWanted(names, config, intent, path, steps[k], r);
        }
      }
      if IsWanted(config, intent, path, r) {
        var s := WantedIsMade(names, config, intent, path, file, r);
        var k :| 0 <= k < |steps| && steps[k] == s;
      }
    }
  }

  // ----- the settings of the interfaces -----

  /** Every interface is set up only after it was made, by the tunnel that made it. */
  ghost predicate MadeThenSet(names: Gre -> Id, commands: seq<Command>, name: Id, t: Tunnel) {
    forall j :: 0 <= j < |commands| && Configures(commands[j]) == Some(Interface(name)) ==>
      commands[j].tunnel == t && exists i :: 0 <= i < j && Creates(names, commands[i]) == Some(Interface(name))
  }

  ghost predicate Keeps(names: Gre -> Id, commands: seq<Command>, r: Resource) {
    forall j :: 0 <= j < |commands| ==> !Removes(names, commands[j], r)
  }

  /** The settings that these commands of a tunnel leave behind. */
  function SetBy(commands: seq<Command>, t: Tunnel): Settings {
    Settings(if GreSetAddress(t) in commands then t.greLocalAddress else "",
             if GreSetMtu(t) in commands then t.greMtu else 0,
             GreSetUp(t) in commands)
  }

  lemma {:induction false} SettingsAfter(names: Gre -> Id, s0: System, commands: seq<Command>, name: Id, t: Tunnel)
    requires Interface(name) !in s0.resources && t.greInterface == name
    requires MadeThenSet(names, commands, name, t) && Keeps(names, commands, Interface(name))
    ensures var s := Effects(names, s0, commands).resources;
            && (Interface(name) in s <==> exists i :: 0 <= i < |commands| && Creates(names, commands[i]) == Some(Interface(name)))
            && (Interface(name) in s ==> s[Interface(name)] == SetBy(commands, t))
    decreases |commands|
  {
    hide Creates, Removes, Configures, Configured;
    if |commands| > 0 {
      var n := |commands| - 1;
      SettingsAfter(names, s0, commands[..n], name, t);
      assert commands == commands[..n] + [commands[n]];
      if Interface(name) !in Effects(names, s0, commands[..n]).resources { UnmadeIsUnset(names, commands[..n], name, t); }
      OneSetting(names, Effects(names, s0, commands[..n]), commands, name, t);
      if Interface(name) in Effects(names, s0, commands[..n]).resources {
        var i :| 0 <= i < n && Creates(names, commands[..n][i]) == Some(Interface(name));
        assert commands[i] == commands[..n][i];
      }
    }
  }

  lemma UnmadeIsUnset(names: Gre -> Id, commands: seq<Command>, name: Id, t: Tunnel)
    requires t.greInterface == name && MadeThenSet(names, commands, name, t)
    requires forall i :: 0 <= i < |commands| ==> Creates(names, commands[i]) != Some(Interface(name))
    ensures SetBy(commands, t) == Settings("", 0, false)
  {
    hide Creates;
    forall c | c in commands ensures Configures(c) != Some(Interface(name)) {
      var j :| 0 <= j < |commands| && commands[j] == c;
    }
    assert Configures(GreSetAddress(t)) == Configures(GreSetMtu(t)) == Configures(GreSetUp(t)) == Some(Interface(name));
  }

  /** One more command: it makes the interface, sets it up, or leaves it alone. */
  lemma OneSetting(names: Gre -> Id, s: System, commands: seq<Command>, name: Id, t: Tunnel)
    requires |commands| > 0 && t.greInterface == name
    requires var c := commands[|commands| - 1];
             && !Removes(names, c, Interface(name))
             && (Configures(c) == Some(Interface(name)) ==> c.tunnel == t && Interface(name) in s.resources)
    requires Interface(name) !in s.resources ==> SetBy(commands[..|commands| - 1], t) == Settings("", 0, false)
    requires Interface(name) in s.resources ==> s.resources[Interface(name)] == SetBy(commands[..|commands| - 1], t)
    ensures var c, s' := commands[|commands| - 1], Effect(names, s, commands[|commands| - 1]).resources;
            && (Interface(name) in s' <==> Interface(name) in s.resources || Creates(names, c) == Some(Interface(name)))
            && (Interface(name) in s' ==> s'[Interface(name)] == SetBy(commands, t))
  {
    var n := |commands| - 1;
    assert commands == commands[..n] + [commands[n]];
  }

  /** No two GRE tunnels of the path have the same interface. */
  ghost predicate InterfacesDiffer(config: Config, path: Path) {
    forall t, u :: (IsUsed(config, path, t) && IsUsed(config, path, u) && t.tunnelType == u.tunnelType == "gre_over_ipsec" &&
                    t.greInterface == u.greInterface) ==> t == u
  }

  lemma MadeThenSetConcat(names: Gre -> Id, a: seq<Command>, b: seq<Command>, name: Id, t: Tunnel)
    requires MadeThenSet(names, a, name, t) && MadeThenSet(names, b, name, t)
    ensures MadeThenSet(names, a + b, name, t)
  {
    hide Creates;
    var all := a + b;
    forall j | 0 <= j < |all| && Configures(all[j]) == Some(Interface(name))
      ensures all[j].tunnel == t && exists i :: 0 <= i < j && Creates(names, all[i]) == Some(Interface(name))
    {
      if j < |a| {
        assert all[j] == a[j];
        var i :| 0 <= i < j && Creates(names, a[i]) == Some(Interface(name));
        assert all[i] == a[i];
      } else {
        assert all[j] == b[j - |a|];
        var i :| 0 <= i < j - |a| && Creates(names, b[i]) == Some(Interface(name));
        assert all[|a| + i] == b[i];
      }
    }
  }

  lemma {:induction false} MadeThenSetParts(names: Gre -> Id, parts: seq<seq<Step>>, name: Id, t: Tunnel)
    requires forall i :: 0 <= i < |parts| ==> MadeThenSet(names, Commands(parts[i]), name, t)
    ensures MadeThenSet(names, Commands(Concat(parts)), name, t)
    decreases |parts|
  {
    hide MadeThenSet;
    if |parts| == 0 {
      NothingSet(names, [], name, t);
      assert Commands(Concat(parts)) == [];
    } else {
      var n := |parts| - 1;
      MadeThenSetParts(names, parts[..n], name, t);
      MadeThenSetConcat(names, Commands(Concat(parts[..n])), Commands(parts[n]), name, t);
      CommandsConcat(Concat(parts[..n]), parts[n]);
    }
  }

  lemma CommandsConcat(a: seq<Step>, b: seq<Step>)
    ensures Commands(a + b) == Commands(a) + Commands(b)
  {
  }

  lemma NothingSet(names: Gre -> Id, commands: seq<Command>, name: Id, t: Tunnel)
    requires forall j :: 0 <= j < |commands| ==> Configures(commands[j]).None?
    ensures MadeThenSet(names, commands, name, t)
  {
  }

  lemma GrePartMadeThenSet(names: Gre -> Id, ts: seq<Tunnel>, i: nat, name: Id, t: Tunnel)
    requires i < |ts| && IsGre(t) && t.greInterface == name
    requires IsGre(ts[i]) ==> names(GreOf(ts[i])) == ts[i].greInterface && (ts[i].greInterface == name ==> ts[i] == t)
    ensures MadeThenSet(names, Commands(GrePart(ts, i)), name, t)
  {
    hide GreOf, SeenIn;
    if GrePart(ts, i) != [] {
      var commands := Commands(GreSteps(ts[i]));
      assert commands[0] == GreCreate(ts[i]);
      assert forall j :: 0 < j < |commands| ==> Configures(commands[j]) == Some(Interface(ts[i].greInterface)) && commands[j].tunnel == ts[i];
      assert Configures(commands[0]).None?;
    }
  }

  /** In a plan every interface is made, and then set up by its own tunnel. */
  lemma PlanMadeThenSet(names: Gre -> Id, config: Config, intent: Intent, path: Path, file: string, t: Tunnel)
    requires Plannable(config, path) && NamedAsConfigured(names, config, path) && InterfacesDiffer(config, path)
    requires IsUsed(config, path, t) && IsGre(t)
    ensures MadeThenSet(names, Commands(PlanSteps(config, intent, path, file)), t.greInterface, t)
  {
    hide IsUsed, FindTunnel, Concat, MadeThenSet, GrePart, RouteSteps, Configures;
    var ts, name := PathTunnels(config, path), t.greInterface;
    UsedAreTunnels(config, path);
    forall i | 0 <= i < |ts| ensures MadeThenSet(names, Commands(GreParts(ts)[i]), name, t) {
      assert ts[i] in ts;
      GrePartMadeThenSet(names, ts, i, name, t);
    }
    MadeThenSetParts(names, GreParts(ts), name, t);
    var first, blocks, routes := [Step(LoadConnections(file), None)] + Concat(InitiateParts(ts)),
      (if intent.blockNonIpsec then Concat(BlockParts(ts)) else []), RouteSteps(config, path);
    OthersSetNothing(config, path, intent.blockNonIpsec, file, first, blocks, routes);
    NothingSet(names, Commands(first), name, t);
    NothingSet(names, Commands(blocks), name, t);
    NothingSet(names, Commands(routes), name, t);
    var gres := Concat(GreParts(ts));
    MadeThenSetConcat(names, Commands(first), Commands(gres), name, t);
    MadeThenSetConcat(names, Commands(first) + Commands(gres), Commands(blocks), name, t);
    MadeThenSetConcat(names, Commands(first) + Commands(gres) + Commands(blocks), Commands(routes), name, t);
    CommandsConcat(first, gres);
    CommandsConcat(first + gres, blocks);
    CommandsConcat(first + gres + blocks, routes);
    assert PlanSteps(config, intent, path, file) == first + gres + blocks + routes;
  }

  lemma OthersSetNothing(config: Config, path: Path, blocking: bool, file: string, first: seq<Step>, blocks: seq<Step>, routes: seq<Step>)
    requires Plannable(config, path) && first == [Step(LoadConnections(file), None)] + Concat(InitiateParts(PathTunnels(config, path)))
    requires blocks == if blocking then Concat(BlockParts(PathTunnels(config, path))) else []
    requires routes == RouteSteps(config, path)
    ensures forall j :: 0 <= j < |first| ==> Configures(Commands(first)[j]).None?
    ensures forall j :: 0 <= j < |blocks| ==> Configures(Commands(blocks)[j]).None?
    ensures forall j :: 0 <= j < |routes| ==> Configures(Commands(routes)[j]).None?
  {
    hide FindTunnel, Concat, RouteSteps, PathTunnels;
    var ts := PathTunnels(config, path);
    forall s | s in first || s in blocks || s in routes ensures Configures(s.command).None? {
      ConcatMember(InitiateParts(ts), s);
      ConcatMember(BlockParts(ts), s);
      if s in routes { RouteShape(config, path, s); }
    }
  }

  lemma GreAllSet(names: Gre -> Id, config: Config, intent: Intent, path: Path, file: string, t: Tunnel)
    requires Plannable(config, path) && IsUsed(config, path, t) && IsGre(t)
    ensures var commands := Commands(PlanSteps(config, intent, path, file));
            GreSetAddress(t) in commands && GreSetUp(t) in commands && (GreSetMtu(t) in commands <==> t.greMtu > 0)
  {
    hide FindTunnel, Concat, RouteSteps, IsUsed;
    var ts, steps := PathTunnels(config, path), PlanSteps(config, intent, path, file);
    UsedAreTunnels(config, path);
    var i :| 0 <= i < |ts| && ts[i] == t;
    TunnelsConsistent(config, path);
    var p := FirstUse(ts, i);
    var part := GreSteps(t);
    assert GreParts(ts)[p] == part;
    forall s | s in part ensures s.command in Commands(steps) {
      ConcatMember(GreParts(ts), s);
      StepsCommand(steps, s);
    }
    assert part[1].command == GreSetAddress(t) && part[|part| - 1].command == GreSetUp(t);
    if t.greMtu > 0 { assert part[2].command == GreSetMtu(t); }
    if GreSetMtu(t) in Commands(steps) {
      var k :| 0 <= k < |steps| && steps[k].command == GreSetMtu(t);
      OnlyGreSetsMtu(config, intent, path, file, steps[k]);
    }
  }

  lemma StepsCommand(steps: seq<Step>, s: Step)
    requires s in steps
    ensures s.command in Commands(steps)
  {
    var k :| 0 <= k < |steps| && steps[k] == s;
    assert Commands(steps)[k] == s.command;
  }

  lemma OnlyGreSetsMtu(config: Config, intent: Intent, path: Path, file: string, s: Step)
    requires Plannable(config, path) && s in PlanSteps(config, intent, path, file) && s.command.GreSetMtu?
    ensures s.command.tunnel.greMtu > 0
  {
    hide FindTunnel, Concat, RouteSteps, PathTunnels;
    var ts := PathTunnels(config, path);
    if s in RouteSteps(config, path) { RouteShape(config, path, s); }
    ConcatMember(InitiateParts(ts), s);
    ConcatMember(GreParts(ts), s);
    ConcatMember(BlockParts(ts), s);
  }

  /** The interface of a GRE tunnel has its address and MTU, and is up. */
  ghost predicate IsSetUp(s: Resources, t: Tunnel) {
    && Interface(t.greInterface) in s
    && s[Interface(t.greInterface)] == Settings(t.greLocalAddress, if t.greMtu > 0 then t.greMtu else 0, true)
  }

  lemma PlanSetsUp(names: Gre -> Id, s0: System, config: Config, intent: Intent, path: Path, file: string, t: Tunnel)
    requires Plannable(config, path) && FreshFor(names, s0.resources, config, intent, path, file) && InterfacesDiffer(config, path)
    requires IsUsed(config, path, t) && IsGre(t)
    ensures IsSetUp(Effects(names, s0, Commands(PlanSteps(config, intent, path, file))).resources, t)
  {
    hide IsUsed, InterfacesDiffer, FindTunnel, PlanSteps, MadeThenSet, Creates, Removes, FreshFor, NamedAsConfigured, PathTunnels;
    var steps := PlanSteps(config, intent, path, file);
    var commands := Commands(steps);
    FreshIsNamed(names, s0.resources, config, intent, path, file);
    UsedAreTunnels(config, path);
    GreInterfaceIsNew(names, s0.resources, config, intent, path, file, t);
    PlanMadeThenSet(names, config, intent, path, file, t);
    PlanIsClean(names, s0.resources, config, intent, path, file);
    forall j | 0 <= j < |commands| ensures !Removes(names, commands[j], Interface(t.greInterface)) {
      assert Clean(names, s0.resources, steps[j]);
    }
    SettingsAfter(names, s0, commands, t.greInterface, t);
    GreAllSet(names, config, intent, path, file, t);
    var s := WantedInterfaceIsMade(names, config, intent, path, file, t);
    StepsCommand(steps, s);
    var k :| 0 <= k < |commands| && commands[k] == s.command;
  }

  lemma FreshIsNamed(names: Gre -> Id, s0: Resources, config: Config, intent: Intent, path: Path, file: string)
    requires Plannable(config, path) && FreshFor(names, s0, config, intent, path, file)
    ensures NamedAsConfigured(names, config, path)
  {
  }

  // ----- the connections -----

  lemma {:induction false} OnlyLoadsThis(names: Gre -> Id, s0: System, commands: seq<Command>, file: string)
    requires forall k :: 0 <= k < |commands| ==> (commands[k].LoadConnections? <==> k == 0)
    requires |commands| > 0 ==> commands[0] == LoadConnections(file)
    ensures Effects(names, s0, commands).loaded == s0.loaded + if |commands| == 0 then {} else {Split(file)}
    decreases |commands|
  {
    if |commands| > 0 {
      OnlyLoadsThis(names, s0, commands[..|commands| - 1], file);
    }
  }

  lemma OneLoad(config: Config, intent: Intent, path: Path, file: string)
    requires Plannable(config, path)
    ensures var commands := Commands(PlanSteps(config, intent, path, file));
            && |commands| > 0 && commands[0] == LoadConnections(file)
            && forall k :: 0 < k < |commands| ==> !commands[k].LoadConnections?
  {
    hide FindTunnel, Concat, RouteSteps, PathTunnels;
    var ts, steps := PathTunnels(config, path), PlanSteps(config, intent, path, file);
    var rest := Concat(InitiateParts(ts)) + Concat(GreParts(ts)) + (if intent.blockNonIpsec then Concat(BlockParts(ts)) else []) + RouteSteps(config, path);
    assert steps == [Step(LoadConnections(file), None)] + rest;
    forall s | s in rest ensures !s.command.LoadConnections? {
      ConcatMember(InitiateParts(ts), s);
      ConcatMember(GreParts(ts), s);
      ConcatMember(BlockParts(ts), s);
      if s in RouteSteps(config, path) { RouteShape(config, path, s); }
    }
    assert forall k :: 0 < k < |steps| ==> steps[k] == rest[k - 1] && rest[k - 1] in rest;
  }

  lemma PlanNotEmpty(config: Config, intent: Intent, path: Path, file: string)
    requires Plannable(config, path)
    ensures |PlanSteps(config, intent, path, file)| > 0
  {
  }

  /** The connection file is loaded before anything else is done, and no other file is. */
  lemma ConnectionsFirst(names: Gre -> Id, s0: System, config: Config, intent: Intent, path: Path, file: string, n: nat)
    requires Plannable(config, path) && n <= |PlanSteps(config, intent, path, file)|
    ensures var s := Effects(names, s0, Commands(PlanSteps(config, intent, path, file)[..n]));
            && (n == 0 ==> s == s0)
            && (n > 0 ==> s.loaded == s0.loaded + {Split(file)})
  {
    hide PlanSteps, Effects;
    var steps := PlanSteps(config, intent, path, file);
    OneLoad(config, intent, path, file);
    var commands := Commands(steps[..n]);
    assert forall k :: 0 <= k < n ==> commands[k] == Commands(steps)[k];
    OnlyLoadsThis(names, s0, commands, file);
    if n == 0 { EffectsNone(names, s0); }
  }

  // ----- the whole deployment -----

  /** Deploying a path on a system that has nothing of it yet. If that succeeds, what was there before is
      untouched and what has been added is exactly what is wanted, every GRE interface with its address and
      MTU and up, unless two tunnels share an interface; if it fails, nothing has changed, or an undo command
      failed too and only what was wanted can be left over. */
  method DeployPath(host: Host, config: Config, intent: Intent, path: Path, file: string) returns (built: ErrorCode, err: ErrorCode)
    requires Plannable(config, path) ==> FreshFor(host.names, host.state.resources, config, intent, path, file)
    modifies host
    ensures built != ErrNone ==> err == built && host.state == old(host.state)
    ensures built == ErrNone ==>
              var s0, s := old(host.state.resources), host.state.resources;
              && err in {ErrNone, ErrStateConflict, ErrRollbackFailed}
              && (err == ErrNone ==> host.state.loaded == old(host.state.loaded) + {Split(file)})
              && (forall r :: r in s0 ==> r in s && s[r] == s0[r])
              && (forall r :: r in s ==> r in s0 || IsWanted(config, intent, path, r))
              && (err == ErrNone ==> forall r :: IsWanted(config, intent, path, r) ==> r in s)
              && (err == ErrNone && InterfacesDiffer(config, path) ==>
                    forall t :: IsUsed(config, path, t) && t.tunnelType == "gre_over_ipsec" ==> IsSetUp(s, t))
              && (err == ErrStateConflict ==> s == s0)
  {
    hide FreshFor, PlanSteps, Created, IsWanted, IsUsed, InterfacesDiffer, IsSetUp, Effects, FindTunnel, NamedAsConfigured;
    ghost var s0 := host.state;
    built, err := Deploy(host, config, intent, path, file);
    if built == ErrNone {
      FreshIsNamed(host.names, s0.resources, config, intent, path, file);
      CreatedIsWanted(host.names, config, intent, path, file);
      var steps := PlanSteps(config, intent, path, file);
      assert steps[..|steps|] == steps;
      PlanNotEmpty(config, intent, path, file);
      ConnectionsFirst(host.names, s0, config, intent, path, file, |steps|);
      if err == ErrNone && InterfacesDiffer(config, path) {
        forall t | IsUsed(config, path, t) && t.tunnelType == "gre_over_ipsec" ensures IsSetUp(host.state.resources, t) {
          PlanSetsUp(host.names, s0, config, intent, path, file, t);
        }
      }
    }
  }
}
