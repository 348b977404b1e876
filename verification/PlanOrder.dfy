/** The order of a plan and of its rollback list (src/apply_plan.c:134-304), command by command: a path is built up from
    its tunnels to its routes, and taken back so that no route loses its interface before it is gone, and no tunnel is
    left without its policies. */
module PlanOrder {
  import opened Model
  import opened Argv
  import opened ApplyPlan
  import opened PlanBuilder
  import opened PlanLaws
  import opened Deployment

  /** The state after the plan and the first `n` commands of its rollback list. */
  ghost function After(names: Gre -> Id, s0: System, config: Config, intent: Intent, path: Path, file: string, n: nat): System
    requires Plannable(config, path) && n <= |PlanRollbacks(config, intent, path)|
  {
    Effects(names, Effects(names, s0, Commands(PlanSteps(config, intent, path, file))), PlanRollbacks(config, intent, path)[..n])
  }

  /** One of these commands removes the resource. */
  ghost predicate RemovedBy(names: Gre -> Id, commands: seq<Command>, r: Resource) {
    exists c :: c in commands && Removes(names, c, r)
  }

  /** What is there after the first commands: what was there or was made, and was not removed. */
  lemma AfterHolds(names: Gre -> Id, s0: System, config: Config, intent: Intent, path: Path, file: string, n: nat)
    requires Plannable(config, path) && FreshFor(names, s0.resources, config, intent, path, file)
    requires n <= |PlanRollbacks(config, intent, path)|
    ensures forall r :: r in After(names, s0, config, intent, path, file, n).resources <==>
              (r in s0.resources || r in Created(names, PlanSteps(config, intent, path, file))) &&
              !RemovedBy(names, PlanRollbacks(config, intent, path)[..n], r)
  {
    hide PlanSteps, PlanRollbacks, Created, FreshFor, OnlyRemoves, Removes, Effects, AllClean, AllUndoable, AllReversible;
    var steps, list := PlanSteps(config, intent, path, file), PlanRollbacks(config, intent, path);
    PlanIsClean(names, s0.resources, config, intent, path, file);
    ForwardAdds(names, s0, steps);
    ListOnlyRemoves(names, s0.resources, config, intent, path, file);
    assert forall c :: c in list[..n] ==> c in list;
    RemovalsEffect(names, Effects(names, s0, Commands(steps)), list[..n]);
  }

  /** The texts of the rollback list of a plan that could be built do what its commands are meant to do. */
  lemma ListSaysWhatItMeans(names: Gre -> Id, s: System, config: Config, intent: Intent, path: Path, file: string)
    requires Buildable(config, intent, path, file)
    ensures AllSaid(names, s, PlanRollbacks(config, intent, path)) == Effects(names, s, PlanRollbacks(config, intent, path))
  {
    hide PlanSteps, PlanRollbacks, Readable, AllSaid, Effects, LegacyTeardown, FindTunnel;
    var steps := PlanSteps(config, intent, path, file);
    forall c | c in PlanRollbacks(config, intent, path) ensures Readable(c) {
      RollbackIsUndo(config, intent, path, file, c);
      if UndoesOne(steps, c) {
        var k :| 0 <= k < |steps| && steps[k].undo == Some(c);
        PlanIsReadable(config, intent, path, file, steps[k]);
      } else {
        TeardownReadable(config, intent, path, file);
      }
    }
    AllSaidIsEffects(names, s, PlanRollbacks(config, intent, path));
  }

  lemma TeardownReadable(config: Config, intent: Intent, path: Path, file: string)
    requires Buildable(config, intent, path, file) && |path.routes| == 0
    ensures Readable(LegacyTeardown(path, FindTunnel(config.tunnels, path.egressTunnelId).value))
  {
    hide Prelude, Concat, FindTunnel, CommandText, LegacyRoute;
    var egress := FindTunnel(config.tunnels, path.egressTunnelId).value;
    var s := RouteSteps(config, path)[0];
    assert s in PlanSteps(config, intent, path, file);
    assert Printable(s);
    LegacyTeardownText(path, egress);
    TeardownLegible(path, egress);
  }

  lemma TeardownLegible(path: Path, egress: Tunnel)
    requires CommandText(LegacyUndo(path, egress)).Some?
    ensures Legible(LegacyTeardown(path, egress))
  {
    if IsGre(egress) {
      assert Resolved(Route("", "", path.routeDestinationPrefix, "", "", -1, -1), egress) == GreRoute(path.routeDestinationPrefix, egress);
    }
  }

  // ----- the order of the list -----

  /** The kinds of commands, in the order they have to come in: those of a plan, and those of its rollback list. */
  function Turn(c: Command): nat {
    match c
    case LoadConnections(_) => 0
    case Initiate(_) => 1
    case GreCreate(_) => 2
    case GreSetAddress(_) => 2
    case GreSetMtu(_) => 2
    case GreSetUp(_) => 2
    case BlockAdd(_) => 3
    case RouteAdd(_) => 4
    case RouteDelete(_) => 0
    case GreRouteDelete(_, _) => 0
    case RouteDeletePrefix(_) => 0
    case GreDelete(_) => 1
    case Terminate(_) => 2
    case BlockDelete(_) => 3
  }

  ghost predicate OfTurn(commands: seq<Command>, turn: nat) { forall c :: c in commands ==> Turn(c) == turn }

  ghost predicate InTurn(commands: seq<Command>) {
    forall i, k :: 0 <= i < k < |commands| ==> Turn(commands[i]) <= Turn(commands[k])
  }

  lemma InTurnConcat(a: seq<Command>, b: seq<Command>, turn: nat)
    requires InTurn(a) && OfTurn(b, turn) && forall c :: c in a ==> Turn(c) <= turn
    ensures InTurn(a + b) && forall c :: c in a + b ==> Turn(c) <= turn
  {
    forall i, k | 0 <= i < k < |a + b| ensures Turn((a + b)[i]) <= Turn((a + b)[k]) {
      if k < |a| { assert (a + b)[i] == a[i] && (a + b)[k] == a[k]; }
      else { assert (a + b)[k] == b[k - |a|] && b[k - |a|] in b && ((a + b)[i] in a || (a + b)[i] in b); }
    }
  }

  lemma ListParts(config: Config, path: Path)
    requires Plannable(config, path)
    ensures var ts := PathTunnels(config, path);
            && OfTurn(RouteRollbacks(config, path), 0) && OfTurn(Concat(GreDeleteParts(ts)), 1)
            && OfTurn(Concat(TerminateParts(ts)), 2) && OfTurn(Concat(BlockDeleteParts(ts)), 3)
  {
    hide Concat, FindTunnel, PathTunnels, Through;
    var ts := PathTunnels(config, path);
    forall c ensures c in RouteRollbacks(config, path) ==> Turn(c) == 0 {
      if |path.routes| > 0 { ConcatMember(RouteDeleteParts(path.routes, FirstGre(ts)), c); }
    }
    forall c ensures c in Concat(GreDeleteParts(ts)) ==> Turn(c) == 1 {
      ConcatMember(GreDeleteParts(ts), c);
      assert forall k :: 0 <= k < |ts| ==> GreDeleteParts(ts)[k] == GreDeletePart(ts, |ts| - 1 - k);
    }
    forall c ensures c in Concat(TerminateParts(ts)) ==> Turn(c) == 2 { ConcatMember(TerminateParts(ts), c); }
    forall c ensures c in Concat(BlockDeleteParts(ts)) ==> Turn(c) == 3 { ConcatMember(BlockDeleteParts(ts), c); }
  }

  /** Routes go before interfaces, interfaces before tunnels, and tunnels before policies. */
  lemma ListInTurn(config: Config, intent: Intent, path: Path)
    requires Plannable(config, path)
    ensures InTurn(PlanRollbacks(config, intent, path))
  {
    hide Concat, PathTunnels, FindTunnel, RouteRollbacks, GreDeleteParts, TerminateParts, BlockDeleteParts;
    var ts := PathTunnels(config, path);
    ListParts(config, path);
    var a, b, c, d := RouteRollbacks(config, path), Concat(GreDeleteParts(ts)), Concat(TerminateParts(ts)),
      if intent.blockNonIpsec then Concat(BlockDeleteParts(ts)) else [];
    InTurnAll(a, b, c, d);
  }

  lemma InTurnAll(a: seq<Command>, b: seq<Command>, c: seq<Command>, d: seq<Command>)
    requires OfTurn(a, 0) && OfTurn(b, 1) && OfTurn(c, 2) && OfTurn(d, 3)
    ensures InTurn(a + b + c + d)
  {
    hide Turn;
    assert forall i :: 0 <= i < |a| ==> a[i] in a;
    InTurnConcat(a, b, 1);
    InTurnConcat(a + b, c, 2);
    InTurnConcat(a + b + c, d, 3);
  }

  /** Once a command of a later kind has run, all of an earlier kind have. */
  lemma EarlierDone(commands: seq<Command>, n: nat, c: Command, late: Command)
    requires n <= |commands| && InTurn(commands)
    requires c in commands && late in commands[..n] && Turn(c) < Turn(late)
    ensures c in commands[..n]
  {
    var i :| 0 <= i < |commands| && commands[i] == c;
    var k :| 0 <= k < n && commands[..n][k] == late;
    assert commands[k] == late && i < k;
    assert commands[..n][i] == c;
  }

  lemma TurnOf(names: Gre -> Id, c: Command, r: Resource)
    requires Removes(names, c, r)
    ensures Turn(c) == if r.Routed? then 0 else if r.Interface? then 1 else if r.TunnelUp? then 2 else 3
  {
  }

  // ----- building up -----

  /** Tunnels come before the interfaces on them, these before the policies, and routes come last. */
  function Level(r: Resource): nat {
    match r
    case TunnelUp(_) => 1
    case Interface(_) => 2
    case Blocked(_) => 3
    case Routed(_) => 4
  }

  lemma PlanInTurn(config: Config, intent: Intent, path: Path, file: string)
    requires Plannable(config, path)
    ensures InTurn(Commands(PlanSteps(config, intent, path, file)))
  {
    hide Concat, PathTunnels, FindTunnel, RouteSteps, InitiateParts, GreParts, BlockParts, InTurn, OfTurn;
    var ts := PathTunnels(config, path);
    PlanParts(config, path, file);
    var a, b, c := [Step(LoadConnections(file), None)], Concat(InitiateParts(ts)), Concat(GreParts(ts));
    var d, e := if intent.blockNonIpsec then Concat(BlockParts(ts)) else [], RouteSteps(config, path);
    NoneOfTurn(3);
    InTurnAll(Commands(a), Commands(b), Commands(c), Commands(d));
    InTurnConcat(Commands(a) + Commands(b) + Commands(c) + Commands(d), Commands(e), 4);
    CommandsConcat(a, b);
    CommandsConcat(a + b, c);
    CommandsConcat(a + b + c, d);
    CommandsConcat(a + b + c + d, e);
    assert PlanSteps(config, intent, path, file) == a + b + c + d + e;
  }

  lemma NoneOfTurn(turn: nat)
    ensures OfTurn(Commands([]), turn)
  {
  }

  lemma CommandsOfTurn(steps: seq<Step>, turn: nat)
    requires forall s :: s in steps ==> Turn(s.command) == turn
    ensures OfTurn(Commands(steps), turn)
  {
    forall c | c in Commands(steps) ensures Turn(c) == turn {
      var k :| 0 <= k < |steps| && Commands(steps)[k] == c;
      assert steps[k] in steps;
    }
  }

  lemma PlanParts(config: Config, path: Path, file: string)
    requires Plannable(config, path)
    ensures var ts := PathTunnels(config, path);
            && OfTurn(Commands([Step(LoadConnections(file), None)]), 0) && OfTurn(Commands(Concat(InitiateParts(ts))), 1)
            && OfTurn(Commands(Concat(GreParts(ts))), 2) && OfTurn(Commands(Concat(BlockParts(ts))), 3)
            && OfTurn(Commands(RouteSteps(config, path)), 4)
  {
    hide Concat, FindTunnel, PathTunnels, OfTurn, RouteSteps;
    var ts := PathTunnels(config, path);
    forall s ensures s in Concat(InitiateParts(ts)) ==> Turn(s.command) == 1 { ConcatMember(InitiateParts(ts), s); }
    forall s ensures s in Concat(GreParts(ts)) ==> Turn(s.command) == 2 { ConcatMember(GreParts(ts), s); }
    forall s ensures s in Concat(BlockParts(ts)) ==> Turn(s.command) == 3 { ConcatMember(BlockParts(ts), s); }
    forall s ensures s in RouteSteps(config, path) ==> Turn(s.command) == 4 {
      if s in RouteSteps(config, path) { RouteShape(config, path, s); }
    }
    CommandsOfTurn([Step(LoadConnections(file), None)], 0);
    CommandsOfTurn(Concat(InitiateParts(ts)), 1);
    CommandsOfTurn(Concat(GreParts(ts)), 2);
    CommandsOfTurn(Concat(BlockParts(ts)), 3);
    CommandsOfTurn(RouteSteps(config, path), 4);
  }

  /** At every point of a run of the plan: what is there of one level stands on all that the plan makes of the levels
      below. No policy without all tunnels and interfaces, and no route before everything else. */
  lemma BuiltUpInOrder(names: Gre -> Id, s0: System, config: Config, intent: Intent, path: Path, file: string, n: nat, r: Resource, base: Resource)
    requires Plannable(config, path) && FreshFor(names, s0.resources, config, intent, path, file)
    requires n <= |PlanSteps(config, intent, path, file)|
    requires var made := Created(names, PlanSteps(config, intent, path, file)); r in made && base in made && Level(base) < Level(r)
    requires r in Effects(names, s0, Commands(PlanSteps(config, intent, path, file)[..n])).resources
    ensures base in Effects(names, s0, Commands(PlanSteps(config, intent, path, file)[..n])).resources
  {
    hide PlanSteps, Created, FreshFor, Effects, Clean, AllUndoable, AllReversible;
    var steps := PlanSteps(config, intent, path, file);
    PlanIsClean(names, s0.resources, config, intent, path, file);
    assert forall k :: 0 <= k < n ==> steps[..n][k] == steps[k];
    ForwardAdds(names, s0, steps[..n]);
    MadeIsFresh(names, s0.resources, steps, r);
    PlanInTurn(config, intent, path, file);
    MadeBefore(names, steps, n, r, base);
  }

  lemma {:induction false} MadeBefore(names: Gre -> Id, steps: seq<Step>, n: nat, r: Resource, base: Resource)
    requires n <= |steps| && InTurn(Commands(steps)) && Level(base) < Level(r)
    requires r in Created(names, steps[..n]) && base in Created(names, steps)
    ensures base in Created(names, steps[..n])
  {
    CreatedMember(names, steps[..n], r);
    CreatedMember(names, steps, base);
    CreatedMember(names, steps[..n], base);
    var k :| 0 <= k < n && Creates(names, steps[..n][k].command) == Some(r);
    var m :| 0 <= m < |steps| && Creates(names, steps[m].command) == Some(base);
    assert steps[..n][k] == steps[k];
    MakesAtLevel(names, steps[k].command);
    MakesAtLevel(names, steps[m].command);
    assert Commands(steps)[k] == steps[k].command && Commands(steps)[m] == steps[m].command;
    assert m < k && steps[..n][m] == steps[m];
  }

  lemma MakesAtLevel(names: Gre -> Id, c: Command)
    requires Creates(names, c).Some?
    ensures Turn(c) == Level(Creates(names, c).value)
  {
  }

  // ----- routes and interfaces -----

  /** Wherever the rollback list is cut short, as long as every command so far worked: no route of the plan is left
      that points at an interface of the plan already taken away. That holds exactly if the list names the routes of
      the plan, or the one it misnames does not run through one of these interfaces. */
  lemma NoRouteDangles(names: Gre -> Id, s0: System, config: Config, intent: Intent, path: Path, file: string)
    requires Plannable(config, path) && FreshFor(names, s0.resources, config, intent, path, file)
    requires forall r :: r in s0.resources && r.Routed? ==>
               Interface(r.fib.interfaceName) !in Created(names, PlanSteps(config, intent, path, file))
    ensures (forall n: nat :: n <= |PlanRollbacks(config, intent, path)| ==>
               NothingDangles(After(names, s0, config, intent, path, file, n).resources, Created(names, PlanSteps(config, intent, path, file))))
            <==> !MisnamedInside(names, config, intent, path, file)
  {
    hide PlanSteps, PlanRollbacks, Created, FreshFor, Removes, After, RollbackListNames, LegacyRoute, FindTunnel;
    var made, list := Created(names, PlanSteps(config, intent, path, file)), PlanRollbacks(config, intent, path);
    if MisnamedInside(names, config, intent, path, file) {
      MisnamedDangles(names, s0, config, intent, path, file);
    } else {
      forall n: nat | n <= |list| ensures NothingDangles(After(names, s0, config, intent, path, file, n).resources, made) {
        AfterHolds(names, s0, config, intent, path, file, n);
        forall r | r in After(names, s0, config, intent, path, file, n).resources && r.Routed? && Interface(r.fib.interfaceName) in made
          ensures Interface(r.fib.interfaceName) in After(names, s0, config, intent, path, file, n).resources
        {
          if RemovedBy(names, list[..n], Interface(r.fib.interfaceName)) {
            RouteGoneFirst(names, config, intent, path, file, n, r);
          }
        }
      }
    }
  }

  /** The rollback list misnames a route that runs through an interface the plan made. */
  ghost predicate MisnamedInside(names: Gre -> Id, config: Config, intent: Intent, path: Path, file: string)
    requires Plannable(config, path)
  {
    && !RollbackListNames(config, path)
    && Interface(LegacyRoute(path, FindTunnel(config.tunnels, path.egressTunnelId).value).interfaceName) in
       Created(names, PlanSteps(config, intent, path, file))
  }

  lemma RouteGoneFirst(names: Gre -> Id, config: Config, intent: Intent, path: Path, file: string, n: nat, r: Resource)
    requires Plannable(config, path) && n <= |PlanRollbacks(config, intent, path)|
    requires !MisnamedInside(names, config, intent, path, file)
    requires r.Routed? && r in Created(names, PlanSteps(config, intent, path, file))
    requires Interface(r.fib.interfaceName) in Created(names, PlanSteps(config, intent, path, file))
    requires RemovedBy(names, PlanRollbacks(config, intent, path)[..n], Interface(r.fib.interfaceName))
    ensures RemovedBy(names, PlanRollbacks(config, intent, path)[..n], r)
  {
    hide PlanSteps, PlanRollbacks, Created, Removes, RollbackListNames, LegacyRoute, FindTunnel;
    var list := PlanRollbacks(config, intent, path);
    ListInTurn(config, intent, path);
    var late :| late in list[..n] && Removes(names, late, Interface(r.fib.interfaceName));
    TurnOf(names, late, Interface(r.fib.interfaceName));
    RouteInsideIsNamed(names, config, intent, path, file, r);
    var c :| c in list && Removes(names, c, r);
    TurnOf(names, c, r);
    EarlierDone(list, n, c, late);
  }

  lemma RouteInsideIsNamed(names: Gre -> Id, config: Config, intent: Intent, path: Path, file: string, r: Resource)
    requires Plannable(config, path)
    requires !MisnamedInside(names, config, intent, path, file)
    requires r.Routed? && r in Created(names, PlanSteps(config, intent, path, file))
    requires Interface(r.fib.interfaceName) in Created(names, PlanSteps(config, intent, path, file))
    ensures exists c :: c in PlanRollbacks(config, intent, path) && Removes(names, c, r)
  {
    hide Prelude, PlanRollbacks, Created, Removes, RouteSteps, LegacyRoute, FindTunnel;
    if RollbackListNames(config, path) {
      CreatedIsRemoved(names, config, intent, path, file, r);
    } else {
      RoutesAreLegacy(names, config, intent, path, file, r);
    }
  }

  /** A path without a route list has one route. */
  lemma RoutesAreLegacy(names: Gre -> Id, config: Config, intent: Intent, path: Path, file: string, r: Resource)
    requires Plannable(config, path) && |path.routes| == 0
    requires r.Routed? && r in Created(names, PlanSteps(config, intent, path, file))
    ensures r.fib.interfaceName == LegacyRoute(path, FindTunnel(config.tunnels, path.egressTunnelId).value).interfaceName
  {
    hide Prelude, Concat, LegacyRoute, FindTunnel, LegacyUndo;
    var ts := PathTunnels(config, path);
    var steps, prelude := PlanSteps(config, intent, path, file), Prelude(ts, intent.blockNonIpsec, file);
    CreatedMember(names, steps, r);
    var k :| 0 <= k < |steps| && Creates(names, steps[k].command) == Some(r);
    if k < |prelude| {
      PreludeShape(ts, intent.blockNonIpsec, file, steps[k]);
    } else {
      assert steps[k] == RouteSteps(config, path)[k - |prelude|];
    }
  }

  lemma MisnamedDangles(names: Gre -> Id, s0: System, config: Config, intent: Intent, path: Path, file: string)
    requires Plannable(config, path) && FreshFor(names, s0.resources, config, intent, path, file)
    requires MisnamedInside(names, config, intent, path, file)
    ensures !NothingDangles(After(names, s0, config, intent, path, file, |PlanRollbacks(config, intent, path)|).resources,
                            Created(names, PlanSteps(config, intent, path, file)))
  {
    hide PlanSteps, PlanRollbacks, Created, FreshFor, Removes, After, LegacyRoute, FindTunnel;
    var list := PlanRollbacks(config, intent, path);
    var n := |list|;
    AfterHolds(names, s0, config, intent, path, file, n);
    assert list[..n] == list;
    var made := MisnamedRouteStays(names, config, intent, path, file);
    assert made in After(names, s0, config, intent, path, file, n).resources;
    RoutesAreLegacy(names, config, intent, path, file, made);
    CreatedIsRemoved(names, config, intent, path, file, Interface(made.fib.interfaceName));
  }

  // ----- tunnels and policies -----

  /** As long as a tunnel of the path is up, the policies that block what would bypass it are in place. */
  lemma NoTunnelUnprotected(names: Gre -> Id, s0: System, config: Config, intent: Intent, path: Path, file: string, n: nat, t: Tunnel, b: Block)
    requires Plannable(config, path) && FreshFor(names, s0.resources, config, intent, path, file)
    requires n <= |PlanRollbacks(config, intent, path)|
    requires intent.blockNonIpsec && IsUsed(config, path, t) && Blocks(b, t)
    requires TunnelUp(t.tunnelId) in After(names, s0, config, intent, path, file, n).resources
    ensures Blocked(b) in After(names, s0, config, intent, path, file, n).resources
  {
    hide PlanSteps, PlanRollbacks, Created, FreshFor, Removes, After, FindTunnel, IsUsed, Blocks, InTurn;
    var list := PlanRollbacks(config, intent, path);
    AfterHolds(names, s0, config, intent, path, file, n);
    ListInTurn(config, intent, path);
    PolicyIsMade(names, s0, config, intent, path, file, t, b);
    if late :| late in list[..n] && Removes(names, late, Blocked(b)) {
      TurnOf(names, late, Blocked(b));
      TunnelIsTerminated(config, intent, path, t);
      EarlierDone(list, n, Terminate(t), late);
      TerminateRemoves(names, t);
    }
  }

  lemma TerminateRemoves(names: Gre -> Id, t: Tunnel)
    ensures Removes(names, Terminate(t), TunnelUp(t.tunnelId)) && Turn(Terminate(t)) == 2
  {
  }

  lemma PolicyIsMade(names: Gre -> Id, s0: System, config: Config, intent: Intent, path: Path, file: string, t: Tunnel, b: Block)
    requires Plannable(config, path) && FreshFor(names, s0.resources, config, intent, path, file)
    requires intent.blockNonIpsec && IsUsed(config, path, t) && Blocks(b, t)
    ensures Blocked(b) in Created(names, PlanSteps(config, intent, path, file))
  {
    hide PlanSteps, Created, FreshFor, FindTunnel, IsUsed, Blocks;
    FreshIsNamed(names, s0.resources, config, intent, path, file);
    CreatedIsWanted(names, config, intent, path, file);
    assert IsWanted(config, intent, path, Blocked(b));
  }

  lemma TunnelIsTerminated(config: Config, intent: Intent, path: Path, t: Tunnel)
    requires Plannable(config, path) && IsUsed(config, path, t)
    ensures Terminate(t) in PlanRollbacks(config, intent, path)
  {
    hide Concat, IsUsed, FindTunnel, RouteRollbacks, GreDeleteParts, BlockDeleteParts;
    var ts := PathTunnels(config, path);
    UsedAreTunnels(config, path);
    var i :| 0 <= i < |ts| && ts[i] == t;
    assert TerminateParts(ts)[|ts| - 1 - i] == [Terminate(t)];
    ConcatMember(TerminateParts(ts), Terminate(t));
    RollbackMember(config, intent, path, Terminate(t));
  }
}
