/** Whole plans (src/apply_plan.c): a built plan that fails leaves nothing behind, no route ever points at a
    missing GRE interface, and exactly when the rollback list takes a plan back. */
module PlanLaws {
  import opened Model
  import opened Argv
  import opened Render
  import opened ApplyPlan
  import opened PlanBuilder

  /** A configuration, an intent and a path whose plan can be laid out. */
  predicate Plannable(config: Config, path: Path) {
    TunnelsKnown(config, path) && EgressKnown(config, path)
  }

  /** Nothing the plan makes is there yet, and the forwarder names each GRE tunnel of the path as configured. */
  ghost predicate FreshFor(names: Gre -> Id, s0: Resources, config: Config, intent: Intent, path: Path, file: string)
    requires Plannable(config, path)
  {
    && (forall s :: s in PlanSteps(config, intent, path, file) ==> forall r :: r in s0 ==> Creates(names, s.command) != Some(r))
    && (forall t :: t in PathTunnels(config, path) && IsGre(t) ==> names(GreOf(t)) == t.greInterface)
  }

  lemma GreInterfaceIsNew(names: Gre -> Id, s0: Resources, config: Config, intent: Intent, path: Path, file: string, t: Tunnel)
    requires Plannable(config, path) && FreshFor(names, s0, config, intent, path, file)
    requires t in PathTunnels(config, path) && IsGre(t)
    ensures Interface(t.greInterface) !in s0
  {
    hide Concat, Prelude, RouteSteps;
    var ts := PathTunnels(config, path);
    var i :| 0 <= i < |ts| && ts[i] == t;
    TunnelsConsistent(config, path);
    GreInPlan(ts, intent.blockNonIpsec, file, i);
    assert Step(GreCreate(t), Some(GreDelete(t))) in PlanSteps(config, intent, path, file);
  }

  /** A step of the expected shape touches nothing that was there. */
  lemma ShapedStepIsClean(names: Gre -> Id, s0: Resources, ts: seq<Tunnel>, s: Step)
    requires StepShape(ts, s) && forall r :: r in s0 ==> Creates(names, s.command) != Some(r)
    requires forall t :: t in ts && IsGre(t) ==> Interface(t.greInterface) !in s0
    ensures Clean(names, s0, s) && Undoable(names, s0, s) && Reversible(names, s)
  {
  }

  lemma LegacyStepIsClean(names: Gre -> Id, s0: Resources, path: Path, egress: Tunnel)
    requires Creates(names, RouteAdd(LegacyRoute(path, egress))).value !in s0
    ensures Clean(names, s0, Step(RouteAdd(LegacyRoute(path, egress)), Some(LegacyUndo(path, egress))))
  {
  }

  lemma PlanIsClean(names: Gre -> Id, s0: Resources, config: Config, intent: Intent, path: Path, file: string)
    requires Plannable(config, path) && FreshFor(names, s0, config, intent, path, file)
    ensures var steps := PlanSteps(config, intent, path, file);
            && AllClean(names, s0, steps) && |steps| > 0
            && AllUndoable(names, s0, steps[..|steps| - 1]) && AllReversible(names, steps[..|steps| - 1])
  {
    hide Concat, Prelude, RouteSteps, Clean, Undoable, Reversible, StepShape, Creates;
    var ts := PathTunnels(config, path);
    var steps := PlanSteps(config, intent, path, file);
    var prelude, routes := Prelude(ts, intent.blockNonIpsec, file), RouteSteps(config, path);
    forall t | t in ts && IsGre(t) ensures Interface(t.greInterface) !in s0 {
      GreInterfaceIsNew(names, s0, config, intent, path, file, t);
    }
    forall k | 0 <= k < |steps|
      ensures Clean(names, s0, steps[k]) && (k < |steps| - 1 || |path.routes| > 0 ==> Undoable(names, s0, steps[k]) && Reversible(names, steps[k]))
    {
      assert steps[k] in steps;
      if k < |prelude| {
        PreludeShape(ts, intent.blockNonIpsec, file, steps[k]);
        ShapedStepIsClean(names, s0, ts, steps[k]);
      } else {
        assert steps[k] == routes[k - |prelude|];
        RouteShape(config, path, steps[k]);
        if |path.routes| > 0 {
          ShapedStepIsClean(names, s0, ts, steps[k]);
        } else {
          LegacyOnly(config, path);
          var egress := FindTunnel(config.tunnels, path.egressTunnelId).value;
          RouteMakes(names, LegacyRoute(path, egress));
          LegacyStepIsClean(names, s0, path, egress);
        }
      }
    }
    PreludeNotEmpty(ts, intent.blockNonIpsec, file);
  }

  lemma RouteMakes(names: Gre -> Id, r: Route)
    ensures Creates(names, RouteAdd(r)) == Some(Routed(FibOf(r)))
  {
  }

  lemma LegacyOnly(config: Config, path: Path)
    requires Plannable(config, path) && |path.routes| == 0
    ensures |RouteSteps(config, path)| == 1
  {
  }

  lemma PreludeNotEmpty(ts: seq<Tunnel>, blocking: bool, file: string)
    ensures |Prelude(ts, blocking, file)| > 0
  {
  }

  /** Deploying a path: build its plan and run it. Either everything the plan makes is there at the end, or,
      whichever command fails, every tunnel, interface, policy and route is as it was; if an undo command
      fails as well, still nothing of before is lost and only resources of the plan can be left over. */
  method Deploy(host: Host, config: Config, intent: Intent, path: Path, file: string) returns (built: ErrorCode, err: ErrorCode)
    requires Plannable(config, path) ==> FreshFor(host.names, host.state.resources, config, intent, path, file)
    modifies host
    ensures built != ErrNone ==> err == built && host.state == old(host.state)
    ensures built == ErrNone ==> Plannable(config, path) && err in {ErrNone, ErrStateConflict, ErrRollbackFailed}
    ensures built == ErrNone ==>
              var s0, s := old(host.state.resources), host.state.resources;
              var created := Created(host.names, PlanSteps(config, intent, path, file));
              && Within(s0, s, created)
              && (err == ErrNone ==>
                    && s.Keys == s0.Keys + created
                    && host.state == Effects(host.names, old(host.state), Commands(PlanSteps(config, intent, path, file))))
              && (err == ErrStateConflict ==> s == s0)
  {
    hide PlanSteps, PlanRollbacks, Effects, AllSaid, Effect, Undone, Created, Within, Executable, AllReversible, AllUndoable, AllClean;
    hide FreshFor, Creates;
    var plan;
    ghost var fits, ran, worked;
    built, plan, fits := Build(config, intent, path, file);
    if built != ErrNone { return built, built; }
    ghost var s0, steps := host.state, plan.steps;
    PlanIsClean(host.names, s0.resources, config, intent, path, file);
    err, ran, worked := Run(plan, host, false);
    PlanSaysWhatItMeans(host.names, s0, config, intent, path, file, ran, worked);
    RunsWithin(host.names, s0, host.state, steps, err, ran, worked);
  }

  /** What the texts of a plan do, run as far as it got and undone, is what its commands are meant to do. */
  lemma PlanSaysWhatItMeans(names: Gre -> Id, s0: System, config: Config, intent: Intent, path: Path, file: string, ran: nat, worked: seq<bool>)
    requires Buildable(config, intent, path, file)
    ensures var steps := PlanSteps(config, intent, path, file);
            && AllSaid(names, s0, Commands(steps)) == Effects(names, s0, Commands(steps))
            && (ran <= |steps| && |worked| == ran ==>
                  AllSaid(names, AllSaid(names, s0, Commands(steps[..ran])), Undone(steps[..ran], worked)) ==
                  Effects(names, Effects(names, s0, Commands(steps[..ran])), Undone(steps[..ran], worked)))
  {
    hide Readable, PlanSteps, Undone, AllSaid, Effects;
    var steps := PlanSteps(config, intent, path, file);
    forall k | 0 <= k < |steps| ensures Readable(steps[k].command) && (steps[k].undo.Some? ==> Readable(steps[k].undo.value)) {
      PlanIsReadable(config, intent, path, file, steps[k]);
    }
    AllSaidIsEffects(names, s0, Commands(steps));
    if ran <= |steps| && |worked| == ran {
      AllSaidIsEffects(names, s0, Commands(steps[..ran]));
      UndoneReadable(steps[..ran], worked);
      AllSaidIsEffects(names, Effects(names, s0, Commands(steps[..ran])), Undone(steps[..ran], worked));
    }
  }

  /** What the outcome of a run means for the resources. */
  lemma RunsWithin(names: Gre -> Id, s0: System, s: System, steps: seq<Step>, err: ErrorCode, ran: nat, worked: seq<bool>)
    requires |steps| > 0 && AllClean(names, s0.resources, steps)
    requires AllUndoable(names, s0.resources, steps[..|steps| - 1]) && AllReversible(names, steps[..|steps| - 1])
    requires err in {ErrNone, ErrStateConflict, ErrRollbackFailed}
    requires err == ErrNone ==> s == Effects(names, s0, Commands(steps))
    requires err != ErrNone ==>
               && ran < |steps| && |worked| == ran
               && s == Effects(names, Effects(names, s0, Commands(steps[..ran])), Undone(steps[..ran], worked))
               && (err == ErrRollbackFailed <==> !AllUndosWorked(steps[..ran], worked))
    ensures Within(s0.resources, s.resources, Created(names, steps))
    ensures err == ErrNone ==> s.resources.Keys == s0.resources.Keys + Created(names, steps)
    ensures err == ErrStateConflict ==> s.resources == s0.resources
  {
    hide Effect, Effects, Undone, Created, Within, Clean, Undoable, Reversible, AllUndosWorked;
    if err == ErrNone {
      ForwardAdds(names, s0, steps);
      WithinKeys(s0.resources, s.resources, Created(names, steps));
    } else {
      var part := steps[..ran];
      ForwardAdds(names, s0, part);
      CreatedSplit(names, steps, ran);
      assert forall k :: 0 <= k < ran ==> part[k] == steps[..|steps| - 1][k];
      WithinMore(s0.resources, Effects(names, s0, Commands(part)).resources, Created(names, part), Created(names, steps));
      BackwardKeeps(names, s0.resources, Effects(names, s0, Commands(part)), part, worked, Created(names, steps));
      if err == ErrStateConflict {
        UndoneWhenAllWorked(part, worked);
        SagaRestores(names, s0, steps, ran);
      }
    }
  }

  lemma WithinMore(s0: Resources, s: Resources, owned: set<Resource>, more: set<Resource>)
    requires Within(s0, s, owned) && owned <= more
    ensures Within(s0, s, more)
  {
  }

  lemma WithinKeys(s0: Resources, s: Resources, owned: set<Resource>)
    requires Within(s0, s, owned) && owned <= s.Keys
    ensures s.Keys == s0.Keys + owned
  {
  }

  lemma {:induction false} CreatedSplit(names: Gre -> Id, steps: seq<Step>, n: nat)
    requires n <= |steps|
    ensures Created(names, steps) == Created(names, steps[..n]) + Created(names, steps[n..])
    decreases |steps|
  {
    if n == |steps| {
      assert steps[..n] == steps;
    } else {
      CreatedSplit(names, steps[..|steps| - 1], n);
      assert steps[..|steps| - 1][..n] == steps[..n];
      assert steps[..|steps| - 1][n..] == steps[n..][..|steps| - 1 - n];
    }
  }

  /** The connections are loaded from the file the plan was built for. */
  lemma LoadsFile(ts: seq<Tunnel>, blocking: bool, file: string, s: Step)
    requires s in Prelude(ts, blocking, file) && s.command.LoadConnections?
    ensures s.command.file == file
  {
    ConcatMember(InitiateParts(ts), s);
    ConcatMember(GreParts(ts), s);
    ConcatMember(BlockParts(ts), s);
  }

  /** Every command of a plan that could be built, and its undo, can be read. */
  lemma PlanIsReadable(config: Config, intent: Intent, path: Path, file: string, s: Step)
    requires Buildable(config, intent, path, file) && s in PlanSteps(config, intent, path, file)
    ensures Readable(s.command) && (s.undo.Some? ==> Readable(s.undo.value) && !s.undo.value.LoadConnections?)
    ensures s.command.LoadConnections? ==> s.command.file == file
  {
    hide Prelude, RouteSteps, Concat;
    var ts := PathTunnels(config, path);
    assert Printable(s);
    if s in Prelude(ts, intent.blockNonIpsec, file) {
      PreludeShape(ts, intent.blockNonIpsec, file, s);
      if s.command.LoadConnections? { LoadsFile(ts, intent.blockNonIpsec, file, s); }
    } else {
      RouteShape(config, path, s);
    }
  }

  /** No command of a plan that could be built is refused by the tokeniser that runs it, nor its undo. */
  lemma PlanIsExecutable(config: Config, intent: Intent, path: Path, file: string, s: Step)
    requires Buildable(config, intent, path, file) && s in PlanSteps(config, intent, path, file)
    requires s.command.LoadConnections? ==> IsPlanToken(file)
    ensures Executable(s.command) && (s.undo.Some? ==> Executable(s.undo.value))
  {
    hide Executable, Legible, PlanSteps, CommandText;
    PlanIsReadable(config, intent, path, file, s);
    RenderedCommandsRun(s.command);
    if s.undo.Some? { RenderedCommandsRun(s.undo.value); }
  }

  // ----- no route without its interface -----

  /** Every route through an interface of the plan has that interface present. */
  ghost predicate NothingDangles(s: Resources, made: set<Resource>) {
    forall r :: r in s && r.Routed? && Interface(r.fib.interfaceName) in made ==> Interface(r.fib.interfaceName) in s
  }

  /** Before index `g` no step adds a route, from it on no step makes an interface. */
  ghost predicate RoutesLast(names: Gre -> Id, steps: seq<Step>, g: nat)
    requires g <= |steps|
  {
    && (forall k :: 0 <= k < g && Creates(names, steps[k].command).Some? ==> !Creates(names, steps[k].command).value.Routed?)
    && (forall k :: g <= k < |steps| && Creates(names, steps[k].command).Some? ==> !Creates(names, steps[k].command).value.Interface?)
    && (forall k :: g <= k < |steps| && steps[k].undo.Some? ==> forall r: Resource :: r.Interface? ==> !Removes(names, steps[k].undo.value, r))
  }

  /** The state after the first `n` commands and the undo commands of those from `j` on that worked. */
  ghost function Midway(names: Gre -> Id, s0: System, steps: seq<Step>, n: nat, j: nat, worked: seq<bool>): System
    requires j <= n <= |steps| && |worked| == n
  {
    Effects(names, Effects(names, s0, Commands(steps[..n])), Undone(steps[j..n], worked[j..]))
  }

  /** One of the undo commands from `j` on that worked removed the resource. */
  ghost predicate TakenAway(names: Gre -> Id, steps: seq<Step>, j: nat, worked: seq<bool>, r: Resource)
    requires |worked| <= |steps|
  {
    exists m :: j <= m < |worked| && worked[m] && steps[m].undo.Some? && Removes(names, steps[m].undo.value, r)
  }

  lemma MidwayStep(names: Gre -> Id, s0: System, steps: seq<Step>, n: nat, j: nat, worked: seq<bool>)
    requires j < n <= |steps| && |worked| == n
    ensures Midway(names, s0, steps, n, j, worked) ==
            if steps[j].undo.Some? && worked[j] then Effect(names, Midway(names, s0, steps, n, j + 1, worked), steps[j].undo.value)
            else Midway(names, s0, steps, n, j + 1, worked)
  {
    hide Effect, Effects;
    var part := steps[..n];
    UndoneOne(part, worked, j);
    assert part[j..] == steps[j..n] && part[j + 1..] == steps[j + 1..n];
    var s := Effects(names, s0, Commands(steps[..n]));
    EffectsOneMore(names, s, Undone(steps[j + 1..n], worked[j + 1..]), if steps[j].undo.Some? then steps[j].undo.value else LoadConnections(""));
  }

  /** What is there at any point of a run: what was there before, and what the commands made and no undo
      command that worked has taken away. */
  lemma MidwayHolds(names: Gre -> Id, s0: System, steps: seq<Step>, n: nat, j: nat, worked: seq<bool>)
    requires j <= n <= |steps| && |worked| == n
    requires AllClean(names, s0.resources, steps) && (j < n ==> AllUndoable(names, s0.resources, steps[..n]))
    ensures forall r :: r in Midway(names, s0, steps, n, j, worked).resources <==>
              r in s0.resources || (r in Created(names, steps[..n]) && !TakenAway(names, steps, j, worked, r))
    decreases n - j
  {
    if j == n {
      EffectsNone(names, Effects(names, s0, Commands(steps[..n])));
      assert steps[n..n] == [];
      ForwardAdds(names, s0, steps[..n]);
    } else {
      MidwayHolds(names, s0, steps, n, j + 1, worked);
      MidwayStep(names, s0, steps, n, j, worked);
      assert steps[..n][j] == steps[j];
      assert Undoable(names, s0.resources, steps[j]);
      TakenAwayStep(names, steps, j, worked);
      if steps[j].undo.Some? && worked[j] {
        RemovalLeaves(names, Midway(names, s0, steps, n, j + 1, worked), steps[j].undo.value);
      }
    }
  }

  lemma TakenAwayStep(names: Gre -> Id, steps: seq<Step>, j: nat, worked: seq<bool>)
    requires j < |worked| <= |steps|
    ensures forall r :: TakenAway(names, steps, j, worked, r) <==>
              TakenAway(names, steps, j + 1, worked, r) || (worked[j] && steps[j].undo.Some? && Removes(names, steps[j].undo.value, r))
  {
    forall r | TakenAway(names, steps, j, worked, r)
      ensures TakenAway(names, steps, j + 1, worked, r) || (worked[j] && steps[j].undo.Some? && Removes(names, steps[j].undo.value, r))
    {
      var m :| j <= m < |worked| && worked[m] && steps[m].undo.Some? && Removes(names, steps[m].undo.value, r);
    }
  }

  lemma RemovalLeaves(names: Gre -> Id, s: System, c: Command)
    requires OnlyRemoves(names, c)
    ensures forall r :: r in Effect(names, s, c).resources <==> r in s.resources && !Removes(names, c, r)
  {
  }

  /** A route is left whose interface is gone: an undo command that took the interface away worked, and none
      that would have taken the route away did. */
  ghost predicate Orphan(names: Gre -> Id, steps: seq<Step>, j: nat, worked: seq<bool>, r: Resource)
    requires |worked| <= |steps|
  {
    && r.Routed? && r in Created(names, steps[..|worked|]) && Interface(r.fib.interfaceName) in Created(names, steps)
    && TakenAway(names, steps, j, worked, Interface(r.fib.interfaceName)) && !TakenAway(names, steps, j, worked, r)
  }

  /** Nothing dangles at a point of a run exactly if there is no orphan. */
  lemma DanglesExactly(names: Gre -> Id, s0: System, steps: seq<Step>, g: nat, n: nat, j: nat, worked: seq<bool>)
    requires g <= |steps| && j <= n <= |steps| && |worked| == n
    requires AllClean(names, s0.resources, steps) && RoutesLast(names, steps, g)
    requires j < n ==> AllUndoable(names, s0.resources, steps[..n])
    requires forall r :: r in s0.resources && r.Routed? ==> Interface(r.fib.interfaceName) !in Created(names, steps)
    ensures NothingDangles(Midway(names, s0, steps, n, j, worked).resources, Created(names, steps)) <==>
              !exists r :: Orphan(names, steps, j, worked, r)
  {
    hide Midway, Created, TakenAway, RoutesLast, Clean;
    var s, made := Midway(names, s0, steps, n, j, worked).resources, Created(names, steps);
    MidwayHolds(names, s0, steps, n, j, worked);
    assert steps[..|worked|] == steps[..n];
    forall r: Resource | r.Routed? && Interface(r.fib.interfaceName) in made
      ensures r in s && Interface(r.fib.interfaceName) !in s <==> Orphan(names, steps, j, worked, r)
    {
      var i := Interface(r.fib.interfaceName);
      MadeIsFresh(names, s0.resources, steps, i);
      if r in Created(names, steps[..n]) { InterfaceMadeFirst(names, steps, g, n, r, i); }
    }
  }

  lemma MadeIsFresh(names: Gre -> Id, s0: Resources, steps: seq<Step>, r: Resource)
    requires AllClean(names, s0, steps) && r in Created(names, steps)
    ensures r !in s0
  {
    CreatedMember(names, steps, r);
    var k :| 0 <= k < |steps| && Creates(names, steps[k].command) == Some(r);
    assert Clean(names, s0, steps[k]);
  }

  /** Once a route has been added, every interface of the plan has been made. */
  lemma InterfaceMadeFirst(names: Gre -> Id, steps: seq<Step>, g: nat, n: nat, r: Resource, i: Resource)
    requires g <= |steps| && n <= |steps| && RoutesLast(names, steps, g)
    requires r.Routed? && r in Created(names, steps[..n]) && i.Interface? && i in Created(names, steps)
    ensures i in Created(names, steps[..n])
  {
    CreatedMember(names, steps[..n], r);
    var k :| 0 <= k < n && Creates(names, steps[..n][k].command) == Some(r);
    assert steps[..n][k] == steps[k];
    CreatedMember(names, steps, i);
    var m :| 0 <= m < |steps| && Creates(names, steps[m].command) == Some(i);
    assert steps[..n][m] == steps[m];
    CreatedMember(names, steps[..n], i);
  }

  /** There is an orphan only after the undo command of a route has failed. */
  lemma OrphanMeansFailure(names: Gre -> Id, steps: seq<Step>, g: nat, j: nat, worked: seq<bool>, r: Resource)
    requires g <= |steps| && |worked| <= |steps| && RoutesLast(names, steps, g)
    requires AllReversible(names, steps[..|worked|]) && Orphan(names, steps, j, worked, r)
    ensures exists k :: j <= k < |worked| && Creates(names, steps[k].command) == Some(r) && !worked[k]
  {
    var n := |worked|;
    CreatedMember(names, steps[..n], r);
    var k :| 0 <= k < n && Creates(names, steps[..n][k].command) == Some(r);
    assert steps[..n][k] == steps[k] && Reversible(names, steps[k]);
    var m :| j <= m < n && worked[m] && steps[m].undo.Some? && Removes(names, steps[m].undo.value, Interface(r.fib.interfaceName));
    assert m < g <= k;
  }

  lemma PlanRoutesLast(names: Gre -> Id, config: Config, intent: Intent, path: Path, file: string)
    requires Plannable(config, path)
    ensures var g := |Prelude(PathTunnels(config, path), intent.blockNonIpsec, file)|;
            g <= |PlanSteps(config, intent, path, file)| && RoutesLast(names, PlanSteps(config, intent, path, file), g)
  {
    hide Concat, Prelude, RouteSteps;
    var ts := PathTunnels(config, path);
    var steps := PlanSteps(config, intent, path, file);
    var prelude, routes := Prelude(ts, intent.blockNonIpsec, file), RouteSteps(config, path);
    forall k | 0 <= k < |prelude| ensures StepShape(ts, steps[k]) && !steps[k].command.RouteAdd? {
      PreludeShape(ts, intent.blockNonIpsec, file, steps[k]);
    }
    forall k | |prelude| <= k < |steps|
      ensures steps[k].command.RouteAdd? && (steps[k].undo.Some? ==> forall r: Resource :: r.Interface? ==> !Removes(names, steps[k].undo.value, r))
    {
      assert steps[k] == routes[k - |prelude|];
      RouteShape(config, path, steps[k]);
    }
  }

  /** For every plan, at every point of every run, after `n` commands and the undo commands from `j` on,
      whichever of them worked: a route through a GRE interface the plan makes lacks that interface exactly
      if the interface was taken away and no undo command of the route worked. As long as no undo command of
      a route has failed, that cannot be. */
  lemma RoutesKeepTheirInterface(names: Gre -> Id, s0: System, config: Config, intent: Intent, path: Path, file: string,
                                 n: nat, j: nat, worked: seq<bool>)
    requires Plannable(config, path) && FreshFor(names, s0.resources, config, intent, path, file)
    requires var steps := PlanSteps(config, intent, path, file);
             && j <= n <= |steps| && (j < n ==> n < |steps|) && |worked| == n
             && forall r :: r in s0.resources && r.Routed? ==> Interface(r.fib.interfaceName) !in Created(names, steps)
    ensures var steps := PlanSteps(config, intent, path, file);
            NothingDangles(Midway(names, s0, steps, n, j, worked).resources, Created(names, steps)) <==>
              !exists r :: Orphan(names, steps, j, worked, r)
    ensures var steps := PlanSteps(config, intent, path, file);
            (forall k :: j <= k < n && steps[k].command.RouteAdd? ==> worked[k]) ==>
              NothingDangles(Midway(names, s0, steps, n, j, worked).resources, Created(names, steps))
  {
    hide PlanSteps, Prelude, FreshFor, Midway, Created, NothingDangles, RoutesLast, AllClean, Reversible, Undoable, Orphan;
    var steps := PlanSteps(config, intent, path, file);
    var g := |Prelude(PathTunnels(config, path), intent.blockNonIpsec, file)|;
    PlanIsClean(names, s0.resources, config, intent, path, file);
    PlanRoutesLast(names, config, intent, path, file);
    if j < n {
      assert forall k :: 0 <= k < n ==> steps[..n][k] == steps[..|steps| - 1][k];
    }
    DanglesExactly(names, s0, steps, g, n, j, worked);
    if r :| Orphan(names, steps, j, worked, r) {
      OrphanFails(names, steps, g, j, worked, r);
    }
  }

  lemma OrphanFails(names: Gre -> Id, steps: seq<Step>, g: nat, j: nat, worked: seq<bool>, r: Resource)
    requires g <= |steps| && |worked| <= |steps| && RoutesLast(names, steps, g)
    requires j < |worked| ==> AllReversible(names, steps[..|worked|])
    requires Orphan(names, steps, j, worked, r)
    ensures exists k :: j <= k < |worked| && steps[k].command.RouteAdd? && !worked[k]
  {
    assert j < |worked|;
    OrphanMeansFailure(names, steps, g, j, worked, r);
    var k :| j <= k < |worked| && Creates(names, steps[k].command) == Some(r) && !worked[k];
    assert steps[k].command.RouteAdd?;
  }

  /** For example: the undo command of the one route fails, that of the interface works. */
  lemma OrphanExample(names: Gre -> Id, gre: Tunnel, r: Route)
    requires r.interfaceName == names(GreOf(gre))
    ensures var steps := [Step(GreCreate(gre), Some(GreDelete(gre))), Step(RouteAdd(r), Some(RouteDelete(r)))];
            !NothingDangles(Midway(names, System({}, map[]), steps, 2, 0, [true, false]).resources, Created(names, steps))
  {
    var steps := [Step(GreCreate(gre), Some(GreDelete(gre))), Step(RouteAdd(r), Some(RouteDelete(r)))];
    var worked := [true, false];
    assert steps[..2] == steps;
    CreatedMember(names, steps, Routed(FibOf(r)));
    CreatedMember(names, steps, Interface(r.interfaceName));
    assert Creates(names, steps[0].command) == Some(Interface(r.interfaceName)) && Creates(names, steps[1].command) == Some(Routed(FibOf(r)));
    MidwayHolds(names, System({}, map[]), steps, 2, 0, worked);
    assert Removes(names, steps[0].undo.value, Interface(r.interfaceName)) && worked[0];
    assert TakenAway(names, steps, 0, worked, Interface(r.interfaceName));
    assert Routed(FibOf(r)) in Midway(names, System({}, map[]), steps, 2, 0, worked).resources;
  }

  // ----- taking a whole plan back -----

  /** Running removals removes exactly what one of them removes. */
  lemma {:induction false} RemovalsEffect(names: Gre -> Id, s: System, commands: seq<Command>)
    requires forall c :: c in commands ==> OnlyRemoves(names, c)
    ensures var s' := Effects(names, s, commands).resources;
            && (forall r :: r in s' <==> r in s.resources && !exists c :: c in commands && Removes(names, c, r))
            && (forall r :: r in s' ==> s'[r] == s.resources[r])
    decreases |commands|
  {
    if |commands| == 0 {
    } else {
      var n := |commands| - 1;
      var last := commands[n];
      RemovalsEffect(names, s, commands[..n]);
      assert OnlyRemoves(names, last);
      var middle := Effects(names, s, commands[..n]);
      assert forall c :: c in commands <==> c in commands[..n] || c == last;
      assert forall r :: r in Effect(names, middle, last).resources <==> r in middle.resources && !Removes(names, last, r);
    }
  }

  lemma LastUse(ts: seq<Tunnel>, i: nat) returns (p: nat)
    requires i < |ts| && Consistent(ts)
    ensures i <= p < |ts| && ts[p] == ts[i] && !SeenIn(ts[p + 1..], ts[p].tunnelId)
    decreases |ts| - i
  {
    if SeenIn(ts[i + 1..], ts[i].tunnelId) {
      var k :| 0 <= k < |ts| - i - 1 && ts[i + 1..][k].tunnelId == ts[i].tunnelId;
      assert ts[i + 1 + k] == ts[i];
      p := LastUse(ts, i + 1 + k);
    } else {
      p := i;
    }
  }

  lemma GreDeleted(ts: seq<Tunnel>, i: nat)
    requires i < |ts| && IsGre(ts[i]) && Consistent(ts)
    ensures GreDelete(ts[i]) in Concat(GreDeleteParts(ts))
  {
    var p := LastUse(ts, i);
    var k := |ts| - 1 - p;
    assert GreDeleteParts(ts)[k] == GreDeletePart(ts, p);
    assert GreDelete(ts[i]) in GreDeleteParts(ts)[k];
    ConcatMember(GreDeleteParts(ts), GreDelete(ts[i]));
  }

  /** The rollback list is made of these four lists. */
  lemma RollbackMember(config: Config, intent: Intent, path: Path, c: Command)
    requires Plannable(config, path)
    ensures var ts := PathTunnels(config, path);
            c in PlanRollbacks(config, intent, path) <==>
              || c in RouteRollbacks(config, path) || c in Concat(GreDeleteParts(ts)) || c in Concat(TerminateParts(ts))
              || (intent.blockNonIpsec && c in Concat(BlockDeleteParts(ts)))
  {
    hide Concat, RouteRollbacks, GreDeleteParts, TerminateParts, BlockDeleteParts;
  }

  lemma PreludeMember(ts: seq<Tunnel>, blocking: bool, file: string, s: Step)
    ensures s in Prelude(ts, blocking, file) <==>
              || s == Step(LoadConnections(file), None) || s in Concat(InitiateParts(ts)) || s in Concat(GreParts(ts))
              || (blocking && s in Concat(BlockParts(ts)))
  {
    hide Concat, InitiateParts, GreParts, BlockParts;
  }

  lemma InitiateUndoListed(ts: seq<Tunnel>, s: Step)
    requires s in Concat(InitiateParts(ts))
    ensures s.undo.Some? && s.undo.value in Concat(TerminateParts(ts))
  {
    hide Concat;
    ConcatMember(InitiateParts(ts), s);
    var i :| 0 <= i < |ts| && s in InitiateParts(ts)[i];
    assert s.undo.value in TerminateParts(ts)[|ts| - 1 - i];
    ConcatMember(TerminateParts(ts), s.undo.value);
  }

  lemma GreUndoListed(ts: seq<Tunnel>, s: Step)
    requires s in Concat(GreParts(ts)) && Consistent(ts) && s.undo.Some?
    ensures s.undo.value in Concat(GreDeleteParts(ts))
  {
    hide Concat;
    ConcatMember(GreParts(ts), s);
    var i :| 0 <= i < |ts| && s in GreParts(ts)[i];
    GreDeleted(ts, i);
  }

  lemma BlockUndoListed(ts: seq<Tunnel>, s: Step)
    requires s in Concat(BlockParts(ts))
    ensures s.undo.Some? && s.undo.value in Concat(BlockDeleteParts(ts))
  {
    hide Concat;
    ConcatMember(BlockParts(ts), s);
    var i :| 0 <= i < |ts| && s in BlockParts(ts)[i];
    assert s.undo.value in BlockDeleteParts(ts)[|ts| - 1 - i];
    ConcatMember(BlockDeleteParts(ts), s.undo.value);
  }

  /** The undo command of every step before the routes is in the rollback list. */
  lemma PreludeUndoListed(config: Config, intent: Intent, path: Path, file: string, s: Step)
    requires Plannable(config, path) && s.undo.Some?
    requires s in Prelude(PathTunnels(config, path), intent.blockNonIpsec, file)
    ensures s.undo.value in PlanRollbacks(config, intent, path)
  {
    hide Concat, RouteRollbacks, Prelude, PlanRollbacks, InitiateParts, GreParts, BlockParts, GreDeleteParts, TerminateParts, BlockDeleteParts;
    var ts := PathTunnels(config, path);
    TunnelsConsistent(config, path);
    PreludeMember(ts, intent.blockNonIpsec, file, s);
    RollbackMember(config, intent, path, s.undo.value);
    if s in Concat(InitiateParts(ts)) {
      InitiateUndoListed(ts, s);
    } else if s in Concat(GreParts(ts)) {
      GreUndoListed(ts, s);
    } else {
      BlockUndoListed(ts, s);
    }
  }

  lemma RouteUndoListed(config: Config, intent: Intent, path: Path, s: Step)
    requires Plannable(config, path) && |path.routes| > 0 && s in RouteSteps(config, path)
    ensures s.undo.Some? && s.undo.value in PlanRollbacks(config, intent, path)
  {
    hide Concat, Through;
    var egress := FirstGre(PathTunnels(config, path));
    ConcatMember(RouteParts(path.routes, egress), s);
    var i :| 0 <= i < |path.routes| && s in RouteParts(path.routes, egress)[i];
    assert s.undo.value in RouteDeleteParts(path.routes, egress)[|path.routes| - 1 - i];
    ConcatMember(RouteDeleteParts(path.routes, egress), s.undo.value);
  }

  /** A command undoes some step of these. */
  predicate UndoesOne(steps: seq<Step>, c: Command) { exists k :: 0 <= k < |steps| && steps[k].undo == Some(c) }

  lemma UndoesOneOf(steps: seq<Step>, s: Step)
    requires s in steps && s.undo.Some?
    ensures UndoesOne(steps, s.undo.value)
  {
    var k :| 0 <= k < |steps| && steps[k] == s;
    assert steps[k].undo == Some(s.undo.value);
  }

  lemma GreDeleteIsUndo(ts: seq<Tunnel>, blocking: bool, file: string, c: Command) returns (s: Step)
    requires c in Concat(GreDeleteParts(ts)) && Consistent(ts)
    ensures s in Prelude(ts, blocking, file) && s.undo == Some(c)
  {
    hide Concat, Prelude;
    ConcatMember(GreDeleteParts(ts), c);
    var k :| 0 <= k < |ts| && c in GreDeleteParts(ts)[k];
    assert GreDeleteParts(ts)[k] == GreDeletePart(ts, |ts| - 1 - k);
    GreInPlan(ts, blocking, file, |ts| - 1 - k);
    s := Step(GreCreate(ts[|ts| - 1 - k]), Some(c));
  }

  lemma TerminateIsUndo(ts: seq<Tunnel>, blocking: bool, file: string, c: Command) returns (s: Step)
    requires c in Concat(TerminateParts(ts))
    ensures s in Prelude(ts, blocking, file) && s.undo == Some(c)
  {
    hide Concat, Prelude;
    ConcatMember(TerminateParts(ts), c);
    var k :| 0 <= k < |ts| && c in TerminateParts(ts)[k];
    InitiateInPlan(ts, blocking, file, |ts| - 1 - k);
    s := Step(Initiate(ts[|ts| - 1 - k]), Some(c));
  }

  lemma BlockDeleteIsUndo(ts: seq<Tunnel>, file: string, c: Command) returns (s: Step)
    requires c in Concat(BlockDeleteParts(ts))
    ensures s in Prelude(ts, true, file) && s.undo == Some(c)
  {
    hide Concat, Prelude;
    ConcatMember(BlockDeleteParts(ts), c);
    var k :| 0 <= k < |ts| && c in BlockDeleteParts(ts)[k];
    var t := ts[|ts| - 1 - k];
    BlocksInPlan(ts, file, |ts| - 1 - k);
    s := if c == BlockDelete(OutBlock(t)) then BlockPart(t)[0] else BlockPart(t)[1];
  }

  /** Every rollback command but the legacy route's is the undo command of a step. */
  lemma RollbackIsUndo(config: Config, intent: Intent, path: Path, file: string, c: Command)
    requires Plannable(config, path) && c in PlanRollbacks(config, intent, path)
    ensures || UndoesOne(PlanSteps(config, intent, path, file), c)
            || (|path.routes| == 0 && c == LegacyTeardown(path, FindTunnel(config.tunnels, path.egressTunnelId).value))
  {
    hide Concat, Prelude, RouteSteps, UndoesOne, PlanRollbacks, GreDeleteParts, TerminateParts, BlockDeleteParts, LegacyTeardown;
    var ts := PathTunnels(config, path);
    var steps := PlanSteps(config, intent, path, file);
    TunnelsConsistent(config, path);
    RollbackMember(config, intent, path, c);
    if c in RouteRollbacks(config, path) {
      if |path.routes| > 0 { RouteRollbackIsUndo(config, intent, path, file, c); }
    } else {
      var s;
      if c in Concat(GreDeleteParts(ts)) {
        s := GreDeleteIsUndo(ts, intent.blockNonIpsec, file, c);
      } else if c in Concat(TerminateParts(ts)) {
        s := TerminateIsUndo(ts, intent.blockNonIpsec, file, c);
      } else {
        s := BlockDeleteIsUndo(ts, file, c);
      }
      UndoesOneOf(steps, s);
    }
  }

  lemma RouteRollbackIsUndo(config: Config, intent: Intent, path: Path, file: string, c: Command)
    requires Plannable(config, path) && |path.routes| > 0 && c in RouteRollbacks(config, path)
    ensures UndoesOne(PlanSteps(config, intent, path, file), c)
  {
    hide Concat, Prelude, Through, UndoesOne;
    var egress := FirstGre(PathTunnels(config, path));
    var steps := PlanSteps(config, intent, path, file);
    ConcatMember(RouteDeleteParts(path.routes, egress), c);
    var k :| 0 <= k < |path.routes| && c in RouteDeleteParts(path.routes, egress)[k];
    var i := |path.routes| - 1 - k;
    var s := RoutePart(Through(path.routes[i], egress))[0];
    assert s in RouteParts(path.routes, egress)[i];
    ConcatMember(RouteParts(path.routes, egress), s);
    assert s in steps;
    UndoesOneOf(steps, s);
  }

  /** The legacy route is added and deleted under the same name. */
  predicate LegacyRouteNamed(path: Path, egress: Tunnel) {
    !IsGre(egress) || path.routeNextHop == "" || path.routeNextHop == egress.greRemoteAddress
  }

  /** The rollback list names every route the plan adds: the path lists its routes, or the tunnel is not GRE,
      or the path's own next hop is the GRE peer. */
  predicate RollbackListNames(config: Config, path: Path)
    requires EgressKnown(config, path)
  {
    |path.routes| > 0 || LegacyRouteNamed(path, FindTunnel(config.tunnels, path.egressTunnelId).value)
  }

  /** The rollback list names nothing else: the path lists its routes, or the tunnel is GRE, or the default
      table has no other route of the same prefix, which would be deleted with the prefix. */
  ghost predicate RollbackListSpares(s0: Resources, config: Config, path: Path)
    requires EgressKnown(config, path)
  {
    || |path.routes| > 0
    || IsGre(FindTunnel(config.tunnels, path.egressTunnelId).value)
    || forall r :: r in s0 && r.Routed? && r.fib.table == 0 ==> r.fib.prefix != path.routeDestinationPrefix
  }

  /** Adding and deleting the legacy route name the same entry exactly under that condition, both for its
      own undo command and for the rollback list. */
  lemma LegacyNamesAgree(names: Gre -> Id, path: Path, egress: Tunnel)
    ensures var made := Creates(names, RouteAdd(LegacyRoute(path, egress))).value;
            && (Removes(names, LegacyUndo(path, egress), made) <==> LegacyRouteNamed(path, egress))
            && (Removes(names, LegacyTeardown(path, egress), made) <==> LegacyRouteNamed(path, egress))
  {
    if IsGre(egress) {
      assert Resolved(Route("", "", path.routeDestinationPrefix, "", "", -1, -1), egress) == GreRoute(path.routeDestinationPrefix, egress);
    }
  }

  /** For example: a GRE tunnel whose peer is 10.9.0.2, and a path that forwards to 10.0.0.9 through it. */
  lemma MisnamedExample(config: Config, path: Path, gre: Tunnel)
    requires config.tunnels == [gre] && gre.tunnelId == "t" && IsGre(gre) && gre.greRemoteAddress == "10.9.0.2"
    requires path.routes == [] && path.egressTunnelId == "t" && path.routeNextHop == "10.0.0.9"
    ensures EgressKnown(config, path) && !RollbackListNames(config, path)
  {
    assert path.routeNextHop[3] != gre.greRemoteAddress[3];
  }

  lemma ListOnlyRemoves(names: Gre -> Id, s0: Resources, config: Config, intent: Intent, path: Path, file: string)
    requires Plannable(config, path) && FreshFor(names, s0, config, intent, path, file)
    ensures forall c :: c in PlanRollbacks(config, intent, path) ==> OnlyRemoves(names, c)
  {
    hide PlanSteps, PlanRollbacks, AllReversible, LegacyTeardown, LegacyUndo;
    forall c | c in PlanRollbacks(config, intent, path) ensures OnlyRemoves(names, c) {
      RollbackIsUndoable(names, s0, config, intent, path, file, c);
    }
  }

  /** Every rollback command undoes a step, and then removes nothing of before, or is the legacy route's. */
  lemma RollbackIsUndoable(names: Gre -> Id, s0: Resources, config: Config, intent: Intent, path: Path, file: string, c: Command)
    requires Plannable(config, path) && FreshFor(names, s0, config, intent, path, file) && c in PlanRollbacks(config, intent, path)
    ensures OnlyRemoves(names, c)
    ensures (forall r :: r in s0 ==> !Removes(names, c, r))
            || (|path.routes| == 0 && forall r :: Removes(names, c, r) <==> Removes(names, LegacyTeardown(path, FindTunnel(config.tunnels, path.egressTunnelId).value), r))
  {
    hide PlanSteps, PlanRollbacks, AllReversible, Removes;
    var steps := PlanSteps(config, intent, path, file);
    RollbackIsUndo(config, intent, path, file, c);
    if |path.routes| == 0 { LegacyUndoOnlyRemoves(names, path, FindTunnel(config.tunnels, path.egressTunnelId).value); }
    if UndoesOne(steps, c) {
      var k :| 0 <= k < |steps| && steps[k].undo == Some(c);
      StepIsUndoable(names, s0, config, intent, path, file, k);
    }
  }

  lemma LegacyUndoOnlyRemoves(names: Gre -> Id, path: Path, egress: Tunnel)
    ensures OnlyRemoves(names, LegacyUndo(path, egress)) && OnlyRemoves(names, LegacyTeardown(path, egress))
    ensures forall r :: Removes(names, LegacyUndo(path, egress), r) <==> Removes(names, LegacyTeardown(path, egress), r)
  {
    if IsGre(egress) {
      assert Resolved(Route("", "", path.routeDestinationPrefix, "", "", -1, -1), egress) == GreRoute(path.routeDestinationPrefix, egress);
    }
  }

  /** Every step of a plan but the legacy route is undone without touching what was there. */
  lemma StepIsUndoable(names: Gre -> Id, s0: Resources, config: Config, intent: Intent, path: Path, file: string, k: nat)
    requires Plannable(config, path) && FreshFor(names, s0, config, intent, path, file) && k < |PlanSteps(config, intent, path, file)|
    ensures var step := PlanSteps(config, intent, path, file)[k];
            || Undoable(names, s0, step)
            || (|path.routes| == 0 && step.undo == Some(LegacyUndo(path, FindTunnel(config.tunnels, path.egressTunnelId).value)))
  {
    hide Concat, Prelude, RouteSteps, Undoable, StepShape, Creates, LegacyUndo;
    var ts := PathTunnels(config, path);
    var steps := PlanSteps(config, intent, path, file);
    var prelude := Prelude(ts, intent.blockNonIpsec, file);
    forall t | t in ts && IsGre(t) ensures Interface(t.greInterface) !in s0 {
      GreInterfaceIsNew(names, s0, config, intent, path, file, t);
    }
    assert steps[k] in steps;
    if k < |prelude| {
      PreludeShape(ts, intent.blockNonIpsec, file, steps[k]);
      ShapedStepIsClean(names, s0, ts, steps[k]);
    } else {
      assert steps[k] == RouteSteps(config, path)[k - |prelude|];
      RouteShape(config, path, steps[k]);
      if |path.routes| > 0 { ShapedStepIsClean(names, s0, ts, steps[k]); }
    }
  }

  /** A rollback list that names the routes of the plan and nothing else removes nothing of before. */
  lemma ListSpares(names: Gre -> Id, s0: Resources, config: Config, intent: Intent, path: Path, file: string)
    requires Plannable(config, path) && FreshFor(names, s0, config, intent, path, file)
    requires RollbackListNames(config, path) && RollbackListSpares(s0, config, path)
    ensures forall c, r :: c in PlanRollbacks(config, intent, path) && r in s0 ==> !Removes(names, c, r)
  {
    hide PlanSteps, PlanRollbacks, LegacyTeardown;
    forall c | c in PlanRollbacks(config, intent, path) ensures forall r :: r in s0 ==> !Removes(names, c, r) {
      RollbackIsUndoable(names, s0, config, intent, path, file, c);
      if |path.routes| == 0 {
        LegacyTeardownSpares(names, s0, config, intent, path, file);
      }
    }
  }

  lemma LegacyTeardownSpares(names: Gre -> Id, s0: Resources, config: Config, intent: Intent, path: Path, file: string)
    requires Plannable(config, path) && FreshFor(names, s0, config, intent, path, file) && |path.routes| == 0
    requires RollbackListNames(config, path) && RollbackListSpares(s0, config, path)
    ensures var c := LegacyTeardown(path, FindTunnel(config.tunnels, path.egressTunnelId).value);
            forall r :: r in s0 ==> !Removes(names, c, r)
  {
    hide Prelude, Concat;
    var egress := FindTunnel(config.tunnels, path.egressTunnelId).value;
    if IsGre(egress) {
      assert Resolved(Route("", "", path.routeDestinationPrefix, "", "", -1, -1), egress) == GreRoute(path.routeDestinationPrefix, egress);
      assert LegacyRoute(path, egress) == GreRoute(path.routeDestinationPrefix, egress);
      var s := Step(RouteAdd(LegacyRoute(path, egress)), Some(LegacyUndo(path, egress)));
      assert s in RouteSteps(config, path);
      assert s in PlanSteps(config, intent, path, file);
      RouteMakes(names, LegacyRoute(path, egress));
    }
  }

  /** A foreign route of the same prefix in the default table goes with the prefix. */
  lemma ForeignRouteGoes(names: Gre -> Id, s0: Resources, config: Config, intent: Intent, path: Path) returns (r: Resource)
    requires Plannable(config, path) && !RollbackListSpares(s0, config, path)
    ensures r in s0 && exists c :: c in PlanRollbacks(config, intent, path) && Removes(names, c, r)
  {
    hide PlanRollbacks;
    TeardownListed(config, intent, path);
    r :| r in s0 && r.Routed? && r.fib.table == 0 && r.fib.prefix == path.routeDestinationPrefix;
    assert Removes(names, LegacyTeardown(path, FindTunnel(config.tunnels, path.egressTunnelId).value), r);
  }

  /** A resource of the plan that no rollback command removes is the misnamed legacy route. */
  lemma CreatedIsRemoved(names: Gre -> Id, config: Config, intent: Intent, path: Path, file: string, r: Resource)
    requires Plannable(config, path) && r in Created(names, PlanSteps(config, intent, path, file))
    requires RollbackListNames(config, path) || !r.Routed?
    ensures exists c :: c in PlanRollbacks(config, intent, path) && Removes(names, c, r)
  {
    hide Prelude, PlanRollbacks, RouteSteps, Created, LegacyTeardown, LegacyUndo, LegacyRoute;
    var ts := PathTunnels(config, path);
    var steps := PlanSteps(config, intent, path, file);
    var prelude, routes := Prelude(ts, intent.blockNonIpsec, file), RouteSteps(config, path);
    CreatedMember(names, steps, r);
    var k :| 0 <= k < |steps| && Creates(names, steps[k].command) == Some(r);
    if k < |prelude| {
      PreludeShape(ts, intent.blockNonIpsec, file, steps[k]);
      PreludeUndoListed(config, intent, path, file, steps[k]);
      assert Removes(names, steps[k].undo.value, r);
    } else {
      assert steps[k] == routes[k - |prelude|];
      RouteShape(config, path, steps[k]);
      if |path.routes| > 0 {
        RouteUndoListed(config, intent, path, steps[k]);
        assert Removes(names, steps[k].undo.value, r);
      } else {
        var egress := FindTunnel(config.tunnels, path.egressTunnelId).value;
        LegacyNamesAgree(names, path, egress);
        TeardownListed(config, intent, path);
        assert Removes(names, LegacyTeardown(path, egress), r);
      }
    }
  }

  lemma TeardownListed(config: Config, intent: Intent, path: Path)
    requires Plannable(config, path) && |path.routes| == 0
    ensures LegacyTeardown(path, FindTunnel(config.tunnels, path.egressTunnelId).value) in PlanRollbacks(config, intent, path)
  {
    hide Concat;
    assert LegacyTeardown(path, FindTunnel(config.tunnels, path.egressTunnelId).value) in RouteRollbacks(config, path);
  }

  /** No rollback command removes the misnamed legacy route. */
  lemma MisnamedRouteStays(names: Gre -> Id, config: Config, intent: Intent, path: Path, file: string) returns (made: Resource)
    requires Plannable(config, path) && !RollbackListNames(config, path)
    ensures made in Created(names, PlanSteps(config, intent, path, file)) && made.Routed?
    ensures forall c :: c in PlanRollbacks(config, intent, path) ==> !Removes(names, c, made)
  {
    hide Prelude, PlanRollbacks, Created, LegacyTeardown, LegacyUndo, LegacyRoute, Concat;
    var egress := FindTunnel(config.tunnels, path.egressTunnelId).value;
    var ts := PathTunnels(config, path);
    var prelude := Prelude(ts, intent.blockNonIpsec, file);
    var steps := PlanSteps(config, intent, path, file);
    made := Routed(FibOf(LegacyRoute(path, egress)));
    LegacyNamesAgree(names, path, egress);
    assert steps[|prelude|].command == RouteAdd(LegacyRoute(path, egress));
    CreatedMember(names, steps, made);
    forall c | c in PlanRollbacks(config, intent, path) ensures !Removes(names, c, made) {
      RollbackIsUndo(config, intent, path, file, c);
      if UndoesOne(steps, c) {
        var k :| 0 <= k < |steps| && steps[k].undo == Some(c);
        if k < |prelude| {
          PreludeShape(ts, intent.blockNonIpsec, file, steps[k]);
        } else {
          assert steps[k] == RouteSteps(config, path)[k - |prelude|];
        }
      }
    }
  }

  /** Taking a completed plan back: when every command of the rollback list works, the resources are as they
      were before the plan ran, exactly if the list names the route the plan added and no route of before. */
  lemma RollbackListRestores(names: Gre -> Id, s0: System, config: Config, intent: Intent, path: Path, file: string)
    requires Plannable(config, path) && FreshFor(names, s0.resources, config, intent, path, file)
    ensures var done := Effects(names, s0, Commands(PlanSteps(config, intent, path, file)));
            Effects(names, done, PlanRollbacks(config, intent, path)).resources == s0.resources <==>
              RollbackListNames(config, path) && RollbackListSpares(s0.resources, config, path)
  {
    hide PlanSteps, PlanRollbacks, Created, FreshFor, Clean, Reversible, Undoable, OnlyRemoves, Removes, Creates, LegacyRoute, FibOf, FindTunnel;
    hide TunnelsKnown, Effect, Effects, RollbackListNames, RollbackListSpares;
    var steps := PlanSteps(config, intent, path, file);
    var done := Effects(names, s0, Commands(steps));
    PlanIsClean(names, s0.resources, config, intent, path, file);
    ForwardAdds(names, s0, steps);
    ListOnlyRemoves(names, s0.resources, config, intent, path, file);
    RemovalsEffect(names, done, PlanRollbacks(config, intent, path));
    var end := Effects(names, done, PlanRollbacks(config, intent, path)).resources;
    if !RollbackListNames(config, path) {
      var made := MisnamedRouteStays(names, config, intent, path, file);
      assert made in end;
      MadeIsNew(names, s0.resources, config, intent, path, file, made);
    } else if !RollbackListSpares(s0.resources, config, path) {
      var gone := ForeignRouteGoes(names, s0.resources, config, intent, path);
      assert gone !in end;
    } else {
      ListSpares(names, s0.resources, config, intent, path, file);
      forall r | r in Created(names, steps) ensures r !in end {
        CreatedIsRemoved(names, config, intent, path, file, r);
      }
    }
  }

  lemma MadeIsNew(names: Gre -> Id, s0: Resources, config: Config, intent: Intent, path: Path, file: string, r: Resource)
    requires Plannable(config, path) && FreshFor(names, s0, config, intent, path, file)
    requires r in Created(names, PlanSteps(config, intent, path, file))
    ensures r !in s0
  {
    hide PlanSteps, Created, Creates;
    var steps := PlanSteps(config, intent, path, file);
    CreatedMember(names, steps, r);
    var k :| 0 <= k < |steps| && Creates(names, steps[k].command) == Some(r);
    assert steps[k] in steps;
  }
}
