/** From one process of the daemon to the next (examples/eventnetd.c:348-440): a configuration is accepted, one
    of its intents submitted, the result written to the state file, and read back by a new controller. */
module Restart {
  import opened Model
  import opened Text
  import opened Backends
  import opened ControllerState
  import opened PathSelection
  import opened Traces
  import opened Transition
  import opened ControllerLoop
  import opened TrafficKeys
  import opened Tables
  import opened Runs
  import opened StateFile
  import opened ConfigCheck
  import opened ConfigLaws

  /** The selector of an accepted intent, and any path it can be given, fit the state file. */
  lemma AcceptedIsStorable(config: Config, i: nat, path: Id)
    requires i < |config.intents| && Formed(config) && Resolves(config) && |config.nodes| > 0
    requires FindPath(config.paths, path).Some?
    ensures Storable(config.intents[i].traffic, path) && path != ""
    ensures IsToken(config.intents[i].traffic.source) && IsToken(config.intents[i].traffic.destination)
  {
    EndpointsAreTokens(config, i);
    assert PathFormed(config, FindPath(config.paths, path).value);
  }

  /** A submission that succeeds leaves the selected path in the table, if it has room for the key. */
  method SubmitAndReport(c: Controller, intent: Intent, clock: Clock) returns (err: ErrorCode, selected: Id, ghost view: View)
    requires c.Shape() && c.Backing() && c.transitionState in {Idle, Failed}
    requires TrafficKey(intent.traffic) in c.applied.paths || |c.applied.paths| < c.applied.capacity
    modifies c`transitionState, c`opState, c`observed, c`health, c`intents, c.net`up, c.net`trace
    modifies c.net.vpp, c.net.vpp.trafficKeys, c.net.vpp.activePaths
    modifies c.applied, c.applied.trafficKeys, c.applied.appliedPaths, c.applied.appliedSinceMs
    ensures c.Shape() && c.Backing() && c.transitionState in {Idle, Failed}
    ensures err == ErrNone ==>
              && view.Valid() && view.nodes == c.nodes && view.paths == c.paths && Choose(view, clock, intent.selection) == Chosen(selected)
              && FindPath(c.paths, selected).Some?
              && AppliedPath(c.applied.paths, TrafficKey(intent.traffic)) == Some(selected)
              && (AppliedPath(c.net.vpp.active, TrafficKey(intent.traffic)) == Some(selected) ||
                  !old(AgreesAt(WorldOf(c), TrafficKey(intent.traffic))))
  {
    hide Represents, Observe, SwitchOutcome, TrafficKey, Choose, Bounded, Activated, Settled, MayRefuse, Smooth, Reliable, AllSettled, ObservedSet;
    ghost var before := WorldOf(c);
    var result;
    ghost var step, sw;
    err, result, step, view, sw := SubmitIntent(c, intent, clock);
    if err == ErrNone {
      selected := result.value.selectedPath;
      if step == Switched {
        SucceededStores(sw, before, WorldOf(c), c.net.vpp.capacity, c.applied.capacity, Observe(sw, c.net.trace), c.transitionState);
      }
    } else {
      selected := "";
    }
  }

  /** A new controller over a network, with what was persisted of this choice. */
  method Revive(net: Network, config: Config, intent: Intent, ghost clock: Clock, ghost view: View, selected: Id) returns (d: Controller)
    requires net.Valid()
    modifies net`trace
    requires forall i :: 0 <= i < |config.paths| ==> PathCountsValid(config.paths[i]) && config.paths[i].pathId != ""
    requires view.Valid() && view.nodes == config.nodes && view.paths == config.paths
    requires Choose(view, clock, intent.selection) == Chosen(selected) && Storable(intent.traffic, selected)
    requires IsToken(intent.traffic.source) && IsToken(intent.traffic.destination)
    ensures fresh(d) && d.Shape() && d.Backing() && d.net == net && d.transitionState == Idle
    ensures d.applied.paths == map[TrafficKey(intent.traffic) := selected]
  {
    hide Represents, TrafficKey, Choose, Storable, Activate, PathCountsValid, IsToken;
    d := new Controller(config.nodes, config.paths, config.tunnels, net);
    var ok;
    ghost var now;
    ok, now := PersistThenRestore(view, clock, intent, selected, d);
  }

  /** An intent of an accepted configuration is submitted to any controller of that configuration, after
      whatever run. If that succeeds, the line written is accepted by a new controller over the same backends,
      which then records for the key just what the old one does; and if the old one had agreed with the
      forwarding backend about the key, so does the new one. */
  method PersistAcrossRestart(config: Config, i: nat, c: Controller, clock: Clock)
    returns (accepted: ErrorCode, err: ErrorCode, restored: Option<Controller>)
    requires i < |config.intents| && |config.nodes| > 0
    requires c.Shape() && c.Backing() && c.transitionState in {Idle, Failed}
    requires c.nodes == config.nodes && c.paths == config.paths
    requires TrafficKey(config.intents[i].traffic) in c.applied.paths || |c.applied.paths| < c.applied.capacity
    modifies c`transitionState, c`opState, c`observed, c`health, c`intents, c.net`up, c.net`trace
    modifies c.net.vpp, c.net.vpp.trafficKeys, c.net.vpp.activePaths
    modifies c.applied, c.applied.trafficKeys, c.applied.appliedPaths, c.applied.appliedSinceMs
    ensures accepted == ErrNone && err == ErrNone ==>
              && restored.Some? && fresh(restored.value)
              && var d, key := restored.value, TrafficKey(config.intents[i].traffic);
              && d.Shape() && d.Backing() && d.net == c.net && d.transitionState == Idle
              && key in c.applied.paths && d.applied.paths == map[key := c.applied.paths[key]]
              && (old(AgreesAt(WorldOf(c), key)) ==> AgreesAt(WorldOf(d), key))
  {
    hide Represents, TrafficKey, Choose, Formed, Resolves, AgreesAt, Storable, PathCountsValid, FindPath, IsToken;
    restored, err := None, ErrNone;
    accepted := Validate(config);
    if accepted != ErrNone { return; }
    PathsLoadable(config);
    var intent, selected := config.intents[i], "";
    ghost var view, before := *, WorldOf(c);
    err, selected, view := SubmitAndReport(c, intent, clock);
    if err != ErrNone { return; }
    AcceptedIsStorable(config, i, selected);
    var d := Revive(c.net, config, intent, clock, view, selected);
    StillAgrees(before, WorldOf(c), WorldOf(d), TrafficKey(intent.traffic), selected);
    restored := Some(d);
  }

  lemma StillAgrees(before: World, after: World, again: World, key: Id, path: Id)
    requires AppliedPath(after.active, key) == Some(path) || !AgreesAt(before, key)
    requires again.active == after.active && again.applied == map[key := path]
    ensures AgreesAt(before, key) ==> AgreesAt(again, key)
  {
  }

  /** A controller whose table already records the key, restored or not, over a forwarding backend that may say
      something else. A path that is kept is served exactly if it was served before; a switch that is
      completed or undone repairs the key; one that fails half way leaves agreement exactly if the target was
      installed and kept, or was never installed and there was agreement before. */
  method SubmitOver(c: Controller, intent: Intent, clock: Clock) returns (err: ErrorCode, ghost step: Step, selected: Id)
    requires c.Shape() && c.Backing() && c.transitionState in {Idle, Failed}
    requires TrafficKey(intent.traffic) in c.applied.paths && c.applied.paths[TrafficKey(intent.traffic)] != ""
    modifies c`transitionState, c`opState, c`observed, c`health, c`intents, c.net`up, c.net`trace
    modifies c.net.vpp, c.net.vpp.trafficKeys, c.net.vpp.activePaths
    modifies c.applied, c.applied.trafficKeys, c.applied.appliedPaths, c.applied.appliedSinceMs
    ensures c.Shape() && c.Backing() && c.transitionState in {Idle, Failed}
    ensures step == Maintained ==>
              err == ErrNone && (AppliedPath(c.net.vpp.active, TrafficKey(intent.traffic)) == Some(selected) <==>
                                 old(AppliedPath(c.net.vpp.active, TrafficKey(intent.traffic)) == Some(selected)))
    ensures step == Switched && err == ErrNone ==> AppliedPath(c.net.vpp.active, TrafficKey(intent.traffic)) == Some(selected)
    ensures AgreesAt(WorldOf(c), TrafficKey(intent.traffic)) <==>
            if step != Switched then old(AgreesAt(WorldOf(c), TrafficKey(intent.traffic)))
            else c.transitionState == Idle ||
                 if Installed(TrafficKey(intent.traffic), selected, true) in c.net.trace
                 then Withdrawn(TrafficKey(intent.traffic), selected, true) !in c.net.trace
                 else old(AgreesAt(WorldOf(c), TrafficKey(intent.traffic)))
  {
    hide Represents, Observe, SwitchOutcome, TrafficKey, Choose, Bounded, Activated, Settled, MayRefuse, Smooth, Reliable, AllSettled, ObservedSet;
    hide AgreesAt;
    ghost var before := WorldOf(c);
    var result;
    ghost var view, sw;
    err, result, step, view, sw := SubmitIntent(c, intent, clock);
    selected := if result.Some? then result.value.selectedPath else "";
    if step == Switched {
      KeyAgreementExactly(sw, before, WorldOf(c), c.net.vpp.capacity, c.applied.capacity, c.net.trace, err, c.transitionState);
      if err == ErrNone {
        SucceededStores(sw, before, WorldOf(c), c.net.vpp.capacity, c.applied.capacity, Observe(sw, c.net.trace), c.transitionState);
      }
    }
  }
}
