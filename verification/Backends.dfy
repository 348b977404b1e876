/** The outside world as the controller's adapters show it (include/eventnet/controller.h): a tunnel
    backend, a forwarding backend and a health probe. Every call may fail where `faults` allows it, and
    a failed call leaves the backend as it was. The forwarding backend is the mock of
    src/vpp_adapter_mock.c, with its failure flag raised by the environment at any moment. */
module Backends {
  import opened Model
  import opened VppMockAdapter

  /** The optional function pointers of the adapters. `ensure_tunnel` has no null check in the source. */
  datatype Offers = Offers(
    removeTunnel: bool,
    installPath: bool,
    removePath: bool,
    activePath: bool,
    validatePath: bool)

  /** Which calls may misbehave. A query that does may answer anything; a `silent` one answers nothing. */
  datatype Faults = Faults(
    ensureTunnel: bool,
    removeTunnel: bool,
    installPath: bool,
    removePath: bool,
    activePath: bool,
    silent: bool,
    validatePath: bool)

  /** One call to an adapter, with what came back, one sleep, or one reading of the clock that is recorded. */
  datatype Call =
    | Ensured(tunnel: Id, ok: bool, desired: Tunnel)
    | TunnelRemoved(tunnel: Id, ok: bool)
    | Validated(path: Id, usable: bool)
    | Installed(key: Id, path: Id, ok: bool)
    | Withdrawn(key: Id, path: Id, ok: bool)
    | Queried(key: Id, answer: Option<Id>)
    | Slept(ms: nat)
    | Stamped(at: int)

  /** `validate_path` of the mock probe (src/health_probe.c): the stored telemetry of the path, failed if
      both observations are demanded and one is missing, or a default healthy record. */
  function MockHealth(telemetry: map<Id, PathHealth>, requireObservations: bool, path: Path, nowMs: int): (h: PathHealth)
  {
    if path.pathId in telemetry then
      var stored := telemetry[path.pathId];
      if requireObservations && (stored.interfaceState.None? || stored.routeState.None?) then
        stored.(pathId := path.pathId, state := HealthFailed, packetLossPercent := 100.0, lastUpdatedMs := nowMs)
      else
        stored.(pathId := path.pathId, lastUpdatedMs := nowMs)
    else
      PathHealth(path.pathId, "", 0, HealthHealthy, 10.0 * (|path.waypoints| + 1) as real, 0.0, 1.0, 0, 3,
                 None, "", "", "", None, None, nowMs)
  }

  class Network {
    const vpp: VppMock
    const offers: Offers
    const faults: Faults
    const requireObservations: bool
    var telemetry: map<Id, PathHealth>
    ghost var up: set<Id>
    ghost var trace: seq<Call>

    ghost predicate Valid()
      reads vpp, vpp.trafficKeys, vpp.activePaths
    {
      vpp.Valid()
    }

    constructor (vpp: VppMock, offers: Offers, faults: Faults, requireObservations: bool)
      requires vpp.Valid()
      ensures Valid() && this.vpp == vpp && this.offers == offers && this.faults == faults
      ensures this.requireObservations == requireObservations
      ensures up == {} && trace == [] && telemetry == map[]
    {
      this.vpp, this.offers, this.faults := vpp, offers, faults;
      this.requireObservations := requireObservations;
      telemetry, up, trace := map[], {}, [];
    }

    /** Starts a new observation of the calls made from here on. */
    ghost method Mark()
      modifies this`trace
      ensures trace == []
    {
      trace := [];
    }

    method Now() returns (ms: int) {
      ms := *;
    }

    /** The time that is recorded with an applied path. */
    method Stamp() returns (now: int)
      modifies this`trace
      ensures trace == old(trace) + [Stamped(now)]
    {
      now := Now();
      trace := trace + [Stamped(now)];
    }

    method Sleep(ms: nat)
      modifies this`trace
      ensures trace == if ms > 0 then old(trace) + [Slept(ms)] else old(trace)
    {
      if ms > 0 { trace := trace + [Slept(ms)]; }
    }

    method EnsureTunnel(desired: Tunnel) returns (err: ErrorCode, observed: Tunnel)
      modifies this`up, this`trace
      ensures trace == old(trace) + [Ensured(desired.tunnelId, err == ErrNone, desired)]
      ensures up == if err == ErrNone then old(up) + {desired.tunnelId} else old(up)
      ensures observed.tunnelId == desired.tunnelId
      ensures !faults.ensureTunnel ==> err == ErrNone
    {
      err, observed := ErrNone, desired.(state := TunnelEstablished, health := HealthHealthy);
      if faults.ensureTunnel { err := *; }
      if err == ErrNone { up := up + {desired.tunnelId}; }
      trace := trace + [Ensured(desired.tunnelId, err == ErrNone, desired)];
    }

    method RemoveTunnel(tunnel: Tunnel) returns (err: ErrorCode)
      modifies this`up, this`trace
      ensures trace == old(trace) + [TunnelRemoved(tunnel.tunnelId, err == ErrNone)]
      ensures up == if err == ErrNone then old(up) - {tunnel.tunnelId} else old(up)
      ensures !faults.removeTunnel ==> err == ErrNone
    {
      err := ErrNone;
      if faults.removeTunnel { err := *; }
      if err == ErrNone { up := up - {tunnel.tunnelId}; }
      trace := trace + [TunnelRemoved(tunnel.tunnelId, err == ErrNone)];
    }

    method ValidatePath(path: Path) returns (err: ErrorCode, health: PathHealth)
      modifies this`trace
      ensures trace == old(trace) + [Validated(path.pathId, err == ErrNone && health.state.Usable())]
      ensures !faults.validatePath ==>
                err == ErrNone && exists now :: health == MockHealth(telemetry, requireObservations, path, now)
    {
      err := ErrNone;
      var now := Now();
      health := MockHealth(telemetry, requireObservations, path, now);
      if faults.validatePath { err, health := *, *; }
      trace := trace + [Validated(path.pathId, err == ErrNone && health.state.Usable())];
      assert !faults.validatePath ==> health == MockHealth(telemetry, requireObservations, path, now);
    }

    /** Nothing stands in the way of installing a path for the key now. */
    ghost predicate Installable(key: Id)
      reads vpp`active, vpp`failNextUpdate
    {
      !faults.installPath && !vpp.failNextUpdate && (key in vpp.active || |vpp.active| < vpp.capacity)
    }

    method InstallPath(key: Id, path: Id) returns (err: ErrorCode)
      requires Valid()
      modifies this`trace, vpp, vpp.trafficKeys, vpp.activePaths
      ensures Valid()
      ensures trace == old(trace) + [Installed(key, path, err == ErrNone)]
      ensures vpp.active == if err == ErrNone then old(vpp.active)[key := path] else old(vpp.active)
      ensures err == ErrNone ==> key in old(vpp.active) || |old(vpp.active)| < vpp.capacity
      ensures old(Installable(key)) ==> err == ErrNone
    {
      if faults.installPath { vpp.failNextUpdate := *; }
      err := vpp.InstallPath(key, path);
      trace := trace + [Installed(key, path, err == ErrNone)];
    }

    method RemovePath(key: Id, path: Id) returns (err: ErrorCode)
      requires Valid()
      modifies this`trace, vpp, vpp.trafficKeys, vpp.activePaths
      ensures Valid()
      ensures trace == old(trace) + [Withdrawn(key, path, err == ErrNone)]
      ensures vpp.active ==
              if err == ErrNone && key in old(vpp.active) && old(vpp.active)[key] == path then old(vpp.active) - {key}
              else old(vpp.active)
      ensures !faults.removePath ==> err == ErrNone
      ensures forall k :: old(Installable(k)) ==> Installable(k)
    {
      err := ErrNone;
      if faults.removePath { err := *; }
      if err == ErrNone { err := vpp.RemovePath(key, path); }
      trace := trace + [Withdrawn(key, path, err == ErrNone)];
    }

    method ActivePath(key: Id) returns (answer: Option<Id>)
      requires Valid()
      modifies this`trace
      ensures trace == old(trace) + [Queried(key, answer)]
      ensures !faults.activePath ==> answer == if key in vpp.active then Some(vpp.active[key]) else None
      ensures faults.activePath && faults.silent ==> answer == None
    {
      answer := vpp.ActivePath(key);
      if faults.activePath { answer := *; }
      if faults.activePath && faults.silent { answer := None; }
      trace := trace + [Queried(key, answer)];
    }
  }
}
