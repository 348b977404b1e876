/** The transition engine (src/transition.c): prepare, ready, commit, confirm and clean up, the first four
    with retries, and a compensating rollback.

    Each phase states what it changes and, through `Observe`, what its calls amount to. `TransitionPath`
    puts these together into the outcome of a whole switch. */
module Transition {
  import opened Model
  import opened Backends
  import opened ControllerState
  import opened PathSelection
  import opened Traces
  import opened Rounds
  import opened Tables
  import opened TrafficKeys

  /** The switch of `key` to path `t`, as the controller stands. */
  ghost predicate IsSwitch(c: Controller, sw: Switch, key: Id, previous: Id, t: nat)
    requires t < |c.paths|
  {
    sw == Switch(key, c.paths[t].pathId, c.paths[t].Tunnels(), previous, c.TunnelsOf(previous), c.net.offers.activePath)
  }

  // ----- effects of the phases on the progress of a switch -----

  /** Only tunnels were brought up, at most `n` calls, all of `tunnels` if it succeeded. */
  ghost predicate EnsuredMore(p: Progress, q: Progress, tunnels: set<Id>, n: nat, ok: bool) {
    && q == p.(ensured := q.ensured, attempts := q.attempts)
    && p.ensured <= q.ensured
    && q.attempts <= p.attempts + n
    && (ok ==> tunnels <= q.ensured)
  }

  // ----- prepare -----

  /** Bringing up a tunnel never fails, and these tunnels fit the table of observed ones. */
  ghost predicate Reachable(net: Network, tunnels: set<Id>) {
    !net.faults.ensureTunnel && |tunnels| <= MAX_TUNNELS
  }

  /** A set grew, by some of `added` at most. */
  ghost predicate Grew(before: set<Id>, after: set<Id>, added: set<Id>) {
    before <= after <= before + added
  }

  lemma ReachablePart(net: Network, part: set<Id>, tunnels: set<Id>)
    requires part <= tunnels
    ensures |part| <= |tunnels|
    ensures Reachable(net, tunnels) ==> Reachable(net, part)
  {
    assert tunnels == part + (tunnels - part);
  }

  lemma EnsuredStep(sw: Switch, trace: seq<Call>, tunnel: Id, ok: bool, desired: Tunnel)
    requires tunnel in sw.targetTunnels + sw.previousTunnels
    ensures var p, q := Observe(sw, trace), Observe(sw, trace + [Ensured(tunnel, ok, desired)]);
            EnsuredMore(p, q, {tunnel}, 1, ok) && EnsuredMore(p, q, {tunnel}, 1, false)
  {
    hide Observe;
    ObserveStep(sw, trace, Ensured(tunnel, ok, desired));
  }

  method EnsureSegment(c: Controller, segment: Segment, ghost sw: Switch) returns (err: ErrorCode, ghost ok: bool)
    requires c.Shape()
    requires segment.tunnelId in sw.targetTunnels + sw.previousTunnels
    modifies c`observed, c.net`up, c.net`trace
    ensures err == ErrNotFound ==> c.net.faults.ensureTunnel || c.net.faults.validatePath
    ensures c.Shape()
    ensures Grew(old(c.net.up), c.net.up, {segment.tunnelId})
    ensures Grew(old(c.observed.Keys), c.observed.Keys, {segment.tunnelId})
    ensures err == ErrNone ==> segment.tunnelId in c.net.up && segment.tunnelId in c.observed
    ensures EnsuredMore(old(Observe(sw, c.net.trace)), Observe(sw, c.net.trace), {segment.tunnelId}, 1, err == ErrNone)
    ensures c.net.trace == old(c.net.trace) + [Ensured(segment.tunnelId, ok, c.DesiredFor(segment))]
    ensures (err == ErrNone ==> ok) && (ok && err != ErrNone ==> err == ErrInvalidArgument)
    ensures ok && |old(c.observed.Keys) + {segment.tunnelId}| <= MAX_TUNNELS ==> err == ErrNone
    ensures Reachable(c.net, old(c.observed.Keys) + {segment.tunnelId}) ==> err == ErrNone
  {
    hide Observe, Represents, EnsuredMore;
    var desired := c.DesiredFor(segment);
    var observed;
    EnsuredStep(sw, c.net.trace, segment.tunnelId, true, desired);
    EnsuredStep(sw, c.net.trace, segment.tunnelId, false, desired);
    err, observed := c.net.EnsureTunnel(desired);
    ok := err == ErrNone;
    if err != ErrNone { return; }
    if observed.tunnelId in c.observed || |c.observed| < MAX_TUNNELS {
      c.observed := c.observed[observed.tunnelId := observed];
    } else {
      err := ErrInvalidArgument;
    }
  }

  /** The tunnels of the first `n` segments are there. */
  ghost predicate Collected(path: Path, n: nat, tunnels: set<Id>)
    requires n <= |path.segments|
  {
    forall i :: 0 <= i < n ==> path.segments[i].tunnelId in tunnels
  }

  lemma CollectedAll(path: Path, tunnels: set<Id>)
    ensures Collected(path, 0, tunnels)
    ensures Collected(path, |path.segments|, tunnels) ==> path.Tunnels() <= tunnels
  {
  }

  lemma SegmentTunnel(path: Path, i: nat)
    requires i < |path.segments|
    ensures path.segments[i].tunnelId in path.Tunnels()
  {
  }

  /** A part of the calls of a round; all of them were successful. */
  ghost predicate PartOfRound(wanted: seq<Tunnel>, r: seq<Call>, i: nat)
  {
    |r| == i <= |wanted| && forall k :: 0 <= k < i ==> r[k] == Ensured(wanted[k].tunnelId, true, wanted[k])
  }

  lemma RoundStarts(wanted: seq<Tunnel>)
    ensures PartOfRound(wanted, [], 0)
  {
  }

  lemma RoundGoesOn(wanted: seq<Tunnel>, room: bool, r: seq<Call>, i: nat, called: bool, ok: bool)
    requires PartOfRound(wanted, r, i) && i < |wanted| && (ok ==> called) && (room && called ==> ok)
    ensures var next := r + [Ensured(wanted[i].tunnelId, called, wanted[i])];
            if ok then PartOfRound(wanted, next, i + 1) else IsPrepareRound(wanted, room, next, false)
  {
  }

  lemma RoundEnds(wanted: seq<Tunnel>, room: bool, r: seq<Call>)
    requires PartOfRound(wanted, r, |wanted|)
    ensures IsPrepareRound(wanted, room, r, true)
  {
  }

  /** The table of observed tunnels can take all tunnels of the path. */
  ghost predicate Roomy(observed: set<Id>, path: Path) {
    |observed + path.Tunnels()| <= MAX_TUNNELS
  }

  lemma RoomForOne(before: set<Id>, now: set<Id>, path: Path, i: nat)
    requires i < |path.segments| && Grew(before, now, path.Tunnels()) && Roomy(before, path)
    ensures |now + {path.segments[i].tunnelId}| <= MAX_TUNNELS
  {
    SegmentTunnel(path, i);
    var part, all := now + {path.segments[i].tunnelId}, before + path.Tunnels();
    assert all == part + (all - part);
  }

  lemma StillRoomy(before: set<Id>, now: set<Id>, path: Path)
    requires Grew(before, now, path.Tunnels())
    ensures Roomy(now, path) <==> Roomy(before, path)
  {
    assert now + path.Tunnels() == before + path.Tunnels();
  }

  lemma GrewMore(before: set<Id>, now: set<Id>, after: set<Id>, path: Path, i: nat, net: Network)
    requires i < |path.segments| && Grew(before, now, path.Tunnels())
    ensures Reachable(net, before + path.Tunnels()) ==> Reachable(net, now + {path.segments[i].tunnelId})
    ensures Grew(now, after, {path.segments[i].tunnelId}) ==> Grew(before, after, path.Tunnels())
    ensures Grew(now, after, {path.segments[i].tunnelId}) && Collected(path, i, now) && path.segments[i].tunnelId in after ==>
              Collected(path, i + 1, after)
  {
    SegmentTunnel(path, i);
    ReachablePart(net, now + {path.segments[i].tunnelId}, before + path.Tunnels());
  }

  lemma NothingGrew(a: set<Id>, added: set<Id>, p: Progress)
    ensures Grew(a, a, added) && EnsuredMore(p, p, {}, 0, true)
  {
  }

  lemma EnsuredOneMore(p: Progress, q: Progress, r: Progress, path: Path, i: nat, ok: bool)
    requires i < |path.segments|
    requires EnsuredMore(p, q, {}, i, true) && EnsuredMore(q, r, {path.segments[i].tunnelId}, 1, ok)
    ensures EnsuredMore(p, r, path.Tunnels(), |path.segments|, false)
    ensures ok ==> EnsuredMore(p, r, {}, i + 1, true)
    ensures ok && Collected(path, i, q.ensured) ==> Collected(path, i + 1, r.ensured)
  {
  }

  lemma EnsuredAll(p: Progress, q: Progress, path: Path)
    requires EnsuredMore(p, q, {}, |path.segments|, true) && Collected(path, |path.segments|, q.ensured)
    ensures EnsuredMore(p, q, path.Tunnels(), |path.segments|, true)
  {
    CollectedAll(path, q.ensured);
  }

  /** Brings up the tunnels of all segments, or stops at the first failure. */
  method EnsureSegments(c: Controller, p: nat, ghost room: bool, ghost sw: Switch) returns (err: ErrorCode, ghost round: seq<Call>)
    requires c.Shape() && p < |c.paths|
    requires room ==> Roomy(c.observed.Keys, c.paths[p])
    requires c.paths[p].Tunnels() <= sw.targetTunnels + sw.previousTunnels
    modifies c`observed, c.net`up, c.net`trace
    ensures err == ErrNotFound ==> c.net.faults.ensureTunnel || c.net.faults.validatePath
    ensures c.Shape()
    ensures Grew(old(c.net.up), c.net.up, c.paths[p].Tunnels())
    ensures Grew(old(c.observed.Keys), c.observed.Keys, c.paths[p].Tunnels())
    ensures err == ErrNone ==> c.paths[p].Tunnels() <= c.net.up && c.paths[p].Tunnels() <= c.observed.Keys
    ensures EnsuredMore(old(Observe(sw, c.net.trace)), Observe(sw, c.net.trace), c.paths[p].Tunnels(), |c.paths[p].segments|, err == ErrNone)
    ensures Reachable(c.net, old(c.observed.Keys) + c.paths[p].Tunnels()) ==> err == ErrNone
    ensures c.net.trace == old(c.net.trace) + round && IsPrepareRound(c.Wanted(p), room, round, err == ErrNone)
    ensures err != ErrNone && round[|round| - 1].ok ==> err == ErrInvalidArgument
  {
    hide Observe, Represents, EnsuredMore, Reachable, Path.Tunnels, Collected, PathCountsValid, Controller.Shape, Grew;
    hide PartOfRound, IsPrepareRound, Roomy, Controller.Wanted, Controller.DesiredFor;
    ghost var wanted := c.Wanted(p);
    ghost var path, start := c.paths[p], Observe(sw, c.net.trace);
    var segments := c.paths[p].segments;
    NothingGrew(c.net.up, path.Tunnels(), start);
    NothingGrew(c.observed.Keys, path.Tunnels(), start);
    CollectedAll(path, c.net.up);
    CollectedAll(path, c.observed.Keys);
    CollectedAll(path, start.ensured);
    round := [];
    RoundStarts(wanted);
    var i := 0;
    while i < |segments|
      invariant 0 <= i <= |segments|
      invariant c.Shape()
      invariant Grew(old(c.net.up), c.net.up, path.Tunnels()) && Grew(old(c.observed.Keys), c.observed.Keys, path.Tunnels())
      invariant Collected(path, i, c.net.up) && Collected(path, i, c.observed.Keys)
      invariant Collected(path, i, Observe(sw, c.net.trace).ensured)
      invariant EnsuredMore(start, Observe(sw, c.net.trace), {}, i, true)
      invariant c.net.trace == old(c.net.trace) + round && PartOfRound(wanted, round, i)
    {
      ghost var q, up, observed := Observe(sw, c.net.trace), c.net.up, c.observed.Keys;
      SegmentTunnel(path, i);
      GrewMore(old(c.observed.Keys), observed, observed, path, i, c.net);
      if room { RoomForOne(old(c.observed.Keys), observed, path, i); }
      ghost var called;
      err, called := EnsureSegment(c, segments[i], sw);
      RoundGoesOn(wanted, room, round, i, called, err == ErrNone);
      round := round + [Ensured(segments[i].tunnelId, called, wanted[i])];
      GrewMore(old(c.net.up), up, c.net.up, path, i, c.net);
      GrewMore(old(c.observed.Keys), observed, c.observed.Keys, path, i, c.net);
      EnsuredOneMore(start, q, Observe(sw, c.net.trace), path, i, err == ErrNone);
      if err != ErrNone { return; }
      i := i + 1;
    }
    RoundEnds(wanted, room, round);
    EnsuredAll(start, Observe(sw, c.net.trace), path);
    CollectedAll(path, c.net.up);
    CollectedAll(path, c.observed.Keys);
    err := ErrNone;
  }

  method TransitionPrepare(c: Controller, p: nat, ghost room: bool, ghost sw: Switch) returns (err: ErrorCode, ghost round: seq<Call>)
    requires c.Shape() && p < |c.paths|
    requires room ==> Roomy(c.observed.Keys, c.paths[p])
    requires c.paths[p].Tunnels() <= sw.targetTunnels + sw.previousTunnels
    modifies c`opState, c`observed, c.net`up, c.net`trace
    ensures err == ErrNotFound ==> c.net.faults.ensureTunnel || c.net.faults.validatePath
    ensures c.Shape()
    ensures c.opState == old(c.opState)[p := if err == ErrNone then PathReady else PathPreparing]
    ensures old(c.net.up) <= c.net.up <= old(c.net.up) + c.paths[p].Tunnels()
    ensures old(c.observed.Keys) <= c.observed.Keys <= old(c.observed.Keys) + c.paths[p].Tunnels()
    ensures err == ErrNone ==> c.paths[p].Tunnels() <= c.net.up && c.paths[p].Tunnels() <= c.observed.Keys
    ensures EnsuredMore(old(Observe(sw, c.net.trace)), Observe(sw, c.net.trace), c.paths[p].Tunnels(), |c.paths[p].segments|, err == ErrNone)
    ensures Reachable(c.net, old(c.observed.Keys) + c.paths[p].Tunnels()) ==> err == ErrNone
    ensures c.net.trace == old(c.net.trace) + round && IsPrepareRound(c.Wanted(p), room, round, err == ErrNone)
    ensures err != ErrNone && round[|round| - 1].ok ==> err == ErrInvalidArgument
  {
    hide Observe, Represents, EnsuredMore, Reachable, Path.Tunnels, PathCountsValid, IsPrepareRound, Roomy, Controller.Wanted;
    c.opState := c.opState[p := PathPreparing];
    err, round := EnsureSegments(c, p, room, sw);
    if err != ErrNone { return; }
    c.opState := c.opState[p := PathReady];
  }

  // ----- retries -----

  /** Nothing but waiting, at most `ms`. */
  ghost predicate Waited(p: Progress, q: Progress, ms: nat) {
    q == p.(slept := q.slept) && q.slept <= p.slept + ms
  }

  const INT_MAX: int64 := 0x7fff_ffff

  lemma BackoffFits(backoff: int, attempt: int)
    requires 0 <= backoff <= 0x7fff_ffff && 0 <= attempt < 0x7fff_ffff
    ensures 0 <= backoff * (attempt + 1) < 0x8000_0000_0000_0000
  {
    ProductMonotone(backoff, 0x7fff_ffff, attempt + 1);
  }

  lemma SleptStep(sw: Switch, trace: seq<Call>, ms: nat)
    ensures Waited(Observe(sw, trace), Observe(sw, trace + [Slept(ms)]), ms)
    ensures Waited(Observe(sw, trace), Observe(sw, trace), ms)
  {
    hide Observe;
    ObserveStep(sw, trace, Slept(ms));
  }

  /** Waits before the next attempt; the product is computed in 64 bits and never overflows. */
  method RetryWait(c: Controller, policy: Policy, attempt: int32, ghost sw: Switch)
    requires PolicyValid(policy) && 0 <= attempt < policy.retryCount
    modifies c.net`trace
    ensures Waited(old(Observe(sw, c.net.trace)), Observe(sw, c.net.trace), policy.retryBackoffMs as int * (attempt as int + 1))
    ensures c.net.trace == old(c.net.trace) + WaitAfter(policy, attempt as int + 1)
  {
    hide Observe, Represents;
    if policy.retryBackoffMs <= 0 { return; }
    BackoffFits(policy.retryBackoffMs as int, attempt as int);
    var delay: int64 := policy.retryBackoffMs as int64 * (attempt as int64 + 1);
    if delay > INT_MAX { delay := INT_MAX; }
    ObserveStep(sw, c.net.trace, Slept(delay as int));
    c.net.Sleep(delay as int);
  }

  /** Tunnels were brought up over several attempts of at most `n` calls, with waits in between. */
  ghost predicate EnsuredWithRetries(p: Progress, q: Progress, tunnels: set<Id>, calls: nat, ms: nat, ok: bool) {
    && q == p.(ensured := q.ensured, attempts := q.attempts, slept := q.slept)
    && p.ensured <= q.ensured
    && q.attempts <= p.attempts + calls
    && q.slept <= p.slept + ms
    && (ok ==> tunnels <= q.ensured)
  }

  lemma PrepareRepeated(p: Progress, q: Progress, r: Progress, tunnels: set<Id>, n: nat, backoff: nat, attempt: nat, retries: nat, ok: bool)
    requires attempt <= retries
    requires EnsuredWithRetries(p, q, {}, Times(n, attempt), Backoffs(backoff, attempt), true) && EnsuredMore(q, r, tunnels, n, ok)
    ensures EnsuredWithRetries(p, r, {}, Times(n, attempt + 1), Backoffs(backoff, attempt), true)
    ensures EnsuredWithRetries(p, r, tunnels, Times(n, retries + 1), Backoffs(backoff, retries), ok)
  {
    BackoffsMonotone(backoff, attempt, retries);
    TimesMonotone(n, attempt + 1, retries + 1);
  }

  lemma PrepareWaited(p: Progress, q: Progress, r: Progress, calls: nat, backoff: nat, attempt: nat)
    requires EnsuredWithRetries(p, q, {}, calls, Backoffs(backoff, attempt), true) && Waited(q, r, backoff * (attempt + 1))
    ensures EnsuredWithRetries(p, r, {}, calls, Backoffs(backoff, attempt + 1), true)
  {
  }

  lemma NothingEnsured(p: Progress)
    ensures EnsuredWithRetries(p, p, {}, 0, 0, true)
  {
  }

  lemma NoneYet(n: nat, backoff: nat)
    ensures Times(n, 0) == 0 && Backoffs(backoff, 0) == 0
  {
  }

  lemma PrepareError(s: Setting, before: seq<Call>, round: seq<Call>, err: ErrorCode)
    requires IsPrepareRound(s.wanted, s.room, round, err == ErrNone)
    requires err != ErrNone && round[|round| - 1].ok ==> err == ErrInvalidArgument
    ensures err != ErrNone ==> IsErrorOf(s, 0, before + round, err)
  {
    if err != ErrNone { assert (before + round)[|before + round| - 1] == round[|round| - 1]; }
  }

  method TransitionPrepareRetry(c: Controller, policy: Policy, p: nat, ghost s: Setting, ghost sw: Switch) returns (err: ErrorCode)
    requires c.Shape() && p < |c.paths| && PolicyValid(policy)
    requires s.wanted == c.Wanted(p) && s.policy == policy && (s.room ==> Roomy(c.observed.Keys, c.paths[p]))
    requires c.paths[p].Tunnels() <= sw.targetTunnels + sw.previousTunnels
    modifies c`opState, c`observed, c.net`up, c.net`trace
    ensures err == ErrNotFound ==> c.net.faults.ensureTunnel || c.net.faults.validatePath
    ensures c.Shape()
    ensures c.opState == old(c.opState)[p := if err == ErrNone then PathReady else PathPreparing]
    ensures old(c.net.up) <= c.net.up <= old(c.net.up) + c.paths[p].Tunnels()
    ensures old(c.observed.Keys) <= c.observed.Keys
    ensures Ran(s, PreparePhase, old(c.net.trace), c.net.trace, err == ErrNone)
    ensures err != ErrNone ==> IsErrorOf(s, 0, c.net.trace, err)
    ensures err == ErrNone ==> c.paths[p].Tunnels() <= c.net.up && c.paths[p].Tunnels() <= c.observed.Keys
    ensures EnsuredWithRetries(old(Observe(sw, c.net.trace)), Observe(sw, c.net.trace), c.paths[p].Tunnels(),
                               Times(|c.paths[p].segments|, policy.retryCount as int + 1),
                               Backoffs(policy.retryBackoffMs as int, policy.retryCount as int), err == ErrNone)
    ensures Reachable(c.net, old(c.observed.Keys) + c.paths[p].Tunnels()) ==> err == ErrNone
  {
    hide Observe, Represents, EnsuredWithRetries, EnsuredMore, Waited, Times, Backoffs, Path.Tunnels, Reachable;
    hide Roomy, IsPrepareRound, Ran, Trying, WaitAfter, IsErrorOf, Controller.Wanted;
    ghost var n := |c.paths[p].segments|;
    ghost var backoff := policy.retryBackoffMs as int;
    ghost var start := Observe(sw, c.net.trace);
    NothingEnsured(start);
    NoneYet(n, backoff);
    ghost var failed: seq<seq<Call>> := [];
    StartTrying(s, PreparePhase, c.net.trace);
    err := ErrNone;
    var attempt: int32 := 0;
    while attempt <= policy.retryCount
      invariant 0 <= attempt <= policy.retryCount
      invariant c.Shape()
      invariant Reachable(c.net, old(c.observed.Keys) + c.paths[p].Tunnels()) ==> attempt == 0
      invariant attempt == 0 ==> c.opState == old(c.opState) && c.observed == old(c.observed)
      invariant attempt > 0 ==> c.opState == old(c.opState)[p := PathPreparing]
      invariant old(c.net.up) <= c.net.up <= old(c.net.up) + c.paths[p].Tunnels()
      invariant old(c.observed.Keys) <= c.observed.Keys <= old(c.observed.Keys) + c.paths[p].Tunnels()
      invariant |failed| == attempt as int && Trying(s, PreparePhase, old(c.net.trace), c.net.trace, failed)
      invariant EnsuredWithRetries(old(Observe(sw, c.net.trace)), Observe(sw, c.net.trace), {}, Times(n, attempt as int),
                                   Backoffs(backoff, attempt as int), true)
      decreases policy.retryCount as int - attempt as int
    {
      ghost var q := Observe(sw, c.net.trace);
      ghost var now, round := c.net.trace, [];
      StillRoomy(old(c.observed.Keys), c.observed.Keys, c.paths[p]);
      err, round := TransitionPrepare(c, p, s.room, sw);
      ghost var r := Observe(sw, c.net.trace);
      PrepareRepeated(start, q, r, c.paths[p].Tunnels(), n, backoff, attempt as int, policy.retryCount as int, err == ErrNone);
      if err == ErrNone || attempt == policy.retryCount {
        PrepareError(s, now, round, err);
        LastRound(s, PreparePhase, old(c.net.trace), now, failed, round, err == ErrNone);
        return;
      }
      RetryWait(c, policy, attempt, sw);
      PrepareWaited(start, r, Observe(sw, c.net.trace), Times(n, attempt as int + 1), backoff, attempt as int);
      TryAgain(s, PreparePhase, old(c.net.trace), now, failed, round);
      failed := failed + [round];
      attempt := attempt + 1;
    }
  }

  // ----- ready -----

  /** What the mock probe would report of path `p` now. */
  ghost function ProbeReading(c: Controller, p: nat): Reading
    requires p < |c.paths|
    reads c.net`telemetry
  {
    ReadingOf(MockHealth(c.net.telemetry, c.net.requireObservations, c.paths[p], 0))
  }

  /** The readings after one more arrived in a table with room for `MAX_PATHS`. */
  function Remembered(readings: map<Id, Reading>, id: Id, reading: Reading): map<Id, Reading> {
    if id in readings || |readings| < MAX_PATHS then readings[id := reading] else readings
  }

  lemma ReadingsUpdate(health: map<Id, PathHealth>, id: Id, h: PathHealth)
    ensures ReadingsOf(if id in health || |health| < MAX_PATHS then health[id := h] else health) ==
            Remembered(ReadingsOf(health), id, ReadingOf(h))
  {
    assert ReadingsOf(health).Keys == health.Keys;
  }

  lemma RememberedTwice(readings: map<Id, Reading>, id: Id, reading: Reading)
    ensures Remembered(Remembered(readings, id, reading), id, reading) == Remembered(readings, id, reading)
  {
  }

  ghost predicate ValidatedOnly(p: Progress, q: Progress, ms: nat, ok: bool) {
    q == p.(validated := q.validated, slept := q.slept) && q.slept <= p.slept + ms && (ok ==> q.validated)
  }

  lemma ReadingIgnoresClock(telemetry: map<Id, PathHealth>, requireObservations: bool, path: Path, now: int)
    ensures ReadingOf(MockHealth(telemetry, requireObservations, path, now)) == ReadingOf(MockHealth(telemetry, requireObservations, path, 0))
    ensures MockHealth(telemetry, requireObservations, path, now).pathId == path.pathId
  {
  }

  /** Asks the probe about a path and stores what it says. */
  method StoreProbe(c: Controller, p: nat) returns (err: ErrorCode, usable: bool)
    requires p < |c.paths|
    modifies c`health, c.net`trace
    ensures c.net.trace == old(c.net.trace) + [Validated(c.paths[p].pathId, err == ErrNone && usable)]
    ensures err != ErrNone ==> c.health == old(c.health)
    ensures old(c.health.Keys) <= c.health.Keys
    ensures !c.net.faults.validatePath ==>
              && c.health.Keys <= old(c.health.Keys) + {c.paths[p].pathId}
              && err == ErrNone && (usable <==> ProbeReading(c, p).state.Usable())
              && c.Readings() == Remembered(old(c.Readings()), c.paths[p].pathId, ProbeReading(c, p))
  {
    hide ReadingsOf, Remembered, MockHealth;
    var health;
    err, health := c.net.ValidatePath(c.paths[p]);
    usable := health.state.Usable();
    if err != ErrNone { return; }
    if !c.net.faults.validatePath {
      ghost var now :| health == MockHealth(c.net.telemetry, c.net.requireObservations, c.paths[p], now);
      ReadingIgnoresClock(c.net.telemetry, c.net.requireObservations, c.paths[p], now);
    }
    c.StoreHealth(health);
    ReadingsUpdate(old(c.health), health.pathId, health);
  }

  /** The probe can be asked and would say that the path is usable. */
  ghost predicate Passable(c: Controller, p: nat)
    requires p < |c.paths|
    reads c.net`telemetry
  {
    c.net.offers.validatePath && !c.net.faults.validatePath && ProbeReading(c, p).state.Usable()
  }

  method TransitionReady(c: Controller, p: nat, ghost s: Setting, ghost sw: Switch) returns (err: ErrorCode, ghost round: seq<Call>)
    requires p < |c.paths| && sw.target == c.paths[p].pathId && s.sw == sw && s.offers == c.net.offers && s.steady == !c.net.faults.validatePath
    modifies c`transitionState, c`health, c.net`trace
    ensures err == ErrNotFound ==> c.net.faults.ensureTunnel || c.net.faults.validatePath
    ensures ValidatedOnly(old(Observe(sw, c.net.trace)), Observe(sw, c.net.trace), 0, err == ErrNone)
    ensures err == ErrNone ==> c.transitionState == Ready && c.net.offers.validatePath
    ensures !c.net.offers.validatePath ==> c.health == old(c.health)
    ensures c.net.offers.validatePath && !c.net.faults.validatePath ==>
              c.Readings() == Remembered(old(c.Readings()), c.paths[p].pathId, ProbeReading(c, p))
    ensures Passable(c, p) ==> err == ErrNone
    ensures err != ErrNone ==> IsErrorOf(s, 1, c.net.trace, err)
    ensures c.net.trace == old(c.net.trace) + round && IsReadyRound(s, round, err == ErrNone)
  {
    hide Observe, Represents, ReadingsOf, Remembered, ProbeReading;
    c.transitionState := Validating;
    round := [];
    if !c.net.offers.validatePath { return ErrInvalidArgument, round; }
    ObserveStep(sw, c.net.trace, Validated(sw.target, true));
    ObserveStep(sw, c.net.trace, Validated(sw.target, false));
    var usable;
    err, usable := StoreProbe(c, p);
    round := [Validated(sw.target, err == ErrNone && usable)];
    if err != ErrNone { return; }
    if !usable { return ErrPathValidationFailed, round; }
    c.transitionState := Ready;
  }

  method TransitionReadyRetry(c: Controller, policy: Policy, p: nat, ghost s: Setting, ghost sw: Switch) returns (err: ErrorCode)
    requires p < |c.paths| && sw.target == c.paths[p].pathId && PolicyValid(policy)
    requires s.sw == sw && s.policy == policy && s.offers == c.net.offers && s.steady == !c.net.faults.validatePath
    modifies c`transitionState, c`health, c.net`trace
    ensures err == ErrNotFound ==> c.net.faults.ensureTunnel || c.net.faults.validatePath
    ensures ValidatedOnly(old(Observe(sw, c.net.trace)), Observe(sw, c.net.trace),
                          Backoffs(policy.retryBackoffMs as int, policy.retryCount as int), err == ErrNone)
    ensures err == ErrNone ==> c.transitionState == Ready && c.net.offers.validatePath
    ensures !c.net.offers.validatePath ==> c.health == old(c.health)
    ensures c.net.offers.validatePath && !c.net.faults.validatePath ==>
              c.Readings() == Remembered(old(c.Readings()), c.paths[p].pathId, ProbeReading(c, p))
    ensures Passable(c, p) ==> err == ErrNone
    ensures err != ErrNone ==> IsErrorOf(s, 1, c.net.trace, err)
    ensures Ran(s, ReadyPhase, old(c.net.trace), c.net.trace, err == ErrNone)
  {
    hide Observe, Represents, Ran, Trying, WaitAfter, IsReadyRound, IsErrorOf, Remembered, ProbeReading;
    ghost var backoff := policy.retryBackoffMs as int;
    ghost var failed: seq<seq<Call>> := [];
    StartTrying(s, ReadyPhase, c.net.trace);
    err := ErrNone;
    var attempt: int32 := 0;
    while attempt <= policy.retryCount
      invariant 0 <= attempt <= policy.retryCount
      invariant ValidatedOnly(old(Observe(sw, c.net.trace)), Observe(sw, c.net.trace), Backoffs(backoff, attempt as int), false)
      invariant Passable(c, p) ==> attempt == 0
      invariant |failed| == attempt as int && Trying(s, ReadyPhase, old(c.net.trace), c.net.trace, failed)
      invariant attempt == 0 || !c.net.offers.validatePath ==> c.health == old(c.health)
      invariant attempt > 0 && c.net.offers.validatePath && !c.net.faults.validatePath ==>
                  c.Readings() == Remembered(old(c.Readings()), c.paths[p].pathId, ProbeReading(c, p))
      decreases policy.retryCount as int - attempt as int
    {
      RememberedTwice(old(c.Readings()), c.paths[p].pathId, ProbeReading(c, p));
      ghost var now, round := c.net.trace, [];
      err, round := TransitionReady(c, p, s, sw);
      if err == ErrNone || attempt == policy.retryCount {
        LastRound(s, ReadyPhase, old(c.net.trace), now, failed, round, err == ErrNone);
        BackoffsMonotone(backoff, attempt as int, policy.retryCount as int);
        return;
      }
      RetryWait(c, policy, attempt, sw);
      TryAgain(s, ReadyPhase, old(c.net.trace), now, failed, round);
      failed := failed + [round];
      attempt := attempt + 1;
    }
  }

  // ----- commit -----

  /** One more attempt to install the target; nothing else happened but waiting. */
  ghost predicate InstalledMore(p: Progress, q: Progress, sw: Switch, calls: nat, ms: nat, ok: bool) {
    && q == p.(served := q.served, confirmed := q.confirmed, installs := q.installs, slept := q.slept)
    && q.served == (p.served || ok)
    && q.confirmed == (p.confirmed || (ok && !sw.queries))
    && q.installs <= p.installs + calls
    && q.slept <= p.slept + ms
  }

  /** Operational states outside the two paths of a switch are left alone. */
  ghost predicate OthersKeep(before: seq<PathState>, after: seq<PathState>, t: nat, previous: Option<nat>) {
    && |after| == |before|
    && forall i :: 0 <= i < |before| && i != t && previous != Some(i) ==> after[i] == before[i]
  }

  lemma WaitedTwice(p: Progress, q: Progress, r: Progress, first: nat, second: nat)
    requires Waited(p, q, first) && Waited(q, r, second)
    ensures Waited(p, r, first + second)
  {
  }

  method Pause(c: Controller, policy: Policy, t: nat, previous: Option<nat>, ghost sw: Switch)
    requires c.Shape() && t < |c.paths| && (previous.Some? ==> previous.value < |c.paths|)
    requires PolicyValid(policy) && policy.strategy == Graceful
    modifies c`transitionState, c`opState, c.net`trace
    ensures c.Shape()
    ensures OthersKeep(old(c.opState), c.opState, t, previous)
    ensures Waited(old(Observe(sw, c.net.trace)), Observe(sw, c.net.trace), policy.maxPauseMs as int + policy.drainTimeoutMs as int)
    ensures c.net.trace == old(c.net.trace) + Pauses(policy)
  {
    hide Observe, Represents, Waited;
    ghost var p := Observe(sw, c.net.trace);
    c.transitionState := Pausing;
    if previous.Some? && previous.value != t {
      c.opState := c.opState[previous.value := PathDraining];
    }
    SleptStep(sw, c.net.trace, policy.maxPauseMs as int);
    c.net.Sleep(policy.maxPauseMs as int);
    ghost var q := Observe(sw, c.net.trace);
    c.transitionState := Draining;
    c.opState := c.opState[t := PathDraining];
    SleptStep(sw, c.net.trace, policy.drainTimeoutMs as int);
    c.net.Sleep(policy.drainTimeoutMs as int);
    WaitedTwice(p, q, Observe(sw, c.net.trace), policy.maxPauseMs as int, policy.drainTimeoutMs as int);
  }

  /** Forwarding and the applied table after a successful commit: the backend had room for the key and
      serves the target, and the table stored it if it too had room. */
  ghost predicate Committed(active: map<Id, Id>, active': map<Id, Id>, capacity: nat,
                            applied: map<Id, Id>, applied': map<Id, Id>, room: nat, key: Id, target: Id)
  {
    && (key in active || |active| < capacity)
    && active' == active[key := target]
    && applied' == Stored(applied, room, key, target)
  }

  /** A path was stored for the key, and the time read right after it was installed. */
  ghost predicate StoredNow(paths: map<Id, Id>, since: map<Id, int>, since': map<Id, int>, capacity: nat, key: Id, path: Id, trace: seq<Call>) {
    && Clocked(since, since', key, trace)
    && (key in paths || |paths| < capacity ==> key in since' && Recorded(trace, key, path, since'[key]))
  }

  /** Among the times only that of the key may have changed, to what the clock read right after an install;
      and if a path is applied at the end that the table had room for, to what it read right after that. */
  ghost predicate Timed(paths: map<Id, Id>, since: map<Id, int>, since': map<Id, int>, capacity: nat, key: Id, path: Option<Id>, trace: seq<Call>) {
    && Clocked(since, since', key, trace)
    && (path.Some? && (key in paths || |paths| < capacity) ==> key in since' && Recorded(trace, key, path.value, since'[key]))
  }

  lemma NothingTimed(paths: map<Id, Id>, since: map<Id, int>, capacity: nat, key: Id, trace: seq<Call>)
    ensures Timed(paths, since, since, capacity, key, None, trace)
  {
  }

  lemma StoredIsTimed(paths: map<Id, Id>, since: map<Id, int>, since': map<Id, int>, capacity: nat, key: Id, path: Id, trace: seq<Call>)
    requires StoredNow(paths, since, since', capacity, key, path, trace)
    ensures Timed(paths, since, since', capacity, key, Some(path), trace)
  {
  }

  /** First to one path, if it came to that, and then back to another, if that worked. */
  lemma TimedTwice(paths: map<Id, Id>, since: map<Id, int>, paths': map<Id, Id>, since': map<Id, int>, since'': map<Id, int>, capacity: nat,
                   sw: Switch, first: Option<Id>, attempt: seq<Call>, trace: seq<Call>, ok: bool)
    requires Timed(paths, since, since', capacity, sw.key, first, attempt) && attempt <= trace
    requires paths' == paths || paths' == Stored(paths, capacity, sw.key, sw.target)
    requires if ok then StoredNow(paths', since', since'', capacity, sw.key, sw.previous, trace) else since'' == since'
    ensures Timed(paths, since, since'', capacity, sw.key, if ok then Some(sw.previous) else None, trace)
  {
    ClockedTwice(since, since', since'', sw.key, attempt, trace);
  }

  lemma StampedIsStored(paths: map<Id, Id>, since: map<Id, int>, capacity: nat, key: Id, path: Id, before: seq<Call>, round: seq<Call>)
    requires IsInstall(key, path, round, true)
    ensures StoredNow(paths, since, StampedAt(paths, since, capacity, key, round[1].at), capacity, key, path, before + round)
  {
    InstallRecords(before, round, key, path);
  }

  lemma StoredNowStays(paths: map<Id, Id>, since: map<Id, int>, since': map<Id, int>, capacity: nat, key: Id, path: Id,
                       trace: seq<Call>, longer: seq<Call>)
    requires StoredNow(paths, since, since', capacity, key, path, trace) && trace <= longer
    ensures StoredNow(paths, since, since', capacity, key, path, longer)
  {
    ClockedStays(since, since', key, trace, longer);
    if key in paths || |paths| < capacity { RecordedStays(trace, longer, key, path, since'[key]); }
  }

  /** Installs a path for the key and, on success, records it as applied, since now. */
  method InstallAndRecord(c: Controller, key: Id, path: Id) returns (err: ErrorCode, ghost round: seq<Call>)
    requires c.Backing()
    modifies c.net`trace, c.net.vpp, c.net.vpp.trafficKeys, c.net.vpp.activePaths
    modifies c.applied, c.applied.trafficKeys, c.applied.appliedPaths, c.applied.appliedSinceMs
    ensures c.Backing()
    ensures c.net.trace == old(c.net.trace) + round && IsInstall(key, path, round, err == ErrNone)
    ensures err == ErrNone ==>
              && (key in old(c.net.vpp.active) || |old(c.net.vpp.active)| < c.net.vpp.capacity)
              && c.net.vpp.active == old(c.net.vpp.active)[key := path]
              && c.applied.paths == Stored(old(c.applied.paths), c.applied.capacity, key, path)
              && StoredNow(old(c.applied.paths), old(c.applied.since), c.applied.since, c.applied.capacity, key, path, c.net.trace)
    ensures err != ErrNone ==>
              c.net.vpp.active == old(c.net.vpp.active) && c.applied.paths == old(c.applied.paths) && c.applied.since == old(c.applied.since)
    ensures old(c.net.Installable(key)) ==> err == ErrNone
  {
    hide Represents, Stored;
    err := c.net.InstallPath(key, path);
    round := [Installed(key, path, err == ErrNone)];
    if err != ErrNone { return; }
    var now := c.net.Stamp();
    round := round + [Stamped(now)];
    StampedIsStored(c.applied.paths, c.applied.since, c.applied.capacity, key, path, old(c.net.trace), round);
    c.applied.Set(key, path, now);
  }

  /** Makes the target serve the key. */
  method InstallTarget(c: Controller, key: Id, target: Id, ghost sw: Switch) returns (err: ErrorCode, ghost round: seq<Call>)
    requires c.Backing()
    requires sw.key == key && sw.target == target
    requires Observe(sw, c.net.trace).validated && sw.targetTunnels <= Observe(sw, c.net.trace).ensured
    modifies c.net`trace, c.net.vpp, c.net.vpp.trafficKeys, c.net.vpp.activePaths
    modifies c.applied, c.applied.trafficKeys, c.applied.appliedPaths, c.applied.appliedSinceMs
    ensures err in {ErrNone, ErrForwardingUpdateFailed}
    ensures c.Backing()
    ensures InstalledMore(old(Observe(sw, c.net.trace)), Observe(sw, c.net.trace), sw, 1, 0, err == ErrNone)
    ensures err == ErrNone ==>
              Committed(old(c.net.vpp.active), c.net.vpp.active, c.net.vpp.capacity,
                        old(c.applied.paths), c.applied.paths, c.applied.capacity, key, target)
    ensures err == ErrNone ==>
              StoredNow(old(c.applied.paths), old(c.applied.since), c.applied.since, c.applied.capacity, key, target, c.net.trace)
    ensures err != ErrNone ==>
              c.net.vpp.active == old(c.net.vpp.active) && c.applied.paths == old(c.applied.paths) && c.applied.since == old(c.applied.since)
    ensures old(c.net.Installable(key)) ==> err == ErrNone
    ensures c.net.trace == old(c.net.trace) + round && IsInstall(key, target, round, err == ErrNone)
  {
    hide StoredNow;
    hide Observe, Represents, InstalledMore, Stored, Controller.Backing;
    ghost var before := c.net.trace;
    err, round := InstallAndRecord(c, key, target);
    InstalledStep(sw, before, round, err == ErrNone);
    if err != ErrNone { return ErrForwardingUpdateFailed, round; }
  }

  /** Nothing stands in the way of committing a path for the key. */
  ghost predicate Committable(c: Controller, policy: Policy, key: Id)
    reads c.net.vpp`active, c.net.vpp`failNextUpdate
  {
    policy.strategy != FlowPreserve && c.net.offers.installPath && c.net.Installable(key)
  }

  lemma NoPauses(policy: Policy)
    ensures policy.strategy != Graceful ==> Pauses(policy) == []
  {
  }

  method TransitionCommit(c: Controller, policy: Policy, key: Id, t: nat, previous: Option<nat>, ghost s: Setting, ghost sw: Switch) returns (err: ErrorCode, ghost round: seq<Call>)
    requires c.Shape() && c.Backing() && t < |c.paths| && (previous.Some? ==> previous.value < |c.paths|)
    requires PolicyValid(policy)
    requires sw.key == key && sw.target == c.paths[t].pathId && s.sw == sw && s.policy == policy && s.offers == c.net.offers
    requires Observe(sw, c.net.trace).validated && sw.targetTunnels <= Observe(sw, c.net.trace).ensured
    modifies c`transitionState, c`opState, c.net`trace, c.net.vpp, c.net.vpp.trafficKeys, c.net.vpp.activePaths
    modifies c.applied, c.applied.trafficKeys, c.applied.appliedPaths, c.applied.appliedSinceMs
    ensures err != ErrNotFound
    ensures err != ErrNone ==>
              err == if policy.strategy == FlowPreserve then ErrStateConflict else if !c.net.offers.installPath then ErrInvalidArgument else ErrForwardingUpdateFailed
    ensures c.Shape() && c.Backing()
    ensures InstalledMore(old(Observe(sw, c.net.trace)), Observe(sw, c.net.trace), sw, 1,
                          policy.maxPauseMs as int + policy.drainTimeoutMs as int, err == ErrNone)
    ensures OthersKeep(old(c.opState), c.opState, t, previous)
    ensures err == ErrNone ==> Committed(old(c.net.vpp.active), c.net.vpp.active, c.net.vpp.capacity,
                                         old(c.applied.paths), c.applied.paths, c.applied.capacity, key, sw.target)
    ensures err == ErrNone ==> c.opState[t] == PathActive
    ensures err == ErrNone ==>
              StoredNow(old(c.applied.paths), old(c.applied.since), c.applied.since, c.applied.capacity, key, sw.target, c.net.trace)
    ensures err != ErrNone ==>
              c.net.vpp.active == old(c.net.vpp.active) && c.applied.paths == old(c.applied.paths) && c.applied.since == old(c.applied.since)
    ensures old(Committable(c, policy, key)) ==> err == ErrNone
    ensures c.net.trace == old(c.net.trace) + round && IsCommitRound(s, round, err == ErrNone)
  {
    hide StoredNow, IsInstall, Pauses, Controller.Backing, PathCountsValid, Network.Installable;
    hide Observe, Represents, Waited, InstalledMore, Committed, Stored;
    ghost var p, ms := Observe(sw, c.net.trace), policy.maxPauseMs as int + policy.drainTimeoutMs as int;
    NoInstallYet(p, p, sw, ms);
    round := [];
    if policy.strategy == Graceful {
      Pause(c, policy, t, previous, sw);
    } else if policy.strategy == FlowPreserve {
      return ErrStateConflict, round;
    }
    round := Pauses(policy);
    NoPauses(policy);
    c.transitionState := Switching;
    ghost var q := Observe(sw, c.net.trace);
    NoInstallYet(p, q, sw, ms);
    if !c.net.offers.installPath { return ErrInvalidArgument, round; }
    ghost var installed;
    err, installed := InstallTarget(c, key, c.paths[t].pathId, sw);
    round := round + installed;
    InstallAfterPause(p, q, Observe(sw, c.net.trace), sw, ms, err == ErrNone);
    if err == ErrNone { c.opState := c.opState[t := PathActive]; }
  }

  lemma InstalledStep(sw: Switch, trace: seq<Call>, round: seq<Call>, ok: bool)
    requires Observe(sw, trace).validated && sw.targetTunnels <= Observe(sw, trace).ensured
    requires IsInstall(sw.key, sw.target, round, ok)
    ensures InstalledMore(Observe(sw, trace), Observe(sw, trace + round), sw, 1, 0, ok)
  {
    hide Observe;
    ObserveStep(sw, trace, Installed(sw.key, sw.target, ok));
    if ok {
      ObserveStep(sw, trace + [round[0]], round[1]);
      assert trace + [round[0]] + [round[1]] == trace + round;
    }
  }

  lemma NoInstallYet(p: Progress, q: Progress, sw: Switch, ms: nat)
    ensures Waited(p, p, ms)
    ensures Waited(p, q, ms) ==> InstalledMore(p, q, sw, 1, ms, false) && q.validated == p.validated && q.ensured == p.ensured
  {
  }

  lemma InstallAfterPause(p: Progress, q: Progress, r: Progress, sw: Switch, ms: nat, ok: bool)
    requires Waited(p, q, ms) && InstalledMore(q, r, sw, 1, 0, ok)
    ensures InstalledMore(p, r, sw, 1, ms, ok)
  {
  }

  lemma CommitRepeated(p: Progress, q: Progress, r: Progress, sw: Switch, policy: Policy, attempt: nat, ok: bool)
    requires PolicyValid(policy) && attempt <= policy.retryCount as int
    requires InstalledMore(p, q, sw, attempt, CommitWaits(policy, attempt, attempt), false)
    requires InstalledMore(q, r, sw, 1, policy.maxPauseMs as int + policy.drainTimeoutMs as int, ok)
    ensures InstalledMore(p, r, sw, attempt + 1, CommitWaits(policy, attempt + 1, attempt), ok)
    ensures InstalledMore(p, r, sw, policy.retryCount as int + 1, CommitWaits(policy, policy.retryCount as int + 1, policy.retryCount as int), ok)
  {
    BackoffsMonotone(policy.retryBackoffMs as int, attempt, policy.retryCount as int);
    TimesMonotone(policy.maxPauseMs as int + policy.drainTimeoutMs as int, attempt + 1, policy.retryCount as int + 1);
  }

  lemma CommitWaited(p: Progress, q: Progress, r: Progress, sw: Switch, policy: Policy, attempt: nat)
    requires PolicyValid(policy) && attempt < policy.retryCount as int
    requires InstalledMore(p, q, sw, attempt + 1, CommitWaits(policy, attempt + 1, attempt), false)
    requires Waited(q, r, policy.retryBackoffMs as int * (attempt + 1))
    ensures InstalledMore(p, r, sw, attempt + 1, CommitWaits(policy, attempt + 1, attempt + 1), false)
  {
  }

  /** The longest that `rounds` commits with `waits` waits between them can take. */
  function CommitWaits(policy: Policy, rounds: nat, waits: nat): nat
    requires PolicyValid(policy)
  {
    Times(policy.maxPauseMs as int + policy.drainTimeoutMs as int, rounds) + Backoffs(policy.retryBackoffMs as int, waits)
  }

  lemma NoCommitYet(p: Progress, sw: Switch, policy: Policy)
    requires PolicyValid(policy)
    ensures InstalledMore(p, p, sw, 0, CommitWaits(policy, 0, 0), false)
  {
  }

  lemma InstallFacts(p: Progress, q: Progress, sw: Switch, calls: nat, ms: nat)
    requires InstalledMore(p, q, sw, calls, ms, false)
    ensures q.validated == p.validated && q.ensured == p.ensured
  {
  }

  lemma OthersKeepTwice(a: seq<PathState>, b: seq<PathState>, d: seq<PathState>, t: nat, previous: Option<nat>)
    ensures OthersKeep(a, a, t, previous)
    ensures OthersKeep(a, b, t, previous) && OthersKeep(b, d, t, previous) ==> OthersKeep(a, d, t, previous)
  {
  }

  method TransitionCommitRetry(c: Controller, policy: Policy, key: Id, t: nat, previous: Option<nat>, ghost s: Setting, ghost sw: Switch) returns (err: ErrorCode)
    requires c.Shape() && c.Backing() && t < |c.paths| && (previous.Some? ==> previous.value < |c.paths|)
    requires PolicyValid(policy)
    requires sw.key == key && sw.target == c.paths[t].pathId && s.sw == sw && s.policy == policy && s.offers == c.net.offers
    requires Observe(sw, c.net.trace).validated && sw.targetTunnels <= Observe(sw, c.net.trace).ensured
    modifies c`transitionState, c`opState, c.net`trace, c.net.vpp, c.net.vpp.trafficKeys, c.net.vpp.activePaths
    modifies c.applied, c.applied.trafficKeys, c.applied.appliedPaths, c.applied.appliedSinceMs
    ensures err != ErrNotFound
    ensures c.Shape() && c.Backing()
    ensures InstalledMore(old(Observe(sw, c.net.trace)), Observe(sw, c.net.trace), sw, policy.retryCount as int + 1,
                          CommitWaits(policy, policy.retryCount as int + 1, policy.retryCount as int), err == ErrNone)
    ensures OthersKeep(old(c.opState), c.opState, t, previous)
    ensures err == ErrNone ==> Committed(old(c.net.vpp.active), c.net.vpp.active, c.net.vpp.capacity,
                                         old(c.applied.paths), c.applied.paths, c.applied.capacity, key, sw.target)
    ensures err == ErrNone ==> c.opState[t] == PathActive
    ensures err == ErrNone ==>
              StoredNow(old(c.applied.paths), old(c.applied.since), c.applied.since, c.applied.capacity, key, sw.target, c.net.trace)
    ensures err != ErrNone ==>
              c.net.vpp.active == old(c.net.vpp.active) && c.applied.paths == old(c.applied.paths) && c.applied.since == old(c.applied.since)
    ensures old(Committable(c, policy, key)) ==> err == ErrNone
    ensures Ran(s, CommitPhase, old(c.net.trace), c.net.trace, err == ErrNone)
  {
    hide StoredNow, Controller.Backing, PathCountsValid, Network.Installable;
    hide Observe, Represents, Committed, CommitWaits, InstalledMore, Waited, OthersKeep, Stored, Ran, Trying, WaitAfter, IsCommitRound;
    ghost var start := Observe(sw, c.net.trace);
    NoCommitYet(start, sw, policy);
    OthersKeepTwice(c.opState, c.opState, c.opState, t, previous);
    ghost var failed: seq<seq<Call>> := [];
    StartTrying(s, CommitPhase, c.net.trace);
    err := ErrNone;
    var attempt: int32 := 0;
    while attempt <= policy.retryCount
      invariant 0 <= attempt <= policy.retryCount
      invariant c.Shape() && c.Backing()
      invariant InstalledMore(start, Observe(sw, c.net.trace), sw, attempt as int,
                              CommitWaits(policy, attempt as int, attempt as int), false)
      invariant OthersKeep(old(c.opState), c.opState, t, previous)
      invariant c.net.vpp.active == old(c.net.vpp.active) && c.applied.paths == old(c.applied.paths) && c.applied.since == old(c.applied.since)
      invariant attempt == 0 ==> c.net.vpp.failNextUpdate == old(c.net.vpp.failNextUpdate)
      invariant old(Committable(c, policy, key)) ==> attempt == 0
      invariant |failed| == attempt as int && Trying(s, CommitPhase, old(c.net.trace), c.net.trace, failed)
      decreases policy.retryCount as int - attempt as int
    {
      ghost var p := Observe(sw, c.net.trace);
      ghost var states := c.opState;
      InstallFacts(start, p, sw, attempt as int, CommitWaits(policy, attempt as int, attempt as int));
      ghost var now, round := c.net.trace, [];
      err, round := TransitionCommit(c, policy, key, t, previous, s, sw);
      ghost var q := Observe(sw, c.net.trace);
      OthersKeepTwice(old(c.opState), states, c.opState, t, previous);
      CommitRepeated(start, p, q, sw, policy, attempt as int, err == ErrNone);
      if err == ErrNone || attempt == policy.retryCount {
        LastRound(s, CommitPhase, old(c.net.trace), now, failed, round, err == ErrNone);
        return;
      }
      RetryWait(c, policy, attempt, sw);
      CommitWaited(start, q, Observe(sw, c.net.trace), sw, policy, attempt as int);
      TryAgain(s, CommitPhase, old(c.net.trace), now, failed, round);
      failed := failed + [round];
      attempt := attempt + 1;
    }
  }

  // ----- confirm -----

  /** Only questions were asked, with waits in between; success means the target is confirmed. */
  ghost predicate ConfirmedOnly(p: Progress, q: Progress, ms: nat, ok: bool) {
    && q == p.(confirmed := q.confirmed, slept := q.slept)
    && (p.confirmed ==> q.confirmed)
    && q.slept <= p.slept + ms
    && (ok ==> q.confirmed)
  }

  /** The backend can be asked which path it serves and never answers. */
  ghost predicate Mute(c: Controller) {
    c.net.offers.activePath && c.net.faults.activePath && c.net.faults.silent
  }

  method TransitionConfirm(c: Controller, key: Id, t: nat, ghost s: Setting, ghost sw: Switch) returns (err: ErrorCode, ghost round: seq<Call>)
    requires c.Backing() && t < |c.paths|
    requires sw.key == key && sw.target == c.paths[t].pathId && sw.queries == c.net.offers.activePath
    requires s.sw == sw && s.offers == c.net.offers
    requires Observe(sw, c.net.trace).served && (!sw.queries ==> Observe(sw, c.net.trace).confirmed)
    modifies c`transitionState, c.net`trace
    ensures err in {ErrNone, ErrForwardingUpdateFailed}
    ensures ConfirmedOnly(old(Observe(sw, c.net.trace)), Observe(sw, c.net.trace), 0, err == ErrNone)
    ensures !c.net.faults.activePath && key in c.net.vpp.active && c.net.vpp.active[key] == sw.target ==> err == ErrNone
    ensures Mute(c) ==> err != ErrNone
    ensures c.net.trace == old(c.net.trace) + round && IsConfirmRound(s, round, err == ErrNone)
  {
    hide Observe, Represents;
    c.transitionState := Verifying;
    if !c.net.offers.activePath { return ErrNone, []; }
    ghost var before := c.net.trace;
    var active := c.net.ActivePath(key);
    ObserveStep(sw, before, Queried(key, active));
    return (if active == Some(c.paths[t].pathId) then ErrNone else ErrForwardingUpdateFailed), [Queried(key, active)];
  }

  lemma ConfirmRepeated(p: Progress, q: Progress, r: Progress, ms: nat, ok: bool)
    requires ConfirmedOnly(p, q, ms, false) && ConfirmedOnly(q, r, 0, ok)
    ensures ConfirmedOnly(p, r, ms, ok) && ConfirmedOnly(p, r, ms, false)
    ensures q.served == p.served && (p.confirmed ==> q.confirmed)
    ensures r.served == p.served && (p.confirmed ==> r.confirmed)
  {
  }

  lemma ConfirmWaited(p: Progress, q: Progress, r: Progress, backoff: nat, attempt: nat, retries: nat, ok: bool)
    requires attempt <= retries && ConfirmedOnly(p, q, Backoffs(backoff, attempt), ok)
    ensures ConfirmedOnly(p, q, Backoffs(backoff, retries), ok)
    ensures Waited(q, r, backoff * (attempt + 1)) ==> ConfirmedOnly(p, r, Backoffs(backoff, attempt + 1), false)
  {
    BackoffsMonotone(backoff, attempt, retries);
  }

  lemma NotConfirmedYet(p: Progress, backoff: nat)
    ensures ConfirmedOnly(p, p, Backoffs(backoff, 0), false) && ConfirmedOnly(p, p, 0, false)
  {
  }

  method TransitionConfirmRetry(c: Controller, policy: Policy, key: Id, t: nat, ghost s: Setting, ghost sw: Switch) returns (err: ErrorCode)
    requires c.Backing() && t < |c.paths| && PolicyValid(policy)
    requires sw.key == key && sw.target == c.paths[t].pathId && sw.queries == c.net.offers.activePath
    requires s.sw == sw && s.policy == policy && s.offers == c.net.offers
    requires Observe(sw, c.net.trace).served && (!sw.queries ==> Observe(sw, c.net.trace).confirmed)
    modifies c`transitionState, c.net`trace
    ensures err in {ErrNone, ErrForwardingUpdateFailed}
    ensures ConfirmedOnly(old(Observe(sw, c.net.trace)), Observe(sw, c.net.trace),
                          Backoffs(policy.retryBackoffMs as int, policy.retryCount as int), err == ErrNone)
    ensures !c.net.faults.activePath && key in c.net.vpp.active && c.net.vpp.active[key] == sw.target ==> err == ErrNone
    ensures Mute(c) ==> err != ErrNone
    ensures Ran(s, ConfirmPhase, old(c.net.trace), c.net.trace, err == ErrNone)
  {
    hide Observe, Represents, ConfirmedOnly, Waited, Backoffs, Mute, Ran, Trying, WaitAfter, IsConfirmRound;
    ghost var backoff, start := policy.retryBackoffMs as int, Observe(sw, c.net.trace);
    NotConfirmedYet(start, backoff);
    ghost var failed: seq<seq<Call>> := [];
    StartTrying(s, ConfirmPhase, c.net.trace);
    err := ErrNone;
    var attempt: int32 := 0;
    while attempt <= policy.retryCount
      invariant 0 <= attempt <= policy.retryCount && err in {ErrNone, ErrForwardingUpdateFailed}
      invariant ConfirmedOnly(start, Observe(sw, c.net.trace), Backoffs(backoff, attempt as int), false)
      invariant |failed| == attempt as int && Trying(s, ConfirmPhase, old(c.net.trace), c.net.trace, failed)
      decreases policy.retryCount as int - attempt as int
    {
      ghost var q := Observe(sw, c.net.trace);
      NotConfirmedYet(q, backoff);
      ConfirmRepeated(start, q, q, Backoffs(backoff, attempt as int), false);
      ghost var now, round := c.net.trace, [];
      err, round := TransitionConfirm(c, key, t, s, sw);
      ghost var r := Observe(sw, c.net.trace);
      ConfirmRepeated(start, q, r, Backoffs(backoff, attempt as int), err == ErrNone);
      ConfirmWaited(start, r, r, backoff, attempt as int, policy.retryCount as int, err == ErrNone);
      if err == ErrNone || attempt == policy.retryCount {
        LastRound(s, ConfirmPhase, old(c.net.trace), now, failed, round, err == ErrNone);
        return;
      }
      RetryWait(c, policy, attempt, sw);
      ConfirmWaited(start, r, Observe(sw, c.net.trace), backoff, attempt as int, policy.retryCount as int, false);
      TryAgain(s, ConfirmPhase, old(c.net.trace), now, failed, round);
      failed := failed + [round];
      attempt := attempt + 1;
    }
  }

  // ----- removing what the other path does not need -----

  /** The tunnels of path `a` that path `keep`, if there is one, does not use. */
  ghost function Unshared(c: Controller, a: nat, keep: Option<nat>): set<Id>
    requires a < |c.paths| && (keep.Some? ==> keep.value < |c.paths|)
  {
    c.paths[a].Tunnels() - (if keep.Some? then c.paths[keep.value].Tunnels() else {})
  }

  /** These tunnels may be removed now. */
  ghost predicate MayRemove(sw: Switch, p: Progress, tunnels: set<Id>) {
    && tunnels <= sw.targetTunnels + sw.previousTunnels
    && tunnels !! sw.targetTunnels * sw.previousTunnels
    && (p.confirmed || tunnels !! sw.previousTunnels)
  }

  /** Only tunnels of `removed` went down. */
  ghost predicate RemovedOnly(p: Progress, q: Progress, removed: set<Id>) {
    q == p.(ensured := q.ensured) && p.ensured - removed <= q.ensured <= p.ensured
  }

  method RemoveOne(c: Controller, tunnel: Id, ghost sw: Switch) returns (err: ErrorCode)
    requires tunnel in c.observed && c.observed[tunnel].tunnelId == tunnel
    requires MayRemove(sw, Observe(sw, c.net.trace), {tunnel})
    modifies c.net`up, c.net`trace
    ensures c.net.up == if err == ErrNone then old(c.net.up) - {tunnel} else old(c.net.up)
    ensures RemovedOnly(old(Observe(sw, c.net.trace)), Observe(sw, c.net.trace), {tunnel})
    ensures !c.net.faults.removeTunnel ==> err == ErrNone
    ensures c.net.trace == old(c.net.trace) + [TunnelRemoved(tunnel, err == ErrNone)]
  {
    hide Observe;
    ObserveStep(sw, c.net.trace, TunnelRemoved(tunnel, true));
    ObserveStep(sw, c.net.trace, TunnelRemoved(tunnel, false));
    assert tunnel in {tunnel};
    err := c.net.RemoveTunnel(c.observed[tunnel]);
  }

  lemma NothingRemoved(tunnels: set<Id>)
    ensures IsRemoval(tunnels, [], true)
  {
  }

  method RemoveUnsharedTunnels(c: Controller, a: nat, keep: Option<nat>, ghost unshared: set<Id>, ghost sw: Switch) returns (err: ErrorCode, ghost round: seq<Call>)
    requires c.Shape() && a < |c.paths| && (keep.Some? ==> keep.value < |c.paths|)
    requires unshared == Unshared(c, a, keep)
    requires MayRemove(sw, Observe(sw, c.net.trace), unshared)
    modifies c.net`up, c.net`trace
    ensures old(c.net.up) - unshared <= c.net.up <= old(c.net.up)
    ensures err == ErrNone ==> unshared * c.observed.Keys !! c.net.up
    ensures RemovedOnly(old(Observe(sw, c.net.trace)), Observe(sw, c.net.trace), unshared)
    ensures !c.net.faults.removeTunnel ==> err == ErrNone
    ensures c.net.trace == old(c.net.trace) + round && IsRemoval(unshared, round, err == ErrNone)
  {
    hide Observe, IsRemoval;
    NothingRemoved(unshared);
    err, round := ErrNone, [];
    var segments := c.paths[a].segments;
    ghost var done: set<Id> := {};
    var i := 0;
    while i < |segments|
      invariant 0 <= i <= |segments| && err == ErrNone
      invariant old(c.net.up) - unshared <= c.net.up <= old(c.net.up)
      invariant done == set j | 0 <= j < i :: segments[j].tunnelId
      invariant done * unshared * c.observed.Keys !! c.net.up
      invariant RemovedOnly(old(Observe(sw, c.net.trace)), Observe(sw, c.net.trace), unshared)
      invariant c.net.trace == old(c.net.trace) + round && IsRemoval(unshared, round, true)
    {
      var tunnel := segments[i].tunnelId;
      assert tunnel in c.paths[a].Tunnels();
      if !(keep.Some? && tunnel in c.paths[keep.value].Tunnels()) && tunnel in c.observed {
        err := RemoveOne(c, tunnel, sw);
        RemovedOneMore(unshared, round, tunnel, err == ErrNone);
        round := round + [TunnelRemoved(tunnel, err == ErrNone)];
        if err != ErrNone { return; }
      }
      done := done + {tunnel};
      i := i + 1;
    }
    assert done == c.paths[a].Tunnels();
  }

  // ----- withdrawing forwarding -----

  /** The forwarding table after `path` was withdrawn from `key`. */
  function WithdrawnFrom(active: map<Id, Id>, key: Id, path: Id): map<Id, Id> {
    if key in active && active[key] == path then active - {key} else active
  }

  /** What a withdrawal adds to the progress of a switch. */
  function AfterWithdrawal(sw: Switch, p: Progress, path: Id, ok: bool): Progress {
    if path == sw.target then p.(withdrawn := p.withdrawn || ok) else p.(cleared := p.cleared || ok)
  }

  method Withdraw(c: Controller, key: Id, path: Id, ghost sw: Switch) returns (err: ErrorCode)
    requires c.Backing()
    requires key == sw.key && (path == sw.target || (path == sw.previous && Observe(sw, c.net.trace).confirmed))
    modifies c.net`trace, c.net.vpp, c.net.vpp.trafficKeys, c.net.vpp.activePaths
    ensures c.Backing()
    ensures c.net.vpp.active == if err == ErrNone then WithdrawnFrom(old(c.net.vpp.active), key, path) else old(c.net.vpp.active)
    ensures Observe(sw, c.net.trace) == AfterWithdrawal(sw, old(Observe(sw, c.net.trace)), path, err == ErrNone)
    ensures !c.net.faults.removePath ==> err == ErrNone
    ensures c.net.trace == old(c.net.trace) + [Withdrawn(key, path, err == ErrNone)]
    ensures old(c.net.Installable(key)) ==> c.net.Installable(key)
  {
    hide Observe, Represents;
    ghost var before := c.net.trace;
    err := c.net.RemovePath(key, path);
    ObserveStep(sw, before, Withdrawn(key, path, err == ErrNone));
  }

  // ----- clean up the previous path -----

  /** The previous path was broken, the target untouched. */
  ghost predicate CleanedUp(p: Progress, q: Progress, removed: set<Id>) {
    && q == p.(ensured := q.ensured, cleared := q.cleared)
    && p.ensured - removed <= q.ensured <= p.ensured
  }

  lemma CleanupStarts(sw: Switch, p: Progress, removed: set<Id>)
    ensures CleanedUp(p, p, removed)
    ensures p.confirmed ==> MayRemove(sw, p, sw.previousTunnels - sw.targetTunnels)
  {
  }

  lemma CleanupWithdrawn(sw: Switch, p: Progress, removed: set<Id>, ok: bool)
    requires sw.previous != sw.target
    ensures var q := AfterWithdrawal(sw, p, sw.previous, ok);
            CleanedUp(p, q, removed) && q.confirmed == p.confirmed && q.ensured == p.ensured && (ok ==> q.cleared)
  {
  }

  lemma CleanupRemoved(p: Progress, q: Progress, r: Progress, removed: set<Id>)
    requires CleanedUp(p, q, removed) && q.ensured == p.ensured && RemovedOnly(q, r, removed)
    ensures CleanedUp(p, r, removed) && r.cleared == q.cleared
  {
  }

  lemma OtherPathStays(active: map<Id, Id>, key: Id, path: Id)
    requires key in active && active[key] != path
    ensures WithdrawnFrom(active, key, path) == active
  {
  }

  lemma UnsharedTunnels(c: Controller, a: nat, t: nat)
    requires a < |c.paths| && t < |c.paths|
    ensures Unshared(c, a, Some(t)) == c.paths[a].Tunnels() - c.paths[t].Tunnels()
  {
  }

  lemma RemovalError(before: seq<Call>, removals: seq<Call>, removed: set<Id>, ok: bool)
    requires IsRemoval(removed, removals, ok)
    ensures !ok ==> IsCleanupError(before + removals, ErrTunnelEstablishTimeout)
  {
    if !ok { assert (before + removals)[|before + removals| - 1] == removals[|removals| - 1]; }
  }

  method TransitionCleanupPrevious(c: Controller, key: Id, previous: Option<nat>, t: nat, ghost sw: Switch) returns (err: ErrorCode, ghost round: seq<Call>)
    requires c.Shape() && c.Backing() && t < |c.paths| && (previous.Some? ==> previous.value < |c.paths|)
    requires sw.key == key && sw.target == c.paths[t].pathId && sw.targetTunnels == c.paths[t].Tunnels()
    requires previous.Some? && previous.value != t ==>
               && sw.previous == c.paths[previous.value].pathId && sw.previous != sw.target
               && sw.previousTunnels == c.paths[previous.value].Tunnels()
    requires Observe(sw, c.net.trace).confirmed
    requires key in c.net.vpp.active && c.net.vpp.active[key] == sw.target
    modifies c`opState, c.net`up, c.net`trace, c.net.vpp, c.net.vpp.trafficKeys, c.net.vpp.activePaths
    ensures err != ErrNotFound && (err != ErrNone ==> IsCleanupError(round, err))
    ensures c.Shape() && c.Backing()
    ensures c.net.vpp.active == old(c.net.vpp.active)
    ensures previous.None? || previous.value == t ==> err == ErrNone && c.opState == old(c.opState)
    ensures previous.Some? && previous.value != t ==>
              && c.opState == (if err == ErrNone then old(c.opState)[previous.value := PathStandby] else old(c.opState))
              && (err == ErrNone && c.net.offers.removePath ==> Observe(sw, c.net.trace).cleared)
              && (err == ErrNone && c.net.offers.removeTunnel ==>
                    (sw.previousTunnels - sw.targetTunnels) * c.observed.Keys !! c.net.up)
    ensures old(c.net.up) - (sw.previousTunnels - sw.targetTunnels) <= c.net.up <= old(c.net.up)
    ensures CleanedUp(old(Observe(sw, c.net.trace)), Observe(sw, c.net.trace), sw.previousTunnels - sw.targetTunnels)
    ensures !c.net.faults.removePath && !c.net.faults.removeTunnel ==> err == ErrNone
    ensures c.net.trace == old(c.net.trace) + round && IsCleanupRound(sw, round, err == ErrNone)
  {
    hide IsCleanupRound, IsRemoval, Controller.Backing, PathCountsValid, Network.Installable;
    CleanupFails(sw);
    NothingRemoved(sw.previousTunnels - sw.targetTunnels);
    round := [];
    hide Observe, Represents, Path.Tunnels, CleanedUp, RemovedOnly, AfterWithdrawal, MayRemove, WithdrawnFrom, Unshared;
    ghost var p, removed := Observe(sw, c.net.trace), sw.previousTunnels - sw.targetTunnels;
    CleanupStarts(sw, p, removed);
    if previous.None? || previous.value == t { return ErrNone, round; }
    OtherPathStays(c.net.vpp.active, key, sw.previous);
    if c.net.offers.removePath {
      err := Withdraw(c, key, c.paths[previous.value].pathId, sw);
      CleanupWithdrawn(sw, p, removed, err == ErrNone);
      round := [Withdrawn(key, sw.previous, err == ErrNone)];
      if err != ErrNone { return ErrForwardingUpdateFailed, round; }
    }
    ghost var q := Observe(sw, c.net.trace);
    CleanupStarts(sw, q, removed);
    if c.net.offers.removeTunnel {
      UnsharedTunnels(c, previous.value, t);
      ghost var removals;
      err, removals := RemoveUnsharedTunnels(c, previous.value, Some(t), removed, sw);
      CleanupOf(sw, c.net.offers.removePath, removals, err == ErrNone);
      RemovalError(round, removals, sw.previousTunnels - sw.targetTunnels, err == ErrNone);
      round := round + removals;
      CleanupRemoved(p, q, Observe(sw, c.net.trace), removed);
      if err != ErrNone { return ErrTunnelEstablishTimeout, round; }
    } else {
      CleanupOf(sw, c.net.offers.removePath, [], true);
      assert round + [] == round;
    }
    c.opState := c.opState[previous.value := PathStandby];
    err := ErrNone;
  }

  // ----- rollback -----

  /** What a switch can change: applied paths, served paths, tunnels that are up. */
  datatype World = World(applied: map<Id, Id>, active: map<Id, Id>, up: set<Id>)

  ghost function WorldOf(c: Controller): World
    reads c.applied`paths, c.net.vpp`active, c.net`up
  {
    World(c.applied.paths, c.net.vpp.active, c.net.up)
  }

  /** The world after a rollback. */
  ghost predicate Undone(sw: Switch, w: World, w': World, room: nat, q: Progress, ok: bool) {
    && w.up - (sw.targetTunnels - sw.previousTunnels) <= w'.up
    && (if ok then
          && sw.previous != ""
          && sw.previousTunnels <= w'.up
          && w'.active == w.active[sw.key := sw.previous]
          && w'.applied == Stored(w.applied, room, sw.key, sw.previous)
        else
          && w'.applied == w.applied
          && w'.active == if q.withdrawn then WithdrawnFrom(w.active, sw.key, sw.target) else w.active)
  }

  /** Tunnels and forwarding of the target were withdrawn; the previous path may have been brought back. */
  ghost predicate RolledBack(p: Progress, q: Progress, sw: Switch, calls: nat, installs: nat) {
    && q == p.(ensured := q.ensured, attempts := q.attempts, installs := q.installs, withdrawn := q.withdrawn, restored := q.restored)
    && q.attempts <= p.attempts + calls
    && q.installs <= p.installs + installs
    && (installs == 0 ==> q.restored == p.restored)
  }

  lemma NotReinstalled(p: Progress, q: Progress, sw: Switch, calls: nat)
    ensures RolledBack(p, p, sw, calls, 1)
    ensures EnsuredMore(p, q, sw.previousTunnels, calls, false) || EnsuredMore(p, q, sw.previousTunnels, calls, true) ==>
              RolledBack(p, q, sw, calls, 1) && q.withdrawn == p.withdrawn && q.restored == p.restored
  {
  }

  lemma Reinstalled(p: Progress, trace: seq<Call>, round: seq<Call>, sw: Switch, calls: nat, ok: bool)
    requires EnsuredMore(p, Observe(sw, trace), sw.previousTunnels, calls, true) && sw.previous != sw.target
    requires IsInstall(sw.key, sw.previous, round, ok)
    ensures var r := Observe(sw, trace + round);
            RolledBack(p, r, sw, calls, 1) && r.withdrawn == p.withdrawn && r.restored == (p.restored || ok)
  {
    hide Observe;
    ObserveStep(sw, trace, Installed(sw.key, sw.previous, ok));
    if ok {
      ObserveStep(sw, trace + [round[0]], round[1]);
      assert trace + [round[0]] + [round[1]] == trace + round;
    }
  }

  /** Nothing stands in the way of bringing the path with this identifier back. */
  ghost predicate Reinstallable(c: Controller, key: Id, previous: Id)
    reads c`observed, c.net.vpp`active, c.net.vpp`failNextUpdate
  {
    && previous != "" && FindPath(c.paths, previous).Some? && c.net.offers.installPath
    && Reachable(c.net, c.observed.Keys + c.TunnelsOf(previous)) && c.net.Installable(key)
  }

  /** Brings the previous path back, on tunnels that are up again. */
  method Reinstall(c: Controller, key: Id, previous: Id, ghost sw: Switch) returns (err: ErrorCode)
    requires c.Shape() && c.Backing()
    requires sw.key == key && sw.previous == previous && sw.previous != sw.target
    requires sw.previousTunnels == c.TunnelsOf(previous)
    modifies c`opState, c`observed, c.net`up, c.net`trace, c.net.vpp, c.net.vpp.trafficKeys, c.net.vpp.activePaths
    modifies c.applied, c.applied.trafficKeys, c.applied.appliedPaths, c.applied.appliedSinceMs
    ensures c.Shape() && c.Backing()
    ensures RolledBack(old(Observe(sw, c.net.trace)), Observe(sw, c.net.trace), sw, SegmentCount(c, previous), 1)
    ensures Observe(sw, c.net.trace).withdrawn == old(Observe(sw, c.net.trace)).withdrawn
    ensures Observe(sw, c.net.trace).restored == (old(Observe(sw, c.net.trace)).restored || err == ErrNone)
    ensures old(c.net.up) <= c.net.up <= old(c.net.up) + sw.previousTunnels
    ensures c.observed.Keys <= old(c.observed.Keys) + sw.previousTunnels
    ensures err == ErrNone ==>
              && previous != "" && FindPath(c.paths, previous).Some?
              && sw.previousTunnels <= c.net.up
              && c.net.vpp.active == old(c.net.vpp.active)[key := previous]
              && c.applied.paths == Stored(old(c.applied.paths), c.applied.capacity, key, previous)
              && StoredNow(old(c.applied.paths), old(c.applied.since), c.applied.since, c.applied.capacity, key, previous, c.net.trace)
              && c.opState == old(c.opState)[FindPath(c.paths, previous).value := PathReady]
    ensures err != ErrNone ==>
              && c.net.vpp.active == old(c.net.vpp.active) && c.applied.paths == old(c.applied.paths) && c.applied.since == old(c.applied.since)
              && KeptBut(old(c.opState), c.opState, FindPath(c.paths, previous))
    ensures old(c.net.trace) <= c.net.trace
    ensures old(Reinstallable(c, key, previous)) ==> err == ErrNone
  {
    hide StoredNow, IsInstall, IsPrepareRound, Roomy, Reachable, Network.Installable;
    hide Observe, Represents, EnsuredMore, RolledBack, Stored, Next, Path.Tunnels, PathCountsValid, Controller.Backing;
    var p := FindPath(c.paths, previous);
    ghost var start := Observe(sw, c.net.trace);
    NotReinstalled(start, start, sw, SegmentCount(c, previous));
    if previous == "" || p.None? || !c.net.offers.installPath { return ErrRollbackFailed; }
    ghost var round;
    err, round := TransitionPrepare(c, p.value, false, sw);
    NotReinstalled(start, Observe(sw, c.net.trace), sw, SegmentCount(c, previous));
    if err != ErrNone { return; }
    ghost var before := c.net.trace;
    ghost var installed;
    err, installed := InstallAndRecord(c, key, c.paths[p.value].pathId);
    Reinstalled(start, before, installed, sw, SegmentCount(c, previous), err == ErrNone);
  }

  /** At most one operational state changed. */
  ghost predicate KeptBut(before: seq<PathState>, after: seq<PathState>, p: Option<nat>) {
    |after| == |before| && forall i :: 0 <= i < |before| && p != Some(i) ==> after[i] == before[i]
  }

  lemma UndoneRemoval(p: Progress, q: Progress, sw: Switch, removed: set<Id>)
    ensures RolledBack(p, p, sw, 0, 0)
    ensures RemovedOnly(p, q, removed) ==> RolledBack(p, q, sw, 0, 0) && q.withdrawn == p.withdrawn
  {
  }

  lemma UndoneWithdrawal(p: Progress, q: Progress, sw: Switch, ok: bool)
    requires RolledBack(p, q, sw, 0, 0)
    ensures var r := AfterWithdrawal(sw, q, sw.target, ok);
            RolledBack(p, r, sw, 0, 0) && r.withdrawn == (q.withdrawn || ok)
  {
  }

  /** Whatever was installed for the target is withdrawn when the switch is undone. */
  ghost predicate AlwaysWithdraws(c: Controller) {
    c.net.offers.removePath && !c.net.faults.removePath && !c.net.faults.removeTunnel
  }

  /** Takes down what was built for the target alone. */
  method UndoTarget(c: Controller, key: Id, t: nat, keep: Option<nat>, ghost unshared: set<Id>, ghost sw: Switch) returns (err: ErrorCode)
    requires c.Shape() && c.Backing() && t < |c.paths| && (keep.Some? ==> keep.value < |c.paths|)
    requires key == sw.key && c.paths[t].pathId == sw.target
    requires unshared == Unshared(c, t, keep)
    requires MayRemove(sw, Observe(sw, c.net.trace), unshared)
    requires !Observe(sw, c.net.trace).withdrawn
    modifies c.net`up, c.net`trace, c.net.vpp, c.net.vpp.trafficKeys, c.net.vpp.activePaths
    ensures c.Backing()
    ensures RolledBack(old(Observe(sw, c.net.trace)), Observe(sw, c.net.trace), sw, 0, 0)
    ensures old(c.net.up) - unshared <= c.net.up
    ensures err == ErrNone && c.net.offers.removeTunnel ==> unshared * c.observed.Keys !! c.net.up
    ensures c.net.vpp.active == (if Observe(sw, c.net.trace).withdrawn then WithdrawnFrom(old(c.net.vpp.active), key, sw.target)
                                 else old(c.net.vpp.active))
    ensures AlwaysWithdraws(c) ==> Observe(sw, c.net.trace).withdrawn
    ensures !c.net.faults.removePath && !c.net.faults.removeTunnel ==> err == ErrNone
    ensures old(c.net.trace) <= c.net.trace
    ensures forall id :: old(Reinstallable(c, key, id)) ==> Reinstallable(c, key, id)
  {
    hide Reachable, Network.Installable, FindPath, Controller.TunnelsOf;
    hide Observe, Represents, Path.Tunnels, Unshared, RolledBack, RemovedOnly, AfterWithdrawal, WithdrawnFrom, MayRemove;
    ghost var p := Observe(sw, c.net.trace);
    UndoneRemoval(p, p, sw, unshared);
    if c.net.offers.removeTunnel {
      ghost var round;
      err, round := RemoveUnsharedTunnels(c, t, keep, unshared, sw);
      UndoneRemoval(p, Observe(sw, c.net.trace), sw, unshared);
      if err != ErrNone { return; }
    }
    if c.net.offers.removePath {
      ghost var q := Observe(sw, c.net.trace);
      err := Withdraw(c, key, c.paths[t].pathId, sw);
      UndoneWithdrawal(p, q, sw, err == ErrNone);
    } else {
      err := ErrNone;
    }
  }

  lemma TargetOnlyTunnels(c: Controller, sw: Switch, key: Id, previous: Id, t: nat, p: Progress)
    requires t < |c.paths| && IsSwitch(c, sw, key, previous, t)
    ensures sw.targetTunnels - sw.previousTunnels == Unshared(c, t, FindPath(c.paths, previous))
    ensures MayRemove(sw, p, sw.targetTunnels - sw.previousTunnels)
  {
  }

  lemma RolledBackTwice(p: Progress, q: Progress, r: Progress, sw: Switch, calls: nat)
    requires RolledBack(p, q, sw, 0, 0)
    ensures RolledBack(p, q, sw, calls, 1) && q.restored == p.restored
    ensures RolledBack(q, r, sw, calls, 1) ==> RolledBack(p, r, sw, calls, 1)
  {
  }

  lemma StillDown(gone: set<Id>, kept: set<Id>, observed: set<Id>, observed': set<Id>, up: set<Id>, up': set<Id>)
    requires gone * observed !! up && up' <= up + kept && observed' <= observed + kept && gone !! kept
    ensures gone * observed' !! up'
  {
  }

  lemma RestoredServes(active: map<Id, Id>, key: Id, target: Id, previous: Id)
    ensures WithdrawnFrom(active, key, target)[key := previous] == active[key := previous]
  {
  }

  lemma NoneChanged(states: seq<PathState>, p: Option<nat>)
    ensures KeptBut(states, states, p)
  {
  }

  lemma OneChanged(states: seq<PathState>, p: nat, state: PathState)
    requires p < |states|
    ensures KeptBut(states, states[p := state], Some(p))
  {
  }

  lemma UndoFailed(sw: Switch, w: World, w': World, room: nat, q: Progress)
    requires w.up - (sw.targetTunnels - sw.previousTunnels) <= w'.up && w'.applied == w.applied
    requires w'.active == if q.withdrawn then WithdrawnFrom(w.active, sw.key, sw.target) else w.active
    ensures Undone(sw, w, w', room, q, false)
  {
  }

  lemma UndoSucceeded(sw: Switch, w: World, w': World, active: map<Id, Id>, room: nat, q: Progress)
    requires w.up - (sw.targetTunnels - sw.previousTunnels) <= w'.up && sw.previous != "" && sw.previousTunnels <= w'.up
    requires active == if q.withdrawn then WithdrawnFrom(w.active, sw.key, sw.target) else w.active
    requires w'.active == active[sw.key := sw.previous]
    requires w'.applied == Stored(w.applied, room, sw.key, sw.previous)
    ensures Undone(sw, w, w', room, q, true)
  {
    RestoredServes(w.active, sw.key, sw.target, sw.previous);
  }

  method Rollback(c: Controller, key: Id, previous: Id, t: nat, ghost sw: Switch) returns (err: ErrorCode)
    requires c.Shape() && c.Backing() && t < |c.paths|
    requires IsSwitch(c, sw, key, previous, t) && sw.previous != sw.target
    requires !Observe(sw, c.net.trace).withdrawn
    modifies c`transitionState, c`opState, c`observed, c.net`up, c.net`trace
    modifies c.net.vpp, c.net.vpp.trafficKeys, c.net.vpp.activePaths
    modifies c.applied, c.applied.trafficKeys, c.applied.appliedPaths, c.applied.appliedSinceMs
    ensures c.Shape() && c.Backing()
    ensures c.transitionState == if err == ErrNone then Idle else Failed
    ensures err in {ErrNone, ErrRollbackFailed}
    ensures RolledBack(old(Observe(sw, c.net.trace)), Observe(sw, c.net.trace), sw, SegmentCount(c, previous), 1)
    ensures Undone(sw, old(WorldOf(c)), WorldOf(c), c.applied.capacity, Observe(sw, c.net.trace), err == ErrNone)
    ensures Observe(sw, c.net.trace).restored == (old(Observe(sw, c.net.trace)).restored || err == ErrNone)
    ensures err == ErrNone && c.net.offers.removeTunnel ==>
              (sw.targetTunnels - sw.previousTunnels) * c.observed.Keys !! c.net.up
    ensures KeptBut(old(c.opState), c.opState, FindPath(c.paths, previous))
    ensures err == ErrNone ==>
              && FindPath(c.paths, previous).Some?
              && c.opState[FindPath(c.paths, previous).value] == PathReady
    ensures AlwaysWithdraws(c) ==> Observe(sw, c.net.trace).withdrawn
    ensures old(c.net.trace) <= c.net.trace
    ensures if err == ErrNone
            then StoredNow(old(c.applied.paths), old(c.applied.since), c.applied.since, c.applied.capacity, key, previous, c.net.trace)
            else c.applied.since == old(c.applied.since)
    ensures !c.net.faults.removePath && !c.net.faults.removeTunnel && old(Reinstallable(c, key, previous)) ==> err == ErrNone
  {
    hide StoredNow, Reinstallable, Controller.Backing;
    hide AlwaysWithdraws, Observe, Represents, Path.Tunnels, Stored, Unshared, MayRemove, WithdrawnFrom, RolledBack, SegmentCount, FindPath, PathCountsValid, Undone, KeptBut;
    NoneChanged(c.opState, FindPath(c.paths, previous));
    ghost var w := WorldOf(c);
    c.transitionState := RollingBack;
    var rollbackPath := FindPath(c.paths, previous);
    ghost var unshared := sw.targetTunnels - sw.previousTunnels;
    TargetOnlyTunnels(c, sw, key, previous, t, Observe(sw, c.net.trace));
    ghost var start := Observe(sw, c.net.trace);
    err := UndoTarget(c, key, t, rollbackPath, unshared, sw);
    ghost var undone, up, active := Observe(sw, c.net.trace), c.net.up, c.net.vpp.active;
    RolledBackTwice(start, undone, undone, sw, SegmentCount(c, previous));
    if err == ErrNone {
      err := Reinstall(c, key, previous, sw);
      RolledBackTwice(start, undone, Observe(sw, c.net.trace), sw, SegmentCount(c, previous));
      if c.net.offers.removeTunnel {
        StillDown(unshared, sw.previousTunnels, old(c.observed.Keys), c.observed.Keys, up, c.net.up);
      }
    }
    if err != ErrNone {
      c.transitionState := Failed;
      UndoFailed(sw, w, WorldOf(c), c.applied.capacity, Observe(sw, c.net.trace));
      return ErrRollbackFailed;
    }
    UndoSucceeded(sw, w, WorldOf(c), active, c.applied.capacity, Observe(sw, c.net.trace));
    OneChanged(old(c.opState), FindPath(c.paths, previous).value, PathReady);
    c.transitionState := Idle;
  }

  /** How many segments the path with this identifier has; 0 if there is no such path. */
  function SegmentCount(c: Controller, id: Id): nat {
    var p := FindPath(c.paths, id);
    if p.Some? then |c.paths[p.value].segments| else 0
  }

  // ----- the whole switch -----

  /** What a switch may have cost after so many of its phases (prepare, ready, commit, confirm). */
  ghost predicate Within(q: Progress, policy: Policy, segments: nat, phases: nat)
    requires PolicyValid(policy)
  {
    var rounds, waits := policy.retryCount as int + 1, Backoffs(policy.retryBackoffMs as int, policy.retryCount as int);
    && q.legal && !q.withdrawn && !q.restored
    && q.attempts <= Times(segments, rounds)
    && q.installs <= (if phases >= 3 then rounds else 0)
    && q.slept <= waits * (if phases >= 3 then phases - 1 else phases) + (if phases >= 3 then CommitWaits(policy, rounds, rounds - 1) else 0)
  }

  lemma WithinMore(q: Progress, policy: Policy, segments: nat)
    requires PolicyValid(policy)
    ensures Within(q, policy, segments, 1) ==> Within(q, policy, segments, 2)
    ensures Within(q, policy, segments, 2) ==> Within(q, policy, segments, 4)
    ensures Within(q, policy, segments, 3) ==> Within(q, policy, segments, 4)
  {
  }

  lemma NoInstalls(q: Progress, policy: Policy, segments: nat)
    requires PolicyValid(policy) && Within(q, policy, segments, 2)
    ensures q.installs == 0
  {
  }

  lemma AfterPrepare(q: Progress, policy: Policy, tunnels: set<Id>, segments: nat, ok: bool)
    requires PolicyValid(policy)
    requires EnsuredWithRetries(START, q, tunnels, Times(segments, policy.retryCount as int + 1),
                                Backoffs(policy.retryBackoffMs as int, policy.retryCount as int), ok)
    ensures Within(q, policy, segments, 1)
    ensures !q.served && !q.confirmed && !q.cleared && (ok ==> tunnels <= q.ensured)
  {
  }

  lemma AfterReady(p: Progress, q: Progress, policy: Policy, segments: nat, ok: bool)
    requires PolicyValid(policy) && Within(p, policy, segments, 1)
    requires ValidatedOnly(p, q, Backoffs(policy.retryBackoffMs as int, policy.retryCount as int), ok)
    ensures Within(q, policy, segments, 2)
    ensures q.served == p.served && q.confirmed == p.confirmed && q.ensured == p.ensured && q.cleared == p.cleared
    ensures ok ==> q.validated
  {
  }

  lemma AfterCommit(p: Progress, q: Progress, sw: Switch, policy: Policy, segments: nat, ok: bool)
    requires PolicyValid(policy) && Within(p, policy, segments, 2) && p.installs == 0
    requires InstalledMore(p, q, sw, policy.retryCount as int + 1,
                           CommitWaits(policy, policy.retryCount as int + 1, policy.retryCount as int), ok)
    ensures Within(q, policy, segments, 3)
    ensures q.served == (p.served || ok) && q.confirmed == (p.confirmed || (ok && !sw.queries))
    ensures q.validated == p.validated && q.ensured == p.ensured && q.cleared == p.cleared
  {
  }

  lemma AfterConfirm(p: Progress, q: Progress, policy: Policy, segments: nat, ok: bool)
    requires PolicyValid(policy) && Within(p, policy, segments, 3)
    requires ConfirmedOnly(p, q, Backoffs(policy.retryBackoffMs as int, policy.retryCount as int), ok)
    ensures Within(q, policy, segments, 4)
    ensures q.served == p.served && q.validated == p.validated && q.ensured == p.ensured && q.cleared == p.cleared
    ensures (p.confirmed ==> q.confirmed) && (ok ==> q.confirmed)
  {
  }

  lemma AfterCleanup(p: Progress, q: Progress, policy: Policy, segments: nat, removed: set<Id>)
    requires PolicyValid(policy) && Within(p, policy, segments, 4) && CleanedUp(p, q, removed)
    ensures Within(q, policy, segments, 4)
    ensures q.served == p.served && q.validated == p.validated && q.confirmed == p.confirmed
  {
  }

  // ----- outcomes -----

  /** The target serves the key, is recorded if the table had room, runs on tunnels that are up, and got
      there after validation and confirmation. */
  ghost predicate Succeeded(sw: Switch, w: World, w': World, capacity: nat, room: nat, q: Progress) {
    && Committed(w.active, w'.active, capacity, w.applied, w'.applied, room, sw.key, sw.target)
    && sw.targetTunnels <= w'.up
    && w.up - (sw.previousTunnels - sw.targetTunnels) <= w'.up
    && q.validated && q.served && q.confirmed && !q.withdrawn
  }

  /** The previous path serves the key again on tunnels that are up, and is what the table records; only
      tunnels of the target alone may have gone down. */
  ghost predicate Restored(sw: Switch, w: World, w': World) {
    && sw.previous != ""
    && w'.applied == w.applied
    && w'.active == w.active[sw.key := sw.previous]
    && sw.previousTunnels <= w'.up
    && w.up - (sw.targetTunnels - sw.previousTunnels) <= w'.up
  }

  /** The switch stopped half way. The table records the target exactly if it was installed; forwarding
      serves it exactly if it was installed and not withdrawn; and the previous path lost no tunnel unless
      the target had been confirmed. */
  ghost predicate Stranded(sw: Switch, w: World, w': World, capacity: nat, room: nat, q: Progress) {
    && (q.served ==> sw.key in w.active || |w.active| < capacity)
    && w'.applied == (if q.served then Stored(w.applied, room, sw.key, sw.target) else w.applied)
    && (var active := if q.served then w.active[sw.key := sw.target] else w.active;
        w'.active == if q.withdrawn then WithdrawnFrom(active, sw.key, sw.target) else active)
    && (!q.confirmed ==> w.up - (sw.targetTunnels - sw.previousTunnels) <= w'.up)
    && w.up - (sw.targetTunnels - sw.previousTunnels) - (sw.previousTunnels - sw.targetTunnels) <= w'.up
  }

  /** The outcome of a whole switch: done, undone, or stopped half way. Every call on the way was legal. */
  ghost predicate SwitchOutcome(sw: Switch, w: World, w': World, capacity: nat, room: nat, q: Progress,
                                err: ErrorCode, state: TransitionState)
  {
    && q.legal
    && state in {Idle, Failed}
    && (q.restored <==> err != ErrNone && state == Idle)
    && (err == ErrNone ==> state == Idle && Succeeded(sw, w, w', capacity, room, q))
    && (err != ErrNone && state == Idle ==> Restored(sw, w, w'))
    && (state == Failed ==> err != ErrNone && Stranded(sw, w, w', capacity, room, q))
  }

  /** No more than `retryCount + 2` installs, `(retryCount + 1)` rounds over the target's segments and one
      over the previous path's, and waits bounded by the policy. */
  ghost predicate Bounded(q: Progress, policy: Policy, segments: nat, previousSegments: nat)
    requires PolicyValid(policy)
  {
    var r := policy.retryCount as int;
    && q.installs <= r + 2
    && q.attempts <= (r + 1) * segments + previousSegments
    && q.slept <= 2 * policy.retryBackoffMs as int * (r * (r + 1)) +
                  (r + 1) * (policy.maxPauseMs as int + policy.drainTimeoutMs as int)
  }

  lemma TwiceProduct(a: nat, b: nat)
    ensures 2 * (a * b) == 2 * a * b
  {
  }

  lemma WithinIsBounded(p: Progress, policy: Policy, segments: nat, calls: nat)
    requires PolicyValid(policy) && Within(p, policy, segments, 4)
    ensures Bounded(p, policy, segments, calls)
    ensures p.installs <= policy.retryCount as int + 1 && p.attempts <= (policy.retryCount as int + 1) * segments
  {
    var r := policy.retryCount as int;
    var pause, backoff := policy.maxPauseMs as int + policy.drainTimeoutMs as int, policy.retryBackoffMs as int;
    TimesIsProduct(segments, r + 1);
    TimesIsProduct(pause, r + 1);
    BackoffsClosedForm(backoff, r);
    TwiceProduct(backoff, r * (r + 1));
    assert p.slept <= 4 * Backoffs(backoff, r) + Times(pause, r + 1);
  }

  lemma BoundedAfterRollback(p: Progress, q: Progress, sw: Switch, policy: Policy, segments: nat, calls: nat)
    requires PolicyValid(policy) && Within(p, policy, segments, 4)
    ensures Bounded(p, policy, segments, calls)
    ensures RolledBack(p, q, sw, calls, 1) ==> Bounded(q, policy, segments, calls)
  {
    hide Within;
    WithinIsBounded(p, policy, segments, calls);
  }

  /** The operational states a completed switch leaves. */
  ghost predicate Activated(before: seq<PathState>, after: seq<PathState>, t: nat, previous: Option<nat>) {
    && OthersKeep(before, after, t, previous)
    && t < |after| && after[t] == PathActive
    && (previous.Some? && previous.value != t && previous.value < |after| ==> after[previous.value] == PathStandby)
  }

  /** Nothing stands in the way of making path `t` ready. */
  ghost predicate Establishable(c: Controller, t: nat)
    requires t < |c.paths|
    reads c`observed, c.net`telemetry
  {
    Reachable(c.net, c.observed.Keys + c.paths[t].Tunnels()) && Passable(c, t)
  }

  ghost predicate IsSetting(c: Controller, s: Setting, sw: Switch, policy: Policy, t: nat)
    requires t < |c.paths|
  {
    s == Setting(sw, c.Wanted(t), policy, c.net.offers, s.room, !c.net.faults.validatePath)
  }

  /** What the switch of path `t` by this policy meets. */
  ghost function SettingOf(c: Controller, sw: Switch, policy: Policy, t: nat): Setting
    requires t < |c.paths|
    reads c`observed
  {
    Setting(sw, c.Wanted(t), policy, c.net.offers, Roomy(c.observed.Keys, c.paths[t]), !c.net.faults.validatePath)
  }

  /** The first two phases: the target's tunnels come up and the target is validated. Nothing else moves. */
  method Establish(c: Controller, policy: Policy, t: nat, ghost s: Setting, ghost sw: Switch) returns (err: ErrorCode)
    requires c.Shape() && t < |c.paths| && PolicyValid(policy)
    requires sw.target == c.paths[t].pathId && sw.targetTunnels == c.paths[t].Tunnels()
    requires c.net.trace == [] && IsSetting(c, s, sw, policy, t) && (s.room ==> Roomy(c.observed.Keys, c.paths[t]))
    modifies c`transitionState, c`opState, c`observed, c`health, c.net`up, c.net`trace
    ensures err == ErrNotFound ==> c.net.faults.ensureTunnel || c.net.faults.validatePath
    ensures c.Shape()
    ensures Within(Observe(sw, c.net.trace), policy, |c.paths[t].segments|, 2)
    ensures !Observe(sw, c.net.trace).served && !Observe(sw, c.net.trace).confirmed
    ensures old(c.net.up) <= c.net.up
    ensures KeptBut(old(c.opState), c.opState, Some(t))
    ensures old(c.observed.Keys) <= c.observed.Keys
    ensures err == ErrNone ==>
              && Observe(sw, c.net.trace).validated
              && sw.targetTunnels <= c.net.up
              && sw.targetTunnels <= Observe(sw, c.net.trace).ensured
              && sw.targetTunnels <= c.observed.Keys
    ensures !c.net.offers.validatePath ==> c.health == old(c.health)
    ensures err == ErrNone && !c.net.faults.validatePath ==>
              c.Readings() == Remembered(old(c.Readings()), c.paths[t].pathId, ProbeReading(c, t))
    ensures old(Establishable(c, t)) ==> err == ErrNone
    ensures if err == ErrNone then Passed(s, 2, c.net.trace) else Broken(s, c.net.trace, err)
  {
    hide Observe, Path.Tunnels, Within, EnsuredWithRetries, ValidatedOnly, Remembered, Reachable, Passable, ReadingsOf, ProbeReading;
    hide Controller.Backing, PathCountsValid;
    hide IsErrorOf, Controller.Wanted, Ran, Passed, GaveUp, Broken, Roomy;
    ObserveNothing(sw);
    PassNone(s);
    ghost var n := |c.paths[t].segments|;
    err := TransitionPrepareRetry(c, policy, t, s, sw);
    PassOne(s, 0, [], c.net.trace, err == ErrNone);
    ghost var prepared := c.net.trace;
    ghost var p := Observe(sw, c.net.trace);
    AfterPrepare(p, policy, sw.targetTunnels, n, err == ErrNone);
    WithinMore(p, policy, n);
    if err != ErrNone { GivingUpBreaks(s, 0, prepared, err); return; }
    err := TransitionReadyRetry(c, policy, t, s, sw);
    PassOne(s, 1, prepared, c.net.trace, err == ErrNone);
    if err != ErrNone { GivingUpBreaks(s, 1, c.net.trace, err); }
    AfterReady(p, Observe(sw, c.net.trace), policy, n, err == ErrNone);
  }

  /** Commit and confirm. Forwarding and the applied table change exactly if the target gets installed. */
  method Move(c: Controller, policy: Policy, key: Id, t: nat, previous: Option<nat>, ghost s: Setting, ghost sw: Switch) returns (err: ErrorCode)
    requires c.Shape() && c.Backing() && t < |c.paths| && PolicyValid(policy)
    requires previous.Some? ==> previous.value < |c.paths| && previous.value != t
    requires sw.key == key && sw.target == c.paths[t].pathId && sw.queries == c.net.offers.activePath
    requires Within(Observe(sw, c.net.trace), policy, |c.paths[t].segments|, 2)
    requires Observe(sw, c.net.trace).validated && sw.targetTunnels <= Observe(sw, c.net.trace).ensured
    requires !Observe(sw, c.net.trace).served && !Observe(sw, c.net.trace).confirmed
    requires IsSetting(c, s, sw, policy, t) && Passed(s, 2, c.net.trace)
    modifies c`transitionState, c`opState, c.net`trace
    modifies c.net.vpp, c.net.vpp.trafficKeys, c.net.vpp.activePaths
    modifies c.applied, c.applied.trafficKeys, c.applied.appliedPaths, c.applied.appliedSinceMs
    ensures err in {ErrNone, ErrForwardingUpdateFailed}
    ensures c.Shape() && c.Backing()
    ensures Within(Observe(sw, c.net.trace), policy, |c.paths[t].segments|, 4)
    ensures if Observe(sw, c.net.trace).served
            then Committed(old(c.net.vpp.active), c.net.vpp.active, c.net.vpp.capacity,
                           old(c.applied.paths), c.applied.paths, c.applied.capacity, key, sw.target)
                 && StoredNow(old(c.applied.paths), old(c.applied.since), c.applied.since, c.applied.capacity, key, sw.target, c.net.trace)
            else c.net.vpp.active == old(c.net.vpp.active) && c.applied.paths == old(c.applied.paths) && c.applied.since == old(c.applied.since)
    ensures OthersKeep(old(c.opState), c.opState, t, previous)
    ensures err == ErrNone ==>
              && Observe(sw, c.net.trace).served && Observe(sw, c.net.trace).validated && Observe(sw, c.net.trace).confirmed
              && c.opState[t] == PathActive
    ensures Observe(sw, c.net.trace).served && !c.net.faults.activePath ==> err == ErrNone
    ensures old(Committable(c, policy, key)) ==> Observe(sw, c.net.trace).served
    ensures Mute(c) ==> err != ErrNone
    ensures if err == ErrNone then Passed(s, 4, c.net.trace) else Broken(s, c.net.trace, err)
  {
    hide Controller.Backing, PathCountsValid, Network.Installable, StoredNow, OthersKeep;
    hide Ran, Passed, GaveUp, Broken;
    hide Observe, Represents, Path.Tunnels, Within, InstalledMore, ConfirmedOnly, Stored, Committable, Mute;
    ghost var n, ready, p := |c.paths[t].segments|, c.net.trace, Observe(sw, c.net.trace);
    NoInstalls(p, policy, n);
    err := TransitionCommitRetry(c, policy, key, t, previous, s, sw);
    ghost var committed, q := c.net.trace, Observe(sw, c.net.trace);
    PassOne(s, 2, ready, committed, err == ErrNone);
    AfterCommit(p, q, sw, policy, n, err == ErrNone);
    WithinMore(q, policy, n);
    if err != ErrNone { GivingUpBreaks(s, 2, committed, ErrForwardingUpdateFailed); return ErrForwardingUpdateFailed; }
    err := TransitionConfirmRetry(c, policy, key, t, s, sw);
    RanExtends(s, ConfirmPhase, committed, c.net.trace, err == ErrNone);
    StoredNowStays(old(c.applied.paths), old(c.applied.since), c.applied.since, c.applied.capacity, key, sw.target, committed, c.net.trace);
    PassOne(s, 3, committed, c.net.trace, err == ErrNone);
    AfterConfirm(q, Observe(sw, c.net.trace), policy, n, err == ErrNone);
    if err != ErrNone { GivingUpBreaks(s, 3, c.net.trace, err); }
  }

  /** The last three phases: commit, confirm, clean up. Forwarding and the applied table change exactly if
      the target gets installed, and the previous path keeps its tunnels until the target is confirmed. */
  method SwitchOver(c: Controller, policy: Policy, key: Id, t: nat, previous: Option<nat>, ghost s: Setting, ghost sw: Switch) returns (err: ErrorCode)
    requires c.Shape() && c.Backing() && t < |c.paths| && PolicyValid(policy)
    requires previous.Some? ==> previous.value < |c.paths| && previous.value != t
    requires sw.key == key && sw.target == c.paths[t].pathId && sw.targetTunnels == c.paths[t].Tunnels()
    requires sw.queries == c.net.offers.activePath && sw.previous != sw.target
    requires previous.Some? ==> sw.previous == c.paths[previous.value].pathId && sw.previousTunnels == c.paths[previous.value].Tunnels()
    requires previous.None? ==> sw.previousTunnels == {}
    requires Within(Observe(sw, c.net.trace), policy, |c.paths[t].segments|, 2)
    requires Observe(sw, c.net.trace).validated && sw.targetTunnels <= Observe(sw, c.net.trace).ensured
    requires !Observe(sw, c.net.trace).served && !Observe(sw, c.net.trace).confirmed
    requires IsSetting(c, s, sw, policy, t) && Passed(s, 2, c.net.trace)
    modifies c`transitionState, c`opState, c.net`up, c.net`trace
    modifies c.net.vpp, c.net.vpp.trafficKeys, c.net.vpp.activePaths
    modifies c.applied, c.applied.trafficKeys, c.applied.appliedPaths, c.applied.appliedSinceMs
    ensures err != ErrNotFound
    ensures c.Shape() && c.Backing()
    ensures Within(Observe(sw, c.net.trace), policy, |c.paths[t].segments|, 4)
    ensures if Observe(sw, c.net.trace).served
            then Committed(old(c.net.vpp.active), c.net.vpp.active, c.net.vpp.capacity,
                           old(c.applied.paths), c.applied.paths, c.applied.capacity, key, sw.target)
                 && StoredNow(old(c.applied.paths), old(c.applied.since), c.applied.since, c.applied.capacity, key, sw.target, c.net.trace)
            else c.net.vpp.active == old(c.net.vpp.active) && c.applied.paths == old(c.applied.paths) && c.applied.since == old(c.applied.since)
    ensures old(c.net.up) - (sw.previousTunnels - sw.targetTunnels) <= c.net.up
    ensures !Observe(sw, c.net.trace).confirmed ==> old(c.net.up) <= c.net.up
    ensures OthersKeep(old(c.opState), c.opState, t, previous)
    ensures err == ErrNone ==>
              && Observe(sw, c.net.trace).served && Observe(sw, c.net.trace).validated && Observe(sw, c.net.trace).confirmed
              && Activated(old(c.opState), c.opState, t, previous)
              && (previous.Some? && c.net.offers.removePath ==> Observe(sw, c.net.trace).cleared)
              && (c.net.offers.removeTunnel ==> (sw.previousTunnels - sw.targetTunnels) * c.observed.Keys !! c.net.up)
    ensures Observe(sw, c.net.trace).served && !c.net.faults.activePath && !c.net.faults.removePath && !c.net.faults.removeTunnel ==>
              err == ErrNone
    ensures old(Committable(c, policy, key)) ==> Observe(sw, c.net.trace).served
    ensures Mute(c) ==> err != ErrNone
    ensures if err == ErrNone then CleanedUpAfter(s, c.net.trace, true) else Broken(s, c.net.trace, err)
  {
    hide Controller.Backing, PathCountsValid, Network.Installable, StoredNow;
    hide IsCleanupError, Controller.Wanted, Passed, Broken, CleanedUpAfter, IsCleanupRound;
    hide Observe, Represents, Path.Tunnels, Within, CleanedUp, Stored, Committable, Mute;
    ghost var n := |c.paths[t].segments|;
    err := Move(c, policy, key, t, previous, s, sw);
    ghost var confirmed, r, round := c.net.trace, Observe(sw, c.net.trace), [];
    if err != ErrNone { return; }
    err, round := TransitionCleanupPrevious(c, key, previous, t, sw);
    CleaningUp(s, confirmed, round, err);
    StoredNowStays(old(c.applied.paths), old(c.applied.since), c.applied.since, c.applied.capacity, key, sw.target, confirmed, c.net.trace);
    AfterCleanup(r, Observe(sw, c.net.trace), policy, n, sw.previousTunnels - sw.targetTunnels);
  }

  lemma FailedOutcome(sw: Switch, w: World, w1: World, w2: World, capacity: nat, room: nat, p: Progress, q: Progress,
                      err: ErrorCode, ok: bool)
    requires Attempted(sw, w, w1, capacity, room, p) && Undone(sw, w1, w2, room, q, ok)
    requires q.legal && q.served == p.served && q.confirmed == p.confirmed && q.restored == ok
    requires sw.previous == if sw.key in w.applied then w.applied[sw.key] else ""
    requires err != ErrNone
    ensures SwitchOutcome(sw, w, w2, capacity, room, q, err, if ok then Idle else Failed)
  {
    if ok {
      assert w2.applied == w.applied;
      assert w2.active == w.active[sw.key := sw.previous];
    }
  }

  lemma AttemptSound(p: Progress, q: Progress, sw: Switch, policy: Policy, segments: nat, calls: nat)
    requires PolicyValid(policy) && Within(p, policy, segments, 4)
    ensures p.legal && !p.withdrawn && !p.restored
    ensures RolledBack(p, q, sw, calls, 1) ==> q.legal && q.served == p.served && q.confirmed == p.confirmed
  {
  }

  /** The world after the phases: changed exactly if the target was installed. */
  ghost predicate Attempted(sw: Switch, w: World, w': World, capacity: nat, room: nat, p: Progress) {
    && (if p.served then Committed(w.active, w'.active, capacity, w.applied, w'.applied, room, sw.key, sw.target)
        else w'.active == w.active && w'.applied == w.applied)
    && w.up - (sw.previousTunnels - sw.targetTunnels) <= w'.up
    && (!p.confirmed ==> w.up <= w'.up)
  }

  /** Nothing stands in the way of making path `t` ready and committing it for the key. */
  ghost predicate Smooth(c: Controller, policy: Policy, key: Id, t: nat)
    requires t < |c.paths|
    reads c`observed, c.net`telemetry, c.net.vpp`active, c.net.vpp`failNextUpdate
  {
    Establishable(c, t) && Committable(c, policy, key)
  }

  /** The phases of a switch up to the first failure. */
  method Attempt(c: Controller, policy: Policy, key: Id, previous: Option<nat>, t: nat, ghost s: Setting, ghost sw: Switch) returns (err: ErrorCode)
    requires c.Shape() && c.Backing() && t < |c.paths| && PolicyValid(policy)
    requires previous.Some? ==> previous.value < |c.paths| && previous.value != t
    requires sw.key == key && sw.target == c.paths[t].pathId && sw.targetTunnels == c.paths[t].Tunnels()
    requires sw.queries == c.net.offers.activePath && sw.previous != sw.target
    requires previous.Some? ==> sw.previous == c.paths[previous.value].pathId && sw.previousTunnels == c.paths[previous.value].Tunnels()
    requires previous.None? ==> sw.previousTunnels == {}
    requires c.net.trace == [] && IsSetting(c, s, sw, policy, t) && (s.room ==> Roomy(c.observed.Keys, c.paths[t]))
    modifies c`transitionState, c`opState, c`observed, c`health, c.net`up, c.net`trace
    modifies c.net.vpp, c.net.vpp.trafficKeys, c.net.vpp.activePaths
    modifies c.applied, c.applied.trafficKeys, c.applied.appliedPaths, c.applied.appliedSinceMs
    ensures err == ErrNotFound ==> c.net.faults.ensureTunnel || c.net.faults.validatePath
    ensures c.Shape() && c.Backing()
    ensures Within(Observe(sw, c.net.trace), policy, |c.paths[t].segments|, 4)
    ensures Attempted(sw, old(WorldOf(c)), WorldOf(c), c.net.vpp.capacity, c.applied.capacity, Observe(sw, c.net.trace))
    ensures Timed(old(c.applied.paths), old(c.applied.since), c.applied.since, c.applied.capacity, key,
                  if Observe(sw, c.net.trace).served then Some(sw.target) else None, c.net.trace)
    ensures OthersKeep(old(c.opState), c.opState, t, previous)
    ensures err == ErrNone ==>
              && Observe(sw, c.net.trace).served && Observe(sw, c.net.trace).validated && Observe(sw, c.net.trace).confirmed
              && sw.targetTunnels <= c.net.up
              && Activated(old(c.opState), c.opState, t, previous)
              && (previous.Some? && c.net.offers.removePath ==> Observe(sw, c.net.trace).cleared)
              && (c.net.offers.removeTunnel ==> (sw.previousTunnels - sw.targetTunnels) * c.observed.Keys !! c.net.up)
              && (!c.net.faults.validatePath ==>
                    c.Readings() == Remembered(old(c.Readings()), c.paths[t].pathId, ProbeReading(c, t)))
    ensures Observe(sw, c.net.trace).served && Reliable(c) ==> err == ErrNone
    ensures old(Smooth(c, policy, key, t)) ==> Observe(sw, c.net.trace).served
    ensures Mute(c) ==> err != ErrNone
    ensures if err == ErrNone then CleanedUpAfter(s, c.net.trace, true) else Broken(s, c.net.trace, err)
  {
    hide Timed, StoredNow, Controller.Backing, PathCountsValid;
    hide Controller.Wanted, Passed, Broken, CleanedUpAfter, Roomy;
    hide Observe, Represents, Path.Tunnels, Within, Remembered, Stored, Committed, Committable, Establishable, Mute;
    ghost var segments := |c.paths[t].segments|;
    err := Establish(c, policy, t, s, sw);
    WithinMore(Observe(sw, c.net.trace), policy, segments);
    NothingTimed(c.applied.paths, c.applied.since, c.applied.capacity, key, c.net.trace);
    if err != ErrNone { return; }
    ghost var paths, since := c.applied.paths, c.applied.since;
    err := SwitchOver(c, policy, key, t, previous, s, sw);
    if Observe(sw, c.net.trace).served {
      StoredIsTimed(paths, since, c.applied.since, c.applied.capacity, key, sw.target, c.net.trace);
    } else {
      NothingTimed(paths, since, c.applied.capacity, key, c.net.trace);
    }
  }

  lemma KeepBoth(a: seq<PathState>, b: seq<PathState>, d: seq<PathState>, t: nat, previous: Option<nat>)
    requires OthersKeep(a, b, t, previous) && KeptBut(b, d, previous)
    ensures OthersKeep(a, d, t, previous)
  {
  }

  lemma SucceededOutcome(sw: Switch, w: World, w': World, capacity: nat, room: nat, q: Progress)
    requires Attempted(sw, w, w', capacity, room, q) && sw.targetTunnels <= w'.up
    requires q.legal && q.validated && q.served && q.confirmed && !q.withdrawn && !q.restored
    ensures SwitchOutcome(sw, w, w', capacity, room, q, ErrNone, Idle)
  {
  }

  lemma AttemptedTable(sw: Switch, w: World, w': World, capacity: nat, room: nat, p: Progress)
    requires Attempted(sw, w, w', capacity, room, p)
    ensures w'.applied == w.applied || w'.applied == Stored(w.applied, room, sw.key, sw.target)
  {
  }

  /** Undoes an attempt that failed with `err`. */
  method Recover(c: Controller, policy: Policy, key: Id, previous: Id, t: nat, ghost err: ErrorCode,
                 ghost start: World, ghost since: map<Id, int>, ghost states: seq<PathState>, ghost sw: Switch)
    requires c.Shape() && c.Backing() && t < |c.paths| && PolicyValid(policy)
    requires IsSwitch(c, sw, key, previous, t) && sw.previous != sw.target
    requires sw.previous == if sw.key in start.applied then start.applied[sw.key] else ""
    requires Within(Observe(sw, c.net.trace), policy, |c.paths[t].segments|, 4)
    requires Attempted(sw, start, WorldOf(c), c.net.vpp.capacity, c.applied.capacity, Observe(sw, c.net.trace))
    requires OthersKeep(states, c.opState, t, FindPath(c.paths, previous))
    requires Timed(start.applied, since, c.applied.since, c.applied.capacity, key,
                   if Observe(sw, c.net.trace).served then Some(sw.target) else None, c.net.trace)
    requires err != ErrNone
    modifies c`transitionState, c`opState, c`observed, c.net`up, c.net`trace
    modifies c.net.vpp, c.net.vpp.trafficKeys, c.net.vpp.activePaths
    modifies c.applied, c.applied.trafficKeys, c.applied.appliedPaths, c.applied.appliedSinceMs
    ensures c.Shape() && c.Backing()
    ensures SwitchOutcome(sw, start, WorldOf(c), c.net.vpp.capacity, c.applied.capacity, Observe(sw, c.net.trace), err, c.transitionState)
    ensures Bounded(Observe(sw, c.net.trace), policy, |c.paths[t].segments|, SegmentCount(c, previous))
    ensures Observe(sw, c.net.trace).served == old(Observe(sw, c.net.trace)).served
    ensures c.transitionState == Idle ==>
              && FindPath(c.paths, previous).Some?
              && c.opState[FindPath(c.paths, previous).value] == PathReady
              && (c.net.offers.removeTunnel ==> (sw.targetTunnels - sw.previousTunnels) * c.observed.Keys !! c.net.up)
              && OthersKeep(states, c.opState, t, FindPath(c.paths, previous))
    ensures AlwaysWithdraws(c) ==> Observe(sw, c.net.trace).withdrawn
    ensures old(c.net.trace) <= c.net.trace
    ensures Timed(start.applied, since, c.applied.since, c.applied.capacity, key,
                  if c.transitionState == Idle then Some(previous) else None, c.net.trace)
    ensures Reliable(c) && old(Reinstallable(c, key, previous)) ==> c.transitionState == Idle
  {
    hide Observe, Represents, Path.Tunnels, Within, RolledBack, Stored, Bounded, Committed, WithdrawnFrom, Controller.Backing;
    hide SwitchOutcome, SegmentCount, Attempted, Undone, OthersKeep, KeptBut, FindPath, AlwaysWithdraws, PathCountsValid, Reinstallable, StoredNow, Timed;
    ghost var segments, calls := |c.paths[t].segments|, SegmentCount(c, previous);
    ghost var p, attempted, before := Observe(sw, c.net.trace), WorldOf(c), c.opState;
    ghost var trace, since' := c.net.trace, c.applied.since;
    AttemptSound(p, p, sw, policy, segments, calls);
    AttemptedTable(sw, start, attempted, c.net.vpp.capacity, c.applied.capacity, p);
    var undo := Rollback(c, key, previous, t, sw);
    ghost var q := Observe(sw, c.net.trace);
    BoundedAfterRollback(p, q, sw, policy, segments, calls);
    AttemptSound(p, q, sw, policy, segments, calls);
    KeepBoth(states, before, c.opState, t, FindPath(c.paths, previous));
    TimedTwice(start.applied, since, attempted.applied, since', c.applied.since, c.applied.capacity, sw,
               if p.served then Some(sw.target) else None, trace, c.net.trace, undo == ErrNone);
    FailedOutcome(sw, start, attempted, WorldOf(c), c.net.vpp.capacity, c.applied.capacity, p, q, err, undo == ErrNone);
  }

  /** The path applied for the key, or the empty name. */
  method PreviousPath(c: Controller, key: Id) returns (previous: Id)
    requires c.Backing()
    ensures previous == if key in c.applied.paths then c.applied.paths[key] else ""
  {
    var current, since := c.applied.Get(key);
    previous := if current.Some? then current.value else "";
  }

  /** Moves the intent's traffic to path `t`, or undoes what it did. The caller has made sure that `t` is not
      the path already applied (src/controller.c:135). */
  method TransitionPath(c: Controller, intent: Intent, t: nat, ghost sw: Switch) returns (err: ErrorCode)
    requires c.Shape() && c.Backing() && t < |c.paths|
    requires sw == SwitchOf(c, TrafficKey(intent.traffic), t) && sw.previous != sw.target
    modifies c`transitionState, c`opState, c`observed, c`health, c.net`up, c.net`trace
    modifies c.net.vpp, c.net.vpp.trafficKeys, c.net.vpp.activePaths
    modifies c.applied, c.applied.trafficKeys, c.applied.appliedPaths, c.applied.appliedSinceMs
    ensures err == ErrNotFound ==> c.net.faults.ensureTunnel || c.net.faults.validatePath
    ensures c.Shape() && c.Backing()
    ensures !PolicyValid(intent.transition) ==>
              err == ErrInvalidArgument && c.transitionState == old(c.transitionState) && WorldOf(c) == old(WorldOf(c))
    ensures PolicyValid(intent.transition) ==>
              && SwitchOutcome(sw, old(WorldOf(c)), WorldOf(c), c.net.vpp.capacity, c.applied.capacity,
                               Observe(sw, c.net.trace), err, c.transitionState)
              && Bounded(Observe(sw, c.net.trace), intent.transition, |c.paths[t].segments|, SegmentCount(c, sw.previous))
    ensures err == ErrNone ==>
              && Activated(old(c.opState), c.opState, t, FindPath(c.paths, sw.previous))
              && (FindPath(c.paths, sw.previous).Some? && c.net.offers.removePath ==> Observe(sw, c.net.trace).cleared)
              && (c.net.offers.removeTunnel ==> (sw.previousTunnels - sw.targetTunnels) * c.observed.Keys !! c.net.up)
              && (!c.net.faults.validatePath ==>
                    c.Readings() == Remembered(old(c.Readings()), c.paths[t].pathId, ProbeReading(c, t)))
    ensures err != ErrNone && PolicyValid(intent.transition) && c.transitionState == Idle ==>
              && FindPath(c.paths, sw.previous).Some?
              && c.opState[FindPath(c.paths, sw.previous).value] == PathReady
              && (c.net.offers.removeTunnel ==> (sw.targetTunnels - sw.previousTunnels) * c.observed.Keys !! c.net.up)
              && OthersKeep(old(c.opState), c.opState, t, FindPath(c.paths, sw.previous))
    ensures Reliable(c) && PolicyValid(intent.transition) && c.transitionState == Failed ==>
              !Observe(sw, c.net.trace).served
    ensures PolicyValid(intent.transition) && old(Smooth(c, intent.transition, TrafficKey(intent.traffic), t)) ==>
              Observe(sw, c.net.trace).served && (Reliable(c) ==> err == ErrNone)
    ensures PolicyValid(intent.transition) && Mute(c) ==>
              err != ErrNone && (AlwaysWithdraws(c) ==> Observe(sw, c.net.trace).withdrawn)
    ensures PolicyValid(intent.transition) ==>
              Timed(old(c.applied.paths), old(c.applied.since), c.applied.since, c.applied.capacity, sw.key,
                    if err == ErrNone then Some(sw.target) else if c.transitionState == Idle then Some(sw.previous) else None, c.net.trace)
    ensures !PolicyValid(intent.transition) ==> c.applied.since == old(c.applied.since)
    ensures PolicyValid(intent.transition) ==>
              Conducted(old(SettingOf(c, sw, intent.transition, t)), c.net.trace, err)
  {
    hide Timed, Controller.Wanted;
    hide Conducted, Broken, CleanedUpAfter, Roomy, Reinstallable;
    hide Smooth, Mute, AlwaysWithdraws, Reliable, Controller.Backing, PathCountsValid;
    hide Observe, Represents, Path.Tunnels, Within, RolledBack, Remembered, Stored, Bounded, Committed, WithdrawnFrom;
    hide SwitchOutcome, SegmentCount, Attempted, Undone, OthersKeep, KeptBut, Activated, MockHealth, ReadingsOf, ProbeReading, FindPath;
    hide TrafficKey;
    if !PathCountsValid(c.paths[t]) || !PolicyValid(intent.transition) { return ErrInvalidArgument; }
    var policy := intent.transition;
    var key := TrafficKey(intent.traffic);
    var previous := PreviousPath(c, key);
    c.transitionState := Preparing;
    ghost var since := c.applied.since;
    c.net.Mark();
    ghost var s := SettingOf(c, sw, policy, t);
    ghost var start := WorldOf(c);

    err := Attempt(c, policy, key, FindPath(c.paths, previous), t, s, sw);
    ghost var attempt := c.net.trace;
    if err != ErrNone {
      Recover(c, policy, key, previous, t, err, start, since, old(c.opState), sw);
      ConductedTo(s, attempt, c.net.trace, err);
      return;
    }
    ghost var p := Observe(sw, c.net.trace);
    BoundedAfterRollback(p, p, sw, policy, |c.paths[t].segments|, SegmentCount(c, previous));
    AttemptSound(p, p, sw, policy, |c.paths[t].segments|, 0);
    SucceededOutcome(sw, start, WorldOf(c), c.net.vpp.capacity, c.applied.capacity, p);
    ConductedTo(s, attempt, attempt, ErrNone);
    c.transitionState := Completed;
    c.transitionState := Idle;
  }

  lemma ObserveNothing(sw: Switch)
    ensures Observe(sw, []) == START
  {
  }

  /** Backends that answer truthfully and never fail to remove, as the mocks do; bringing up, validating and
      installing may still fail at any point. */
  ghost predicate Reliable(c: Controller) {
    !c.net.faults.activePath && !c.net.faults.removePath && !c.net.faults.removeTunnel
  }

  /** The switch of `key` from whatever is applied to path `t`. */
  ghost function SwitchOf(c: Controller, key: Id, t: nat): Switch
    requires t < |c.paths|
    reads c.applied`paths
  {
    var previous := if key in c.applied.paths then c.applied.paths[key] else "";
    Switch(key, c.paths[t].pathId, c.paths[t].Tunnels(), previous, c.TunnelsOf(previous), c.net.offers.activePath)
  }
}
