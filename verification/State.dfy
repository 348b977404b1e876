/** The controller's state (src/internal.h, src/state.c): the applied-path table, the operational state
    of the paths, and the stored observations. */
module ControllerState {
  import opened Model
  import opened Tables
  import opened Backends
  import opened PathSelection

  /** Which path serves each traffic key, and since when: three parallel fixed arrays with a count. */
  class AppliedTable {
    const capacity: nat
    const trafficKeys: array<Id>
    const appliedPaths: array<Id>
    const appliedSinceMs: array<int>
    var count: nat
    ghost var paths: map<Id, Id>
    ghost var since: map<Id, int>

    ghost predicate Valid()
      reads this, trafficKeys, appliedPaths, appliedSinceMs
    {
      && trafficKeys != appliedPaths
      && trafficKeys.Length == appliedPaths.Length == appliedSinceMs.Length == capacity
      && count <= capacity
      && Represents(trafficKeys[..count], appliedPaths[..count], paths)
      && Represents(trafficKeys[..count], appliedSinceMs[..count], since)
      && paths.Keys == since.Keys
    }

    constructor (capacity: nat)
      ensures Valid() && this.capacity == capacity
      ensures paths == map[] && since == map[]
      ensures fresh(trafficKeys) && fresh(appliedPaths) && fresh(appliedSinceMs)
    {
      this.capacity := capacity;
      trafficKeys := new Id[capacity];
      appliedPaths := new Id[capacity];
      appliedSinceMs := new int[capacity];
      count := 0;
      paths, since := map[], map[];
    }

    method FindKey(key: Id) returns (i: nat)
      requires Valid()
      ensures i <= count
      ensures i < count ==>
                && trafficKeys[i] == key && key in paths
                && paths[key] == appliedPaths[i] && since[key] == appliedSinceMs[i]
      ensures i == count ==> key !in paths
    {
      i := 0;
      while i < count
        invariant i <= count
        invariant key !in trafficKeys[..i]
      {
        if trafficKeys[i] == key {
          assert trafficKeys[..count][i] == key;
          assert appliedPaths[..count][i] == appliedPaths[i] && appliedSinceMs[..count][i] == appliedSinceMs[i];
          return;
        }
        i := i + 1;
      }
    }

    /** The applied path of a key, if any, and the time it was applied (0 if none). */
    method Get(key: Id) returns (path: Option<Id>, sinceMs: int)
      requires Valid()
      ensures path == if key in paths then Some(paths[key]) else None
      ensures sinceMs == if key in paths then since[key] else 0
    {
      var i := FindKey(key);
      if i < count { return Some(appliedPaths[i]), appliedSinceMs[i]; }
      return None, 0;
    }

    /** A known key is overwritten; a new key is stored while there is room, and dropped without a
        word when the table is full. */
    method Set(key: Id, path: Id, nowMs: int)
      requires Valid()
      modifies this, trafficKeys, appliedPaths, appliedSinceMs
      ensures Valid()
      ensures paths == Stored(old(paths), capacity, key, path)
      ensures since == StampedAt(old(paths), old(since), capacity, key, nowMs)
    {
      var i := FindKey(key);
      if i < count {
        Overwrite(i, path, nowMs);
      } else if count < capacity {
        Append(key, path, nowMs);
      }
    }

    method Overwrite(i: nat, path: Id, nowMs: int)
      requires Valid() && i < count
      modifies this`paths, this`since, appliedPaths, appliedSinceMs
      ensures Valid()
      ensures paths == old(paths)[trafficKeys[i] := path]
      ensures since == old(since)[trafficKeys[i] := nowMs]
    {
      ghost var keys, ps, ts := trafficKeys[..count], appliedPaths[..count], appliedSinceMs[..count];
      appliedPaths[i] := path;
      appliedSinceMs[i] := nowMs;
      RepresentsUpdate(keys, ps, paths, i, path);
      RepresentsUpdate(keys, ts, since, i, nowMs);
      assert trafficKeys[..count] == keys;
      assert appliedPaths[..count] == ps[i := path];
      assert appliedSinceMs[..count] == ts[i := nowMs];
      paths := paths[trafficKeys[i] := path];
      since := since[trafficKeys[i] := nowMs];
    }

    static lemma SameCount(keys: seq<Id>, values: seq<Id>, paths: map<Id, Id>, since: map<Id, int>)
      requires Represents(keys, values, paths) && paths.Keys == since.Keys
      ensures forall k :: k !in paths ==> k !in since
    {
    }

    method Append(key: Id, path: Id, nowMs: int)
      requires Valid() && count < capacity && key !in paths
      modifies this`paths, this`since, this`count, trafficKeys, appliedPaths, appliedSinceMs
      ensures Valid()
      ensures paths == old(paths)[key := path]
      ensures since == old(since)[key := nowMs]
    {
      hide Represents;
      ghost var keys, ps, ts := trafficKeys[..count], appliedPaths[..count], appliedSinceMs[..count];
      SameCount(keys, ps, paths, since);
      trafficKeys[count] := key;
      appliedPaths[count] := path;
      appliedSinceMs[count] := nowMs;
      count := count + 1;
      RepresentsAppend(keys, ps, paths, key, path);
      RepresentsAppend(keys, ts, since, key, nowMs);
      assert trafficKeys[..count] == keys + [key];
      assert appliedPaths[..count] == ps + [path];
      assert appliedSinceMs[..count] == ts + [nowMs];
      paths := paths[key := path];
      since := since[key := nowMs];
    }
  }

  class Controller {
    const net: Network
    const applied: AppliedTable
    const nodes: seq<Node>
    const paths: seq<Path>
    const desiredTunnels: seq<Tunnel>
    /** The operational state of `paths[i]`. */
    var opState: seq<PathState>
    var observed: map<Id, Tunnel>
    var health: map<Id, PathHealth>
    var intents: seq<Intent>
    var transitionState: TransitionState

    ghost function Repr(): set<object> {
      {this, applied, applied.trafficKeys, applied.appliedPaths, applied.appliedSinceMs,
       net, net.vpp, net.vpp.trafficKeys, net.vpp.activePaths}
    }

    /** The tables and the forwarding backend are sound, and share no storage. */
    ghost predicate Backing()
      reads applied, applied.trafficKeys, applied.appliedPaths, applied.appliedSinceMs
      reads net.vpp, net.vpp.trafficKeys, net.vpp.activePaths
    {
      && applied.trafficKeys != net.vpp.trafficKeys && applied.trafficKeys != net.vpp.activePaths
      && applied.appliedPaths != net.vpp.trafficKeys && applied.appliedPaths != net.vpp.activePaths
      && net.Valid()
      && applied.Valid()
    }

    ghost predicate Shape()
      reads this`opState, this`observed
    {
      && |opState| == |paths|
      && (forall i :: 0 <= i < |paths| ==> PathCountsValid(paths[i]) && paths[i].pathId != "")
      && (forall id :: id in observed ==> observed[id].tunnelId == id)
    }

    ghost predicate Valid()
      reads Repr()
    {
      Shape() && Backing()
    }

    constructor (nodes: seq<Node>, paths: seq<Path>, tunnels: seq<Tunnel>, net: Network)
      requires net.Valid()
      requires forall i :: 0 <= i < |paths| ==> PathCountsValid(paths[i]) && paths[i].pathId != ""
      ensures Valid() && this.net == net
      ensures this.nodes == nodes && this.paths == paths && this.desiredTunnels == tunnels
      ensures applied.capacity == MAX_CANDIDATES && applied.paths == map[] && applied.since == map[]
      ensures transitionState == Idle && intents == [] && health == map[] && observed == map[]
      ensures fresh(applied) && fresh(applied.trafficKeys) && fresh(applied.appliedPaths) && fresh(applied.appliedSinceMs)
    {
      this.net := net;
      this.nodes, this.paths, this.desiredTunnels := nodes, paths, tunnels;
      applied := new AppliedTable(MAX_CANDIDATES);
      opState := seq(|paths|, _ => PathUnavailable);
      observed, health, intents, transitionState := map[], map[], [], Idle;
    }

    /** The tunnel to bring up for a segment: the configured one, or one made up from the segment. */
    function DesiredFor(segment: Segment): (t: Tunnel)
      ensures t.tunnelId == segment.tunnelId
    {
      var configured := FindTunnel(desiredTunnels, segment.tunnelId);
      if configured.Some? then configured.value
      else Tunnel(segment.tunnelId, "", segment.fromNode, segment.toNode, "", "", "", "", "", "", "", "", "",
                  0, 0, "", "", "", "", TunnelConfigured, HealthUnknown)
    }

    /** What the backend is to be asked for, segment by segment. */
    function Wanted(p: nat): (w: seq<Tunnel>)
      requires p < |paths|
      ensures |w| == |paths[p].segments| && forall i :: 0 <= i < |w| ==> w[i] == DesiredFor(paths[p].segments[i])
    {
      seq(|paths[p].segments|, i requires 0 <= i < |paths[p].segments| => DesiredFor(paths[p].segments[i]))
    }

    /** It is the tunnel as configured, the first one of that name, or one between the ends of the segment. */
    lemma DesiredIsConfigured(segment: Segment)
      ensures var t := DesiredFor(segment);
              || (exists i :: 0 <= i < |desiredTunnels| && desiredTunnels[i] == t && t.tunnelId == segment.tunnelId &&
                    forall j :: 0 <= j < i ==> desiredTunnels[j].tunnelId != segment.tunnelId)
              || ((forall j :: 0 <= j < |desiredTunnels| ==> desiredTunnels[j].tunnelId != segment.tunnelId) &&
                  t.tunnelId == segment.tunnelId && t.localNode == segment.fromNode && t.remoteNode == segment.toNode)
    {
      FirstTunnel(desiredTunnels, segment.tunnelId);
    }

    /** The tunnels of the path with this identifier; none if there is no such path. */
    function TunnelsOf(id: Id): set<Id> {
      var p := FindPath(paths, id);
      if p.Some? then paths[p.value].Tunnels() else {}
    }

    /** The stored health records as selection reads them. */
    ghost function Readings(): map<Id, Reading>
      reads this
    {
      ReadingsOf(health)
    }

    method StoreHealth(h: PathHealth)
      modifies this`health
      ensures health == if h.pathId in old(health) || |old(health)| < MAX_PATHS then old(health)[h.pathId := h] else old(health)
    {
      if h.pathId in health || |health| < MAX_PATHS { health := health[h.pathId := h]; }
    }
  }

  lemma {:induction false} FirstTunnel(tunnels: seq<Tunnel>, id: Id)
    ensures FindTunnel(tunnels, id).Some? ==>
              exists i :: 0 <= i < |tunnels| && tunnels[i] == FindTunnel(tunnels, id).value && forall j :: 0 <= j < i ==> tunnels[j].tunnelId != id
    ensures FindTunnel(tunnels, id).None? ==> forall j :: 0 <= j < |tunnels| ==> tunnels[j].tunnelId != id
  {
    if |tunnels| > 0 && tunnels[0].tunnelId != id {
      FirstTunnel(tunnels[1..], id);
      if FindTunnel(tunnels, id).Some? {
        var i :| 0 <= i < |tunnels[1..]| && tunnels[1..][i] == FindTunnel(tunnels, id).value && forall j :: 0 <= j < i ==> tunnels[1..][j].tunnelId != id;
        assert tunnels[i + 1] == tunnels[1..][i];
        assert forall j :: 0 < j < i + 1 ==> tunnels[j] == tunnels[1..][j - 1];
      }
    }
  }

  function ReadingOf(h: PathHealth): Reading {
    Reading(h.state, h.rttMs, h.packetLossPercent, h.consecutiveFailures, h.consecutiveSuccesses)
  }

  function ReadingsOf(health: map<Id, PathHealth>): map<Id, Reading> {
    map id | id in health :: ReadingOf(health[id])
  }

  /** The applied paths after storing one, in a table with room for `capacity` keys. */
  function Stored(paths: map<Id, Id>, capacity: nat, key: Id, path: Id): map<Id, Id> {
    if key in paths || |paths| < capacity then paths[key := path] else paths
  }

  /** The times of the applied paths after one was stored, at this reading of the clock. */
  function StampedAt(paths: map<Id, Id>, since: map<Id, int>, capacity: nat, key: Id, now: int): map<Id, int> {
    if key in paths || |paths| < capacity then since[key := now] else since
  }

  /** Storing takes effect exactly when the key is already there or there is room; the silent drop of a
      full table is the only way it fails, and other keys never change. */
  lemma StoredTakesEffect(paths: map<Id, Id>, capacity: nat, key: Id, path: Id)
    ensures var after := Stored(paths, capacity, key, path);
            && (key in after && after[key] == path <==>
                key in paths || |paths| < capacity)
            && forall k :: k != key ==> (k in after <==> k in paths) && (k in paths ==> after[k] == paths[k])
  {
  }
}
