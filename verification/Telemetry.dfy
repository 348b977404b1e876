/** The telemetry store behind the health probe (src/health_probe.c): one record per path, into which
    later records are merged in place. */
module Telemetry {
  import opened Model

  /** The record carries a route or an interface observation. */
  predicate Bearing(r: PathHealth) { r.routeState.Some? || r.interfaceState.Some? }

  /** A record is stale if it is older, or as old but earlier in the numbering of the same source. */
  predicate Stale(current: PathHealth, r: PathHealth) {
    || r.lastUpdatedMs < current.lastUpdatedMs
    || (&& r.lastUpdatedMs == current.lastUpdatedMs
        && r.sequence > 0 && current.sequence > 0
        && r.sourceNode != "" && r.sourceNode == current.sourceNode
        && r.sequence < current.sequence)
  }

  /** What the stored record becomes. */
  function Merged(current: PathHealth, r: PathHealth): PathHealth {
    if Stale(current, r) then current
    else if Bearing(r) then
      var route := if r.routeState.Some? then r.routeState else current.routeState;
      var iface := if r.interfaceState.Some? then r.interfaceState else current.interfaceState;
      var observed := if r.observedDestinationPrefix != "" then r else current;
      var failed := route == Some(HealthFailed) || iface == Some(HealthFailed);
      current.(routeState := route,
               interfaceState := iface,
               observedInterfaceName := if r.interfaceState.Some? then r.observedInterfaceName else current.observedInterfaceName,
               observedDestinationPrefix := observed.observedDestinationPrefix,
               observedNextHop := observed.observedNextHop,
               tableId := observed.tableId,
               state := if failed then HealthFailed else HealthHealthy,
               packetLossPercent := if failed then 100.0 else 0.0,
               lastUpdatedMs := r.lastUpdatedMs)
    else
      r.(pathId := current.pathId,
         routeState := current.routeState,
         interfaceState := current.interfaceState,
         tableId := current.tableId,
         observedDestinationPrefix := current.observedDestinationPrefix,
         observedNextHop := current.observedNextHop,
         observedInterfaceName := current.observedInterfaceName)
  }

  predicate UniquePaths(records: seq<PathHealth>) {
    forall i, j :: 0 <= i < j < |records| ==> records[i].pathId != records[j].pathId
  }

  /** The stored record of a path, if any. */
  function Entry(records: seq<PathHealth>, id: Id): (e: Option<PathHealth>)
    ensures e.Some? ==> e.value in records && e.value.pathId == id
    ensures e.None? <==> forall r :: r in records ==> r.pathId != id
  {
    if |records| == 0 then None
    else if records[0].pathId == id then Some(records[0])
    else Entry(records[1..], id)
  }

  /** What one record makes of the entry of its path: merged, or stored while there is room. */
  function EntryAfter(e: Option<PathHealth>, r: PathHealth, room: bool): Option<PathHealth> {
    if e.Some? then Some(Merged(e.value, r)) else if room then Some(r) else None
  }

  class Store {
    var overrides: seq<PathHealth>

    ghost predicate Valid()
      reads this
    {
      |overrides| <= MAX_PATHS && UniquePaths(overrides)
    }

    constructor ()
      ensures Valid() && overrides == []
    {
      overrides := [];
    }

    /** Merges the record into the entry of its path, or appends it; every other entry stays. */
    method Set(r: PathHealth)
      requires Valid()
      modifies this
      ensures Valid()
      ensures Entry(overrides, r.pathId) == EntryAfter(Entry(old(overrides), r.pathId), r, |old(overrides)| < MAX_PATHS)
      ensures forall id :: id != r.pathId ==> Entry(overrides, id) == Entry(old(overrides), id)
      ensures |old(overrides)| <= |overrides| <= |old(overrides)| + 1
    {
      for i := 0 to |overrides|
        invariant forall j :: 0 <= j < i ==> overrides[j].pathId != r.pathId
        invariant overrides == old(overrides)
      {
        if overrides[i].pathId == r.pathId {
          forall id ensures Entry(overrides[i := Merged(overrides[i], r)], id) ==
                            if id == r.pathId then Some(Merged(overrides[i], r)) else Entry(overrides, id)
          {
            EntryUpdate(overrides, i, Merged(overrides[i], r), id);
          }
          EntryAt(overrides, i);
          overrides := overrides[i := Merged(overrides[i], r)];
          return;
        }
      }
      assert Entry(overrides, r.pathId).None?;
      if |overrides| < MAX_PATHS {
        forall id ensures Entry(overrides + [r], id) == if id == r.pathId then Some(r) else Entry(overrides, id) {
          EntryAppend(overrides, r, id);
        }
        overrides := overrides + [r];
      }
    }
  }

  lemma {:induction false} EntryAt(records: seq<PathHealth>, i: nat)
    requires i < |records| && forall j :: 0 <= j < i ==> records[j].pathId != records[i].pathId
    ensures Entry(records, records[i].pathId) == Some(records[i])
  {
    if i > 0 { EntryAt(records[1..], i - 1); }
  }

  lemma {:induction false} EntryUpdate(records: seq<PathHealth>, i: nat, x: PathHealth, id: Id)
    requires i < |records| && x.pathId == records[i].pathId
    requires forall j :: 0 <= j < i ==> records[j].pathId != x.pathId
    ensures Entry(records[i := x], id) == if id == x.pathId then Some(x) else Entry(records, id)
  {
    if i > 0 {
      EntryUpdate(records[1..], i - 1, x, id);
      assert records[i := x][1..] == records[1..][i - 1 := x];
    }
  }

  lemma {:induction false} EntryAppend(records: seq<PathHealth>, x: PathHealth, id: Id)
    requires Entry(records, x.pathId).None?
    ensures Entry(records + [x], id) == if id == x.pathId then Some(x) else Entry(records, id)
  {
    if |records| > 0 {
      EntryAppend(records[1..], x, id);
      assert (records + [x])[1..] == records[1..] + [x];
    } else {
      assert ([x])[1..] == [];
    }
  }

  // ----- any sequence of records -----

  /** The entry after a sequence of records of its path. */
  function Fold(e: PathHealth, rs: seq<PathHealth>): PathHealth {
    if |rs| == 0 then e else Merged(Fold(e, rs[..|rs| - 1]), rs[|rs| - 1])
  }

  /** The record first stored and, of those that followed, the ones that were not stale when they came. */
  function Accepted(e: PathHealth, rs: seq<PathHealth>): (a: seq<PathHealth>)
    ensures |a| > 0
  {
    if |rs| == 0 then [e]
    else
      var before, last := Accepted(e, rs[..|rs| - 1]), rs[|rs| - 1];
      if Stale(Fold(e, rs[..|rs| - 1]), last) then before else before + [last]
  }

  /** The newest time stamp among the first record and all that followed, accepted or not. */
  function Newest(e: PathHealth, rs: seq<PathHealth>): (t: int)
    ensures t >= e.lastUpdatedMs && forall i :: 0 <= i < |rs| ==> t >= rs[i].lastUpdatedMs
    ensures t == e.lastUpdatedMs || exists i :: 0 <= i < |rs| && t == rs[i].lastUpdatedMs
  {
    if |rs| == 0 then e.lastUpdatedMs
    else
      var before, last := Newest(e, rs[..|rs| - 1]), rs[|rs| - 1].lastUpdatedMs;
      if last > before then last else before
  }

  /** The route state that the last record bearing one reported. */
  function LastRoute(rs: seq<PathHealth>): Option<HealthState> {
    if |rs| == 0 then None
    else if rs[|rs| - 1].routeState.Some? then rs[|rs| - 1].routeState
    else LastRoute(rs[..|rs| - 1])
  }

  /** The interface state and name that the last record bearing them reported. */
  function LastInterface(rs: seq<PathHealth>): Option<(HealthState, Id)> {
    if |rs| == 0 then None
    else
      var last := rs[|rs| - 1];
      if last.interfaceState.Some? then Some((last.interfaceState.value, last.observedInterfaceName))
      else LastInterface(rs[..|rs| - 1])
  }

  /** The route, next hop and table of the last observation that named a prefix, starting from the first
      record. */
  function LastRouteEntry(rs: seq<PathHealth>): (Id, Id, Option<int>)
    requires |rs| > 0
  {
    var last := rs[|rs| - 1];
    if |rs| == 1 || (Bearing(last) && last.observedDestinationPrefix != "") then
      (last.observedDestinationPrefix, last.observedNextHop, last.tableId)
    else LastRouteEntry(rs[..|rs| - 1])
  }

  /** The merge is a fold: the stored time stamp is the newest offered, and each observation is that of the
      last accepted record bearing it, so none is ever lost. */
  lemma {:induction false} MergeIsFold(e: PathHealth, rs: seq<PathHealth>)
    ensures Fold(e, rs).lastUpdatedMs == Newest(e, rs)
    ensures Fold(e, rs).pathId == e.pathId
    ensures Fold(e, rs).routeState == LastRoute(Accepted(e, rs))
    ensures Fold(e, rs).interfaceState.Some? <==> LastInterface(Accepted(e, rs)).Some?
    ensures LastInterface(Accepted(e, rs)).Some? ==>
              LastInterface(Accepted(e, rs)).value == (Fold(e, rs).interfaceState.value, Fold(e, rs).observedInterfaceName)
    ensures var f := Fold(e, rs);
            LastRouteEntry(Accepted(e, rs)) == (f.observedDestinationPrefix, f.observedNextHop, f.tableId)
  {
    if |rs| == 0 {
      assert [e][..0] == [];
    } else {
      var n := |rs| - 1;
      MergeIsFold(e, rs[..n]);
      var before := Accepted(e, rs[..n]);
      if !Stale(Fold(e, rs[..n]), rs[n]) { assert (before + [rs[n]])[..|before|] == before; }
    }
  }

  /** The latest of these records that bears no observation, or else the first of all. */
  ghost predicate IsLatestMeasurement(rs: seq<PathHealth>, k: nat) {
    k < |rs| && (k == 0 || !Bearing(rs[k])) && forall j :: k < j < |rs| ==> Bearing(rs[j])
  }

  /** What was measured is that of the latest accepted record that bears no observation: round-trip time,
      jitter, streaks, source and numbering. Observations do not touch it. State and loss are those of such a
      record too, if no observation was accepted after it. */
  lemma {:induction false} MeasurementsAreLatest(e: PathHealth, rs: seq<PathHealth>) returns (k: nat)
    ensures IsLatestMeasurement(Accepted(e, rs), k)
    ensures var f, m := Fold(e, rs), Accepted(e, rs)[k];
            && f.rttMs == m.rttMs && f.jitterMs == m.jitterMs && f.sourceNode == m.sourceNode && f.sequence == m.sequence
            && f.consecutiveFailures == m.consecutiveFailures && f.consecutiveSuccesses == m.consecutiveSuccesses
            && (k == |Accepted(e, rs)| - 1 ==> f.state == m.state && f.packetLossPercent == m.packetLossPercent)
  {
    if |rs| == 0 {
      k := 0;
    } else {
      var n := |rs| - 1;
      k := MeasurementsAreLatest(e, rs[..n]);
      if !Stale(Fold(e, rs[..n]), rs[n]) && !Bearing(rs[n]) { k := |Accepted(e, rs)| - 1; }
    }
  }

  /** A record is turned away exactly if it is older than anything offered so far, or as old as the newest but
      earlier in the numbering of the source that measured last. */
  lemma StaleExactly(e: PathHealth, rs: seq<PathHealth>, r: PathHealth, k: nat)
    requires IsLatestMeasurement(Accepted(e, rs), k)
    ensures var m := Accepted(e, rs)[k];
            Stale(Fold(e, rs), r) <==>
              || r.lastUpdatedMs < Newest(e, rs)
              || (r.lastUpdatedMs == Newest(e, rs) && 0 < r.sequence < m.sequence && r.sourceNode == m.sourceNode != "")
  {
    var j := MeasurementsAreLatest(e, rs);
    MergeIsFold(e, rs);
    assert j == k;
  }

  /** After any sequence whose last accepted record bears an observation, the combined state is failed exactly
      if the last route or the last interface observation accepted is, and healthy otherwise; the reported
      loss says the same. */
  lemma {:induction false} ObservationDecidesState(e: PathHealth, rs: seq<PathHealth>)
    requires var a := Accepted(e, rs); |a| > 1 && Bearing(a[|a| - 1])
    ensures var a, f := Accepted(e, rs), Fold(e, rs);
            && (f.state == HealthFailed <==>
                  LastRoute(a) == Some(HealthFailed) || (LastInterface(a).Some? && LastInterface(a).value.0 == HealthFailed))
            && f.state in {HealthFailed, HealthHealthy}
            && (f.packetLossPercent == 100.0 <==> f.state == HealthFailed)
  {
    var n := |rs| - 1;
    if Stale(Fold(e, rs[..n]), rs[n]) {
      ObservationDecidesState(e, rs[..n]);
    } else {
      MergeIsFold(e, rs);
    }
  }

  /** What any sequence of records makes of the entry of a path: its entry before, or the first record that
      comes while there is none, with all later records of the path folded in. */
  function EntryFed(e: Option<PathHealth>, rs: seq<PathHealth>): Option<PathHealth> {
    if e.Some? then Some(Fold(e.value, rs)) else if |rs| == 0 then None else Some(Fold(rs[0], rs[1..]))
  }

  /** Any sequence of records, in one store. A path that had no entry may stay without one only if the store
      is full. */
  method Feed(store: Store, rs: seq<PathHealth>)
    requires store.Valid()
    modifies store
    ensures store.Valid()
    ensures forall id :: Entry(store.overrides, id) == EntryFed(Entry(old(store.overrides), id), Of(rs, id))
                         || (Entry(old(store.overrides), id).None? && Entry(store.overrides, id).None? && |store.overrides| == MAX_PATHS)
  {
    hide Merged, Entry, Fold;
    ghost var start := store.overrides;
    forall id ensures EntryFed(Entry(start, id), []) == Entry(start, id) { FedNothing(Entry(start, id)); }
    for i := 0 to |rs|
      invariant store.Valid()
      invariant forall id :: Entry(store.overrides, id) == EntryFed(Entry(start, id), Of(rs[..i], id))
                             || (Entry(start, id).None? && Entry(store.overrides, id).None? && |store.overrides| == MAX_PATHS)
    {
      var r := rs[i];
      ghost var full := |store.overrides| == MAX_PATHS;
      ghost var before := Entry(store.overrides, r.pathId);
      forall id ensures Of(rs[..i + 1], id) == if r.pathId == id then Of(rs[..i], id) + [r] else Of(rs[..i], id) {
        assert rs[..i + 1][..i] == rs[..i];
      }
      FedStep(Entry(start, r.pathId), Of(rs[..i], r.pathId), r);
      store.Set(r);
    }
    assert rs[..|rs|] == rs;
  }

  lemma FedNothing(e: Option<PathHealth>)
    ensures EntryFed(e, []) == e
  {
  }

  /** One record more. */
  lemma FedStep(e: Option<PathHealth>, rs: seq<PathHealth>, r: PathHealth)
    ensures EntryFed(e, rs + [r]) ==
            if EntryFed(e, rs).Some? then Some(Merged(EntryFed(e, rs).value, r)) else Some(r)
  {
    if e.Some? {
      FoldStep(e.value, rs, r);
    } else if |rs| > 0 {
      assert (rs + [r])[1..] == rs[1..] + [r];
      FoldStep(rs[0], rs[1..], r);
    } else {
      assert ([] + [r])[1..] == [];
    }
  }

  lemma FoldStep(e: PathHealth, rs: seq<PathHealth>, r: PathHealth)
    ensures Fold(e, rs + [r]) == Merged(Fold(e, rs), r)
  {
    assert (rs + [r])[..|rs|] == rs;
  }

  /** The records of one path, in order. */
  function Of(rs: seq<PathHealth>, id: Id): seq<PathHealth> {
    if |rs| == 0 then []
    else
      var before, last := Of(rs[..|rs| - 1], id), rs[|rs| - 1];
      if last.pathId == id then before + [last] else before
  }

  // ----- loading -----

  /** The record stored for a path before anything is known of it. */
  function Unknown(id: Id): PathHealth {
    PathHealth(id, "", 0, HealthFailed, 0.0, 100.0, 0.0, 0, 0, None, "", "", "", None, None, 0)
  }

  /** `set_unknown_health`: a store in which every path has failed, as long as nothing else is known. */
  method SeedUnknown(ids: seq<Id>) returns (store: Store)
    requires |ids| <= MAX_PATHS
    ensures fresh(store) && store.Valid()
    ensures forall id :: Entry(store.overrides, id) == if id in ids then Some(Unknown(id)) else None
  {
    hide Merged, Entry;
    store := new Store();
    EmptyStore();
    for i := 0 to |ids|
      invariant store.Valid() && |store.overrides| <= i
      invariant forall id :: Entry(store.overrides, id) == if id in ids[..i] then Some(Unknown(id)) else None
    {
      UnknownAgain(ids[i]);
      store.Set(Unknown(ids[i]));
    }
    assert ids[..|ids|] == ids;
  }

  lemma EmptyStore()
    ensures forall id :: Entry([], id) == None
  {
  }

  lemma UnknownAgain(id: Id)
    ensures Merged(Unknown(id), Unknown(id)) == Unknown(id)
  {
  }

  /** `load_health`: every path unknown, and then the records that passed its identity and age checks, in order. */
  method LoadHealth(ids: seq<Id>, rs: seq<PathHealth>) returns (store: Store)
    requires |ids| <= MAX_PATHS
    ensures fresh(store) && store.Valid()
    ensures forall id :: id in ids ==> Entry(store.overrides, id) == Some(Fold(Unknown(id), Of(rs, id)))
  {
    hide Entry, Fold;
    store := SeedUnknown(ids);
    Feed(store, rs);
  }
}
