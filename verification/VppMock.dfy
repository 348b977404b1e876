/** The in-memory forwarding backend (src/vpp_adapter_mock.c): two parallel fixed arrays with a count,
    overwritten in place and closed up by a shift on removal. The ghost `active` is the finite map the
    arrays implement. */
module VppMockAdapter {
  import opened Model
  import opened Tables

  class VppMock {
    const capacity: nat
    const trafficKeys: array<Id>
    const activePaths: array<Id>
    var count: nat
    var failNextUpdate: bool
    var installCount: nat
    var removeCount: nat
    ghost var active: map<Id, Id>

    ghost predicate Valid()
      reads this, trafficKeys, activePaths
    {
      && trafficKeys != activePaths
      && trafficKeys.Length == activePaths.Length == capacity
      && count <= capacity
      && Represents(trafficKeys[..count], activePaths[..count], active)
    }

    constructor (capacity: nat)
      ensures Valid() && this.capacity == capacity
      ensures active == map[] && !failNextUpdate
      ensures fresh(trafficKeys) && fresh(activePaths)
    {
      this.capacity := capacity;
      trafficKeys := new Id[capacity];
      activePaths := new Id[capacity];
      count, failNextUpdate, installCount, removeCount := 0, false, 0, 0;
      active := map[];
    }

    method FindKey(key: Id) returns (i: nat)
      requires Valid()
      ensures i <= count
      ensures i < count ==> trafficKeys[i] == key && key in active && active[key] == activePaths[i]
      ensures i == count ==> key !in active
    {
      i := 0;
      while i < count
        invariant i <= count
        invariant key !in trafficKeys[..i]
      {
        if trafficKeys[i] == key {
          assert trafficKeys[..count][i] == key && activePaths[..count][i] == activePaths[i];
          return;
        }
        i := i + 1;
      }
    }

    /** Fails once when told to, and when a new key finds the table full; otherwise the key is served by
        the given path. A failure leaves the table as it was. */
    method InstallPath(key: Id, path: Id) returns (err: ErrorCode)
      requires Valid()
      modifies this, trafficKeys, activePaths
      ensures Valid()
      ensures !failNextUpdate
      ensures err == (if old(failNextUpdate) then ErrForwardingUpdateFailed
                      else if key in old(active) || |old(active)| < capacity then ErrNone
                      else ErrInvalidArgument)
      ensures active == if err == ErrNone then old(active)[key := path] else old(active)
      ensures installCount == old(installCount) + (if old(failNextUpdate) then 0 else 1)
      ensures removeCount == old(removeCount)
    {
      if failNextUpdate {
        failNextUpdate := false;
        return ErrForwardingUpdateFailed;
      }
      installCount := installCount + 1;
      var i := FindKey(key);
      if i < count {
        Overwrite(i, path);
        return ErrNone;
      }
      if count >= capacity { return ErrInvalidArgument; }
      Append(key, path);
      err := ErrNone;
    }

    method Overwrite(i: nat, path: Id)
      requires Valid() && i < count
      modifies this`active, activePaths
      ensures Valid()
      ensures active == old(active)[trafficKeys[i] := path]
    {
      ghost var keys, paths := trafficKeys[..count], activePaths[..count];
      activePaths[i] := path;
      RepresentsUpdate(keys, paths, active, i, path);
      assert trafficKeys[..count] == keys && activePaths[..count] == paths[i := path];
      active := active[trafficKeys[i] := path];
    }

    method Append(key: Id, path: Id)
      requires Valid() && count < capacity && key !in active
      modifies this`active, this`count, trafficKeys, activePaths
      ensures Valid()
      ensures active == old(active)[key := path]
    {
      ghost var keys, paths := trafficKeys[..count], activePaths[..count];
      trafficKeys[count] := key;
      activePaths[count] := path;
      count := count + 1;
      RepresentsAppend(keys, paths, active, key, path);
      assert trafficKeys[..count] == keys + [key] && activePaths[..count] == paths + [path];
      active := active[key := path];
    }

    /** Withdraws the key if, and only if, the given path serves it. Never fails. */
    method RemovePath(key: Id, path: Id) returns (err: ErrorCode)
      requires Valid()
      modifies this, trafficKeys, activePaths
      ensures Valid()
      ensures err == ErrNone
      ensures active == if key in old(active) && old(active)[key] == path then old(active) - {key} else old(active)
      ensures failNextUpdate == old(failNextUpdate)
      ensures installCount == old(installCount) && removeCount == old(removeCount) + 1
    {
      removeCount := removeCount + 1;
      err := ErrNone;
      var i := FindKey(key);
      if i < count && activePaths[i] == path {
        Delete(i);
      }
    }

    method Delete(i: nat)
      requires Valid() && i < count
      modifies this`active, this`count, trafficKeys, activePaths
      ensures Valid()
      ensures active == old(active) - {old(trafficKeys[i])}
    {
      ghost var keys, paths := trafficKeys[..count], activePaths[..count];
      CloseGap(i);
      RepresentsRemove(keys, paths, active, i);
      active := active - {keys[i]};
    }

    /** Shifts the entries after position `i` down by one. */
    method CloseGap(i: nat)
      requires trafficKeys != activePaths && trafficKeys.Length == activePaths.Length
      requires i < count <= trafficKeys.Length
      modifies this`count, trafficKeys, activePaths
      ensures count == old(count) - 1
      ensures trafficKeys[..count] == Without(old(trafficKeys[..count]), i)
      ensures activePaths[..count] == Without(old(activePaths[..count]), i)
    {
      ghost var keys, paths := trafficKeys[..count], activePaths[..count];
      var j := i + 1;
      while j < count
        invariant i + 1 <= j <= count == old(count)
        invariant forall k :: 0 <= k < i || j <= k < count ==> trafficKeys[k] == keys[k] && activePaths[k] == paths[k]
        invariant forall k :: i <= k < j - 1 ==> trafficKeys[k] == keys[k + 1] && activePaths[k] == paths[k + 1]
      {
        trafficKeys[j - 1] := trafficKeys[j];
        activePaths[j - 1] := activePaths[j];
        j := j + 1;
      }
      count := count - 1;
    }

    method ActivePath(key: Id) returns (path: Option<Id>)
      requires Valid()
      ensures path == if key in active then Some(active[key]) else None
    {
      var i := FindKey(key);
      return if i < count then Some(activePaths[i]) else None;
    }
  }
}
