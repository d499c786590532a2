/**
 * The store object: one map updated in place by every operation, and the
 * handle of the background expiry worker. Each method follows the source's
 * branches step by step and is proved to leave exactly the map, and return
 * exactly the outcome, that the matching function of `Semantics` describes.
 */
module Memory {
  import opened Values
  import opened Semantics

  class MemoryStore {
    /** The key/value map. */
    var data: Store
    /**
     * The worker's cancellation handle: `Some(g)` while the sweep started as
     * generation `g` runs, `None` once it has been stopped.
     */
    var ttlCancel: Option<nat>
    /** The generation the next started worker receives. */
    var nextGeneration: nat

    ghost predicate Valid()
      reads this
    {
      && WellFormed(data)
      && (ttlCancel.Some? ==> ttlCancel.value < nextGeneration)
    }

    /** A new store is empty and starts its expiry worker. */
    constructor ()
      ensures Valid()
      ensures data == map[]
      ensures ttlCancel == Some(0) && nextGeneration == 1
    {
      data := map[];
      ttlCancel := Some(0);
      nextGeneration := 1;
    }

    /**
     * Starts the worker, cancelling one that runs: the handle is replaced by
     * one no earlier worker had. The map is untouched.
     */
    method StartTTLWorker()
      requires Valid()
      modifies this`ttlCancel, this`nextGeneration
      ensures Valid()
      ensures ttlCancel == Some(old(nextGeneration))
      ensures old(ttlCancel).Some? ==> ttlCancel != old(ttlCancel)
      ensures nextGeneration == old(nextGeneration) + 1
    {
      ttlCancel := Some(nextGeneration);
      nextGeneration := nextGeneration + 1;
    }

    /** Stops the worker; stopping a stopped worker changes nothing. */
    method StopTTLWorker()
      requires Valid()
      modifies this`ttlCancel
      ensures Valid()
      ensures ttlCancel == None
    {
      if ttlCancel.Some? {
        ttlCancel := None;
      }
    }

    method Set<V>(key: string, value: Any<V>, ttlSeconds: int, now: Instant, marshal: V -> Option<string>)
      returns (r: Result<()>)
      requires Valid()
      modifies this`data
      ensures Valid()
      ensures Step(data, r) == SetStep(old(data), key, Stringify(value, marshal), ttlSeconds, now)
    {
      if ttlSeconds < 0 {
        return Err(InvalidTTL);
      }
      var stringValue := Stringify(value, marshal);
      if stringValue.None? {
        return Err(MarshalFailed);
      }
      var ttl: Option<Instant> := None;
      if ttlSeconds > 0 {
        ttl := Some(ExpiryFor(now, ttlSeconds));
      }
      data := data[key := Value(stringValue.value, ttl, false, [])];
      return Ok(());
    }

    /**
     * Get, with the source's two phases: a read that returns at once when the
     * entry is live by the fast-path test, and otherwise a second read that
     * deletes the entry only if it is expired by the deleting test.
     */
    method Get(key: string, now: Instant) returns (r: Result<string>)
      requires Valid()
      modifies this`data
      ensures Valid()
      ensures Step(data, r) == GetStep(old(data), key, now)
    {
      if key !in data {
        return Err(KeyNotFound);
      }
      var v := data[key];
      if LiveAt(v, now) {
        if v.isList {
          return Err(TypeMismatch);
        }
        return Ok(v.val);
      }
      // The slow path re-reads the entry; in this sequential model nothing
      // can have changed it in between.
      v := data[key];
      if ExpiredAt(v, now) {
        data := data - {key};
        return Err(KeyNotFound);
      }
      if v.isList {
        return Err(TypeMismatch);
      }
      return Ok(v.val);
    }

    method Update<V>(key: string, value: Any<V>, now: Instant, marshal: V -> Option<string>)
      returns (r: Result<()>)
      requires Valid()
      modifies this`data
      ensures Valid()
      ensures Step(data, r) == UpdateStep(old(data), key, Stringify(value, marshal), now)
    {
      var stringValue := Stringify(value, marshal);
      if stringValue.None? {
        return Err(MarshalFailed);
      }
      if key !in data {
        return Err(KeyNotFound);
      }
      var v := data[key];
      if ExpiredAt(v, now) {
        data := data - {key};
        return Err(KeyNotFound);
      }
      if v.isList {
        return Err(TypeMismatch);
      }
      v := v.(val := stringValue.value);
      data := data[key := v];
      return Ok(());
    }

    method Remove(key: string) returns (r: Result<()>)
      requires Valid()
      modifies this`data
      ensures Valid()
      ensures Step(data, r) == RemoveStep(old(data), key)
    {
      if key !in data {
        return Err(KeyNotFound);
      }
      data := data - {key};
      return Ok(());
    }

    /**
     * Push, following the source: the entry read for an absent key is the
     * zero record; an absent or expired key is replaced by an empty list
     * (an expired entry is deleted first), then the kind is checked and the
     * item goes in front.
     */
    method Push<V>(key: string, item: Any<V>, now: Instant, marshal: V -> Option<string>)
      returns (r: Result<()>)
      requires Valid()
      modifies this`data
      ensures Valid()
      ensures Step(data, r) == PushStep(old(data), key, Stringify(item, marshal), now)
    {
      var stringItem := Stringify(item, marshal);
      if stringItem.None? {
        return Err(MarshalFailed);
      }
      var v := if key in data then data[key] else ZeroValue;
      if key !in data || ExpiredAt(v, now) {
        if key in data && ExpiredAt(v, now) {
          data := data - {key};
        }
        v := FreshList;
        assert [stringItem.value] + v.list == [stringItem.value];
      }
      if !v.isList {
        return Err(TypeMismatch);
      }
      v := v.(list := [stringItem.value] + v.list);
      data := data[key := v];
      return Ok(());
    }

    method Pop(key: string, now: Instant) returns (r: Result<string>)
      requires Valid()
      modifies this`data
      ensures Valid()
      ensures Step(data, r) == PopStep(old(data), key, now)
    {
      if key !in data {
        return Err(KeyNotFound);
      }
      var v := data[key];
      if ExpiredAt(v, now) {
        data := data - {key};
        return Err(KeyNotFound);
      }
      if !v.isList {
        return Err(TypeMismatch);
      }
      if |v.list| == 0 {
        return Err(EmptyList);
      }
      var item := v.list[0];
      v := v.(list := v.list[1..]);
      data := data[key := v];
      return Ok(item);
    }

    /**
     * One pass of the worker's sweep: walks the keys and deletes each expired
     * entry as it goes, ending with exactly the entries `Sweep` keeps.
     */
    method SweepExpired(now: Instant)
      requires Valid()
      modifies this`data
      ensures Valid()
      ensures data == Sweep(old(data), now)
    {
      var pending := data.Keys;
      while pending != {}
        invariant pending <= old(data).Keys
        invariant forall k :: k in data <==> k in old(data) && (k in pending || !ExpiredAt(old(data)[k], now))
        invariant forall k :: k in data ==> data[k] == old(data)[k]
        decreases pending
      {
        var k :| k in pending;
        if ExpiredAt(data[k], now) {
          data := data - {k};
        }
        pending := pending - {k};
      }
      assert data.Keys == Sweep(old(data), now).Keys;
    }

    /**
     * One tick of the worker's timer: a running worker sweeps the map, a
     * stopped one does nothing.
     */
    method Tick(now: Instant)
      requires Valid()
      modifies this`data
      ensures Valid()
      ensures data == if ttlCancel.Some? then Sweep(old(data), now) else old(data)
    {
      if ttlCancel.Some? {
        SweepExpired(now);
      }
    }
  }
}
