/**
 * What the store promises about its operations, stated over the functions
 * of `Semantics`: the outcome of each operation in each case, the
 * round trips between operations, lazy expiration, and what the expiry
 * sweep does and does not change.
 */
module Properties {
  import opened Values
  import opened Semantics

  // ---------------------------------------------------------------------
  // One operation at a time

  /**
   * Set: a negative TTL is refused and nothing changes; a value the encoder
   * rejects changes nothing; otherwise the key holds a scalar with the string
   * and the TTL asked for, and no other key changes.
   */
  lemma SetOutcomes(data: Store, key: string, enc: Option<string>, ttlSeconds: int, now: Instant)
    ensures var r := SetStep(data, key, enc, ttlSeconds, now);
      && (ttlSeconds < 0 ==> r == Step(data, Err(InvalidTTL)))
      && (ttlSeconds >= 0 && enc.None? ==> r == Step(data, Err(MarshalFailed)))
      && (r.out.Err? ==> r.data == data)
      && (ttlSeconds >= 0 && enc.Some? ==>
            && r.out == Ok(())
            && key in r.data
            && !r.data[key].isList
            && r.data[key].val == enc.value
            && (ttlSeconds == 0 <==> r.data[key].ttl.None?)
            && (ttlSeconds > 0 ==> r.data[key].ttl == Some(now + ttlSeconds * NanosPerSecond))
            && r.data - {key} == data - {key})
  {
  }

  /**
   * Get: never returns an expired entry, deletes nothing but an expired
   * `key`, and reports a list as a type mismatch.
   */
  lemma GetOutcomes(data: Store, key: string, now: Instant)
    ensures var r := GetStep(data, key, now);
      && (key !in data ==> r == Step(data, Err(KeyNotFound)))
      && (key in data && ExpiredAt(data[key], now) ==> r == Step(data - {key}, Err(KeyNotFound)))
      && (key in data && !ExpiredAt(data[key], now) && data[key].isList ==> r == Step(data, Err(TypeMismatch)))
      && (r.out.Ok? <==> key in data && !ExpiredAt(data[key], now) && !data[key].isList)
      && (r.out.Ok? ==> r.data == data && r.out.value == data[key].val)
  {
  }

  /**
   * Update: a value the encoder rejects changes nothing, not even an expired
   * key; a live scalar gets the new string and keeps its TTL; every other
   * case is Get's error, with the same lazy deletion.
   */
  lemma UpdateOutcomes(data: Store, key: string, enc: Option<string>, now: Instant)
    ensures var r := UpdateStep(data, key, enc, now);
      && (enc.None? ==> r == Step(data, Err(MarshalFailed)))
      && (enc.Some? && key !in data ==> r == Step(data, Err(KeyNotFound)))
      && (enc.Some? && key in data && ExpiredAt(data[key], now) ==> r == Step(data - {key}, Err(KeyNotFound)))
      && (enc.Some? && key in data && !ExpiredAt(data[key], now) && data[key].isList ==> r == Step(data, Err(TypeMismatch)))
      && (enc.Some? ==> r.out.Err? ==> r == Step(GetStep(data, key, now).data, Err(GetStep(data, key, now).out.error)))
      && (enc.Some? && key in data && !ExpiredAt(data[key], now) && !data[key].isList ==>
            && r.out == Ok(())
            && r.data == data[key := Value(enc.value, data[key].ttl, false, data[key].list)])
  {
  }

  /** Remove: an absent key is not found and nothing changes; a present key goes, even an expired one. */
  lemma RemoveOutcomes(data: Store, key: string, now: Instant)
    ensures var r := RemoveStep(data, key);
      && (key !in data ==> r == Step(data, Err(KeyNotFound)))
      && (key in data ==> r.out == Ok(()) && key !in r.data && r.data - {key} == data - {key})
      && (key in data && ExpiredAt(data[key], now) ==> r.out == Ok(()))
  {
  }

  /**
   * Push: a value the encoder rejects changes nothing; a live scalar is a
   * type mismatch and changes nothing; an
   * absent or expired key becomes the list `[item]` with no TTL; a live list
   * gets `item` in front and keeps its TTL.
   */
  lemma PushOutcomes(data: Store, key: string, enc: Option<string>, now: Instant)
    ensures var r := PushStep(data, key, enc, now);
      && (enc.None? ==> r == Step(data, Err(MarshalFailed)))
      && (enc.Some? && key in data && !ExpiredAt(data[key], now) && !data[key].isList ==> r == Step(data, Err(TypeMismatch)))
      && (enc.Some? && (key !in data || ExpiredAt(data[key], now)) ==>
            r == Step(data[key := Value("", None, true, [enc.value])], Ok(())))
      && (enc.Some? && key in data && !ExpiredAt(data[key], now) && data[key].isList ==>
            && r.out == Ok(())
            && r.data == data[key := data[key].(list := [enc.value] + data[key].list)]
            && r.data[key].ttl == data[key].ttl
            && r.data - {key} == data - {key})
  {
  }

  /**
   * Pop checks, in order: absent, expired (deleted), scalar, empty list.
   * A scalar is a type mismatch even though its list field is empty.
   */
  lemma PopOutcomes(data: Store, key: string, now: Instant)
    ensures var r := PopStep(data, key, now);
      && (key !in data ==> r == Step(data, Err(KeyNotFound)))
      && (key in data && ExpiredAt(data[key], now) ==> r == Step(data - {key}, Err(KeyNotFound)))
      && (key in data && !ExpiredAt(data[key], now) && !data[key].isList ==> r == Step(data, Err(TypeMismatch)))
      && (key in data && !ExpiredAt(data[key], now) && data[key].isList && data[key].list == [] ==>
            r == Step(data, Err(EmptyList)))
      && (r.out.Ok? ==>
            && key in data && data[key].isList && data[key].list != []
            && r.out.value == data[key].list[0]
            && r.data == data[key := data[key].(list := data[key].list[1..])])
  {
  }

  /**
   * A value the encoder cannot render fails Set, Update and Push with
   * MarshalFailed and leaves the map untouched, whatever the key holds.
   */
  lemma MarshalFailureChangesNothing<V>(data: Store, key: string, x: V, marshal: V -> Option<string>,
                                        ttlSeconds: nat, now: Instant)
    requires marshal(x).None?
    ensures SetStep(data, key, Stringify(Other(x), marshal), ttlSeconds, now) == Step(data, Err(MarshalFailed))
    ensures UpdateStep(data, key, Stringify(Other(x), marshal), now) == Step(data, Err(MarshalFailed))
    ensures PushStep(data, key, Stringify(Other(x), marshal), now) == Step(data, Err(MarshalFailed))
  {
  }

  /** Every operation keeps every entry in the shape the store builds. */
  lemma StepsPreserveWellFormed(data: Store, key: string, enc: Option<string>, ttlSeconds: int, now: Instant)
    requires WellFormed(data)
    ensures WellFormed(SetStep(data, key, enc, ttlSeconds, now).data)
    ensures WellFormed(GetStep(data, key, now).data)
    ensures WellFormed(UpdateStep(data, key, enc, now).data)
    ensures WellFormed(RemoveStep(data, key).data)
    ensures WellFormed(PushStep(data, key, enc, now).data)
    ensures WellFormed(PopStep(data, key, now).data)
    ensures WellFormed(Sweep(data, now))
  {
  }

  /** In a well-formed store a list never expires, so Push and Pop never see an expired list. */
  lemma ListsNeverExpire(data: Store, key: string, now: Instant)
    requires WellFormed(data)
    requires key in data && data[key].isList
    ensures !ExpiredAt(data[key], now) && LiveAt(data[key], now)
  {
  }

  // ---------------------------------------------------------------------
  // Round trips

  /**
   * Set then Get: the stored string comes back while the TTL lasts, up to and
   * including the expiry instant itself; strictly after it the key is deleted
   * and not found. A TTL of 0 never runs out.
   */
  lemma SetThenGet(data: Store, key: string, s: string, ttlSeconds: nat, now: Instant, later: Instant)
    ensures var stored := SetStep(data, key, Some(s), ttlSeconds, now).data;
      var r := GetStep(stored, key, later);
      && (ttlSeconds == 0 || later <= now + ttlSeconds * NanosPerSecond ==> r == Step(stored, Ok(s)))
      && (ttlSeconds > 0 && later > now + ttlSeconds * NanosPerSecond ==>
            r == Step(data - {key}, Err(KeyNotFound)))
  {
  }

  /** Set of any string value returns it through Get unchanged. */
  lemma SetThenGetString<V>(data: Store, key: string, s: string, ttlSeconds: nat, now: Instant, marshal: V -> Option<string>)
    ensures GetStep(SetStep(data, key, Stringify(Str(s), marshal), ttlSeconds, now).data, key, now).out == Ok(s)
  {
  }

  /**
   * Update keeps the schedule Set gave: after Set with a positive TTL and an
   * Update while the key is live, the new string is readable until the
   * original expiry instant and gone after it.
   */
  lemma UpdateKeepsExpiry(data: Store, key: string, x: string, y: string, ttlSeconds: nat, now: Instant,
                          updateAt: Instant, later: Instant)
    requires ttlSeconds > 0
    requires updateAt <= now + ttlSeconds * NanosPerSecond
    ensures var stored := SetStep(data, key, Some(x), ttlSeconds, now).data;
      var upd := UpdateStep(stored, key, Some(y), updateAt);
      && upd.out == Ok(())
      && upd.data[key].ttl == stored[key].ttl
      && (later <= now + ttlSeconds * NanosPerSecond ==> GetStep(upd.data, key, later).out == Ok(y))
      && (later > now + ttlSeconds * NanosPerSecond ==> GetStep(upd.data, key, later).out == Err(KeyNotFound))
  {
  }

  /** Remove undoes a Set of a key that was absent, and Get afterwards finds nothing. */
  lemma SetThenRemove(data: Store, key: string, s: string, ttlSeconds: nat, now: Instant, later: Instant)
    requires key !in data
    ensures var removed := RemoveStep(SetStep(data, key, Some(s), ttlSeconds, now).data, key);
      && removed == Step(data, Ok(()))
      && GetStep(removed.data, key, later) == Step(data, Err(KeyNotFound))
  {
  }

  /**
   * Pop undoes Push: on any key that is not a live scalar, Pop returns the
   * item just pushed, and a live list is left exactly as it was.
   */
  lemma PushThenPop(data: Store, key: string, item: string, now: Instant)
    requires !(key in data && !ExpiredAt(data[key], now) && !data[key].isList)
    ensures var pushed := PushStep(data, key, Some(item), now).data;
      var popped := PopStep(pushed, key, now);
      && popped.out == Ok(item)
      && (key in data && !ExpiredAt(data[key], now) ==> popped.data == data)
      && (key !in data || ExpiredAt(data[key], now) ==> popped.data == data[key := FreshList])
  {
    var pushed := PushStep(data, key, Some(item), now).data;
    if key in data && !ExpiredAt(data[key], now) {
      assert ([item] + data[key].list)[1..] == data[key].list;
      assert pushed[key].(list := pushed[key].list[1..]) == data[key];
    } else {
      assert pushed[key].(list := pushed[key].list[1..]) == FreshList;
    }
  }

  // ---------------------------------------------------------------------
  // Lazy expiration

  /**
   * An expired entry behaves exactly as a deleted one for Get, Update, Pop
   * and Push, each of which removes it; and a second access still finds
   * nothing, so it cannot resurface. Only Remove tells them apart.
   */
  lemma ExpiredActsDeleted(data: Store, key: string, enc: string, now: Instant)
    requires key in data && ExpiredAt(data[key], now)
    ensures GetStep(data, key, now) == GetStep(data - {key}, key, now).(data := data - {key})
    ensures GetStep(data, key, now).out == Err(KeyNotFound)
    ensures UpdateStep(data, key, Some(enc), now) == Step(data - {key}, Err(KeyNotFound))
    ensures PopStep(data, key, now) == Step(data - {key}, Err(KeyNotFound))
    ensures PushStep(data, key, Some(enc), now) == PushStep(data - {key}, key, Some(enc), now)
    ensures GetStep(GetStep(data, key, now).data, key, now) == Step(data - {key}, Err(KeyNotFound))
    ensures RemoveStep(data, key).out == Ok(()) && RemoveStep(data - {key}, key).out == Err(KeyNotFound)
  {
  }

  // ---------------------------------------------------------------------
  // The expiry sweep

  /** One sweep keeps exactly the entries not expired at `now`, each unchanged. */
  lemma SweepKeepsLive(data: Store, now: Instant)
    ensures forall k :: k in Sweep(data, now) <==> k in data && !ExpiredAt(data[k], now)
    ensures forall k :: k in Sweep(data, now) ==> Sweep(data, now)[k] == data[k]
    ensures forall k :: k in data && data[k].ttl.None? ==> k in Sweep(data, now)
  {
  }

  /** A sweep at a later instant subsumes an earlier one; in particular sweeping twice is sweeping once. */
  lemma SweepAbsorbs(data: Store, earlier: Instant, later: Instant)
    requires earlier <= later
    ensures Sweep(Sweep(data, earlier), later) == Sweep(data, later)
  {
  }

  /**
   * The sweep cannot be observed by Get, Update, Push or Pop: running the
   * operation on the swept map gives the same outcome as on the unswept
   * one, and the same map once the latter is swept too.
   */
  lemma SweepCommutes(data: Store, key: string, enc: Option<string>, now: Instant)
    ensures var r := GetStep(data, key, now); GetStep(Sweep(data, now), key, now) == Step(Sweep(r.data, now), r.out)
    ensures var r := UpdateStep(data, key, enc, now); UpdateStep(Sweep(data, now), key, enc, now) == Step(Sweep(r.data, now), r.out)
    ensures var r := PushStep(data, key, enc, now); PushStep(Sweep(data, now), key, enc, now) == Step(Sweep(r.data, now), r.out)
    ensures var r := PopStep(data, key, now); PopStep(Sweep(data, now), key, now) == Step(Sweep(r.data, now), r.out)
  {
  }

  /** Remove is the one operation that can tell: an expired key is removed before a sweep and not found after it. */
  lemma SweepVisibleToRemove(data: Store, key: string, now: Instant)
    requires key in data && ExpiredAt(data[key], now)
    ensures RemoveStep(data, key).out == Ok(())
    ensures RemoveStep(Sweep(data, now), key).out == Err(KeyNotFound)
    ensures Sweep(RemoveStep(data, key).data, now) == RemoveStep(Sweep(data, now), key).data
  {
  }

  /** The maps left by a run of sweeps at the given instants, in order. */
  function SweepAll(data: Store, instants: seq<Instant>): Store
    decreases |instants|
  {
    if instants == [] then data else SweepAll(Sweep(data, instants[0]), instants[1..])
  }

  /** An entry without a TTL survives every run of sweeps, unchanged. */
  lemma {:induction false} NoTTLSurvivesSweeps(data: Store, key: string, instants: seq<Instant>)
    requires key in data && data[key].ttl.None?
    ensures key in SweepAll(data, instants) && SweepAll(data, instants)[key] == data[key]
    decreases |instants|
  {
    if instants != [] {
      NoTTLSurvivesSweeps(Sweep(data, instants[0]), key, instants[1..]);
    }
  }

  /** A string set with TTL 0 is still there, and still readable, after any number of sweeps at any instants. */
  lemma {:induction false} ZeroTTLIsImmortal(data: Store, key: string, s: string, now: Instant,
                                             instants: seq<Instant>, later: Instant)
    ensures var stored := SetStep(data, key, Some(s), 0, now).data;
      GetStep(SweepAll(stored, instants), key, later).out == Ok(s)
  {
    var stored := SetStep(data, key, Some(s), 0, now).data;
    NoTTLSurvivesSweeps(stored, key, instants);
  }

  // ---------------------------------------------------------------------
  // The TTL overflow in Set

  /**
   * Set as written with a TTL of `MaxExactTTLSeconds + 1` seconds reports
   * success, yet the very next Get at the same instant deletes the key and
   * reports it not found. The corrected Set keeps it (`SetThenGet`).
   */
  lemma OverflowedSetIsLostAtOnce(data: Store, key: string, s: string, now: Instant)
    ensures var stored := SetStepAsWritten(data, key, Some(s), MaxExactTTLSeconds + 1, now);
      && stored.out == Ok(())
      && GetStep(stored.data, key, now) == Step(data - {key}, Err(KeyNotFound))
    ensures GetStep(SetStep(data, key, Some(s), MaxExactTTLSeconds + 1, now).data, key, now).out == Ok(s)
  {
  }
}
