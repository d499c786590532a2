/**
 * The store's operations as pure functions from the key/value map before
 * the call to the map after it and the call's outcome. Each one is the
 * specification that the corresponding method of `Memory.MemoryStore`
 * is proved to implement; the properties of these functions are proved in
 * the modules `Properties` and `Stack`.
 */
module Semantics {
  import opened Values

  /** The store's whole state: the map from keys to entries. */
  type Store = map<string, Value>

  /** The map after an operation, and what the operation returned. */
  datatype Step<T> = Step(data: Store, out: Result<T>)

  /** The scalar entry Set installs: a TTL of 0 leaves the zero time, a positive one an expiry instant. */
  function ScalarEntry(s: string, ttlSeconds: nat, now: Instant): Value {
    Value(s, if ttlSeconds > 0 then Some(ExpiryFor(now, ttlSeconds)) else None, false, [])
  }

  /**
   * Set: a negative TTL is refused, then a value the serializer rejects;
   * otherwise the key gets a fresh scalar entry, whatever it held before.
   */
  function SetStep(data: Store, key: string, enc: Option<string>, ttlSeconds: int, now: Instant): Step<()> {
    if ttlSeconds < 0 then Step(data, Err(InvalidTTL))
    else if enc.None? then Step(data, Err(MarshalFailed))
    else Step(data[key := ScalarEntry(enc.value, ttlSeconds, now)], Ok(()))
  }

  /**
   * Set exactly as written, with the expiry computed from the int64 duration
   * that wraps for TTLs of more than `MaxExactTTLSeconds` seconds.
   */
  function SetStepAsWritten(data: Store, key: string, enc: Option<string>, ttlSeconds: int, now: Instant): (r: Step<()>)
    ensures 0 <= ttlSeconds <= MaxExactTTLSeconds ==> r == SetStep(data, key, enc, ttlSeconds, now)
  {
    if ttlSeconds < 0 then Step(data, Err(InvalidTTL))
    else if enc.None? then Step(data, Err(MarshalFailed))
    else
      var ttl := if ttlSeconds > 0 then Some(ExpiryAsWritten(now, ttlSeconds)) else None;
      Step(data[key := Value(enc.value, ttl, false, [])], Ok(()))
  }

  /**
   * Get: an absent key is not found; an expired one is deleted and not found;
   * a list is a type mismatch; a scalar yields its string.
   */
  function GetStep(data: Store, key: string, now: Instant): Step<string> {
    if key !in data then Step(data, Err(KeyNotFound))
    else if ExpiredAt(data[key], now) then Step(data - {key}, Err(KeyNotFound))
    else if data[key].isList then Step(data, Err(TypeMismatch))
    else Step(data, Ok(data[key].val))
  }

  /**
   * Update: the value is serialized before the key is looked at; then as Get,
   * except that a live scalar has its string replaced and keeps its TTL.
   */
  function UpdateStep(data: Store, key: string, enc: Option<string>, now: Instant): Step<()> {
    if enc.None? then Step(data, Err(MarshalFailed))
    else if key !in data then Step(data, Err(KeyNotFound))
    else if ExpiredAt(data[key], now) then Step(data - {key}, Err(KeyNotFound))
    else if data[key].isList then Step(data, Err(TypeMismatch))
    else Step(data[key := data[key].(val := enc.value)], Ok(()))
  }

  /** Remove: deletes a present key, expired or not; an absent key is not found. */
  function RemoveStep(data: Store, key: string): Step<()> {
    if key !in data then Step(data, Err(KeyNotFound))
    else Step(data - {key}, Ok(()))
  }

  /**
   * Push: after serialization, an absent or expired key gets a fresh list
   * holding only the item; a live scalar is a type mismatch; a live list
   * gets the item in front and keeps its TTL.
   */
  function PushStep(data: Store, key: string, enc: Option<string>, now: Instant): Step<()> {
    if enc.None? then Step(data, Err(MarshalFailed))
    else if key !in data || ExpiredAt(data[key], now) then
      Step(data[key := FreshList.(list := [enc.value])], Ok(()))
    else if !data[key].isList then Step(data, Err(TypeMismatch))
    else Step(data[key := data[key].(list := [enc.value] + data[key].list)], Ok(()))
  }

  /**
   * Pop: an absent key is not found; an expired one is deleted and not found;
   * a scalar is a type mismatch before an empty list is reported; otherwise
   * the front item is returned and the rest of the list stays.
   */
  function PopStep(data: Store, key: string, now: Instant): Step<string> {
    if key !in data then Step(data, Err(KeyNotFound))
    else if ExpiredAt(data[key], now) then Step(data - {key}, Err(KeyNotFound))
    else if !data[key].isList then Step(data, Err(TypeMismatch))
    else if |data[key].list| == 0 then Step(data, Err(EmptyList))
    else Step(data[key := data[key].(list := data[key].list[1..])], Ok(data[key].list[0]))
  }

  /** One pass of the expiry sweep: the map restricted to the entries not expired at `now`. */
  function Sweep(data: Store, now: Instant): Store {
    map k | k in data && !ExpiredAt(data[k], now) :: data[k]
  }

  /**
   * The shape every entry the operations build has: a scalar carries no list;
   * a list carries no string and no TTL (nothing in the store gives a list one).
   */
  predicate Shaped(v: Value) {
    if v.isList then v.val == "" && v.ttl.None? else v.list == []
  }

  predicate WellFormed(data: Store) {
    forall k :: k in data ==> Shaped(data[k])
  }
}
