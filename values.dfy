/**
 * The value model of the in-memory store: the entry record kept per key,
 * the error taxonomy, the two expiry tests the store uses, the clock
 * arithmetic that turns a TTL in seconds into an expiry instant, and the
 * serializer that turns a caller's value into the stored string.
 */
module Values {

  datatype Option<+T> = None | Some(value: T)

  /** The store's five error kinds (memory.go, lines 12-18). */
  datatype Error = KeyNotFound | TypeMismatch | InvalidTTL | EmptyList | MarshalFailed

  /** A Go `(T, error)` pair: either a value or exactly one error kind. */
  datatype Result<+T> = Ok(value: T) | Err(error: Error)

  /** Clock readings, in nanoseconds; `time.Now()` becomes a parameter of this type. */
  type Instant = int

  /**
   * One stored entry, field for field the record the store keeps:
   * `val` for scalars, `list` for lists (front = index 0), `isList` as the
   * kind tag, and `ttl` as the absolute expiry instant, `None` standing for
   * the zero time that means "never expires".
   */
  datatype Value = Value(val: string, ttl: Option<Instant>, isList: bool, list: seq<string>)

  /** The zero record that a read of an absent key yields. */
  const ZeroValue: Value := Value("", None, false, [])

  /** The empty list entry that Push installs for an absent or expired key. */
  const FreshList: Value := Value("", None, true, [])

  /** Get's fast-path test: the entry has no TTL, or `now` is strictly before it. */
  predicate LiveAt(v: Value, now: Instant) {
    v.ttl.None? || now < v.ttl.value
  }

  /** The test every deleting path uses: the entry has a TTL and `now` is strictly after it. */
  predicate ExpiredAt(v: Value, now: Instant) {
    v.ttl.Some? && now > v.ttl.value
  }

  /**
   * The two tests are not complements: exactly at the expiry instant an entry
   * is neither live for the fast path nor expired for the deleting paths.
   */
  lemma ExpiryGap(v: Value, now: Instant)
    ensures LiveAt(v, now) ==> !ExpiredAt(v, now)
    ensures !LiveAt(v, now) && !ExpiredAt(v, now) <==> v.ttl == Some(now)
  {
  }

  // ---------------------------------------------------------------------
  // TTL arithmetic

  const NanosPerSecond: int := 1_000_000_000

  /** 2^63 and 2^64: the bounds of Go's int64 `time.Duration`. */
  const TwoTo63: int := 0x8000_0000_0000_0000
  const TwoTo64: int := 0x1_0000_0000_0000_0000

  /** The largest TTL in seconds whose length in nanoseconds still fits an int64. */
  const MaxExactTTLSeconds: int := 9_223_372_036

  /** Two's-complement wrap of an integer into the int64 range, as Go's int64 multiplication does. */
  function Int64Wrap(x: int): (r: int)
    ensures -TwoTo63 <= r < TwoTo63
    ensures -TwoTo63 <= x < TwoTo63 ==> r == x
    ensures (x - r) % TwoTo64 == 0
  {
    var m := x % TwoTo64;
    if m >= TwoTo63 then m - TwoTo64 else m
  }

  /**
   * The duration `time.Duration(ttlSeconds) * time.Second` as the source
   * computes it: the product is formed in int64 nanoseconds and wraps.
   */
  function GoTTLDuration(ttlSeconds: int): (d: int)
    ensures 0 <= ttlSeconds <= MaxExactTTLSeconds ==> d == ttlSeconds * NanosPerSecond
  {
    Int64Wrap(ttlSeconds * NanosPerSecond)
  }

  /** The expiry instant Set stores, as written: `now` plus the wrapped duration. */
  function ExpiryAsWritten(now: Instant, ttlSeconds: int): Instant {
    now + GoTTLDuration(ttlSeconds)
  }

  /** The expiry instant a positive TTL evidently means: `ttlSeconds` whole seconds after `now`. */
  function ExpiryFor(now: Instant, ttlSeconds: int): (e: Instant)
    requires ttlSeconds > 0
    ensures e > now
    ensures ttlSeconds <= MaxExactTTLSeconds ==> e == ExpiryAsWritten(now, ttlSeconds)
  {
    now + ttlSeconds * NanosPerSecond
  }

  /**
   * For a TTL one second past the int64 limit the duration wraps to a large
   * negative number, so the instant Set stores lies about 292 years before
   * `now`, although the caller asked for a positive TTL.
   */
  lemma OverflowedTTLLiesInThePast(now: Instant)
    ensures GoTTLDuration(MaxExactTTLSeconds + 1) == -9_223_372_036_709_551_616
    ensures ExpiryAsWritten(now, MaxExactTTLSeconds + 1) < now
  {
  }

  // ---------------------------------------------------------------------
  // Serializer

  /**
   * A caller's dynamic value: a string, or any other value of a type `V`
   * that only the JSON encoder knows how to render.
   */
  datatype Any<V> = Str(s: string) | Other(x: V)

  /**
   * Stringify: strings pass through unchanged and cannot fail; every other
   * value is handed to the encoder `marshal` (JSON in the source), whose
   * `None` stands for an encoding error.
   */
  function Stringify<V>(v: Any<V>, marshal: V -> Option<string>): (r: Option<string>)
    ensures v.Str? ==> r == Some(v.s)
    ensures v.Other? ==> (r.None? <==> marshal(v.x).None?)
    ensures v.Other? && marshal(v.x).Some? ==> r == marshal(v.x)
  {
    match v
    case Str(s) => Some(s)
    case Other(x) => marshal(x)
  }
}
