/**
 * Push puts its item at the front of a list and Pop takes the front item,
 * so a list used through them is a stack: items come back last in, first
 * out. This module proves that for any run of pushes followed by pops.
 */
module Stack {
  import opened Values
  import opened Semantics

  /** `s` back to front. */
  function Reverse(s: seq<string>): (r: seq<string>)
    ensures |r| == |s|
    ensures forall i :: 0 <= i < |s| ==> r[i] == s[|s| - 1 - i]
    decreases |s|
  {
    if s == [] then [] else Reverse(s[1..]) + [s[0]]
  }

  /** Whether `key` holds a scalar that has not expired at `now`: the one case in which Push fails on a valid item. */
  predicate HoldsLiveScalar(data: Store, key: string, now: Instant) {
    key in data && !ExpiredAt(data[key], now) && !data[key].isList
  }

  /** The items Pop would see at `key`: the list if the key holds a live list, and none otherwise. */
  function LiveList(data: Store, key: string, now: Instant): seq<string> {
    if key in data && !ExpiredAt(data[key], now) && data[key].isList then data[key].list else []
  }

  /** The map after pushing `items` onto `key`, first item first. */
  function PushAll(data: Store, key: string, items: seq<string>, now: Instant): Store
    decreases |items|
  {
    if items == [] then data
    else PushAll(PushStep(data, key, Some(items[0]), now).data, key, items[1..], now)
  }

  /** The outcomes of `n` pops of `key`, in order, and the map they leave. */
  function PopMany(data: Store, key: string, n: nat, now: Instant): (seq<Result<string>>, Store)
    decreases n
  {
    if n == 0 then ([], data)
    else
      var first := PopStep(data, key, now);
      var rest := PopMany(first.data, key, n - 1, now);
      ([first.out] + rest.0, rest.1)
  }

  /**
   * Pushing `items` onto a key that holds no live scalar leaves a live list
   * holding the items in reverse order in front of what was there, and
   * touches no other key.
   */
  lemma {:induction false} PushAllStacks(data: Store, key: string, items: seq<string>, now: Instant)
    requires !HoldsLiveScalar(data, key, now)
    ensures var pushed := PushAll(data, key, items, now);
      && !HoldsLiveScalar(pushed, key, now)
      && LiveList(pushed, key, now) == Reverse(items) + LiveList(data, key, now)
      && (items != [] ==> key in pushed && pushed[key].isList && !ExpiredAt(pushed[key], now))
      && pushed - {key} == data - {key}
    decreases |items|
  {
    if items != [] {
      var once := PushStep(data, key, Some(items[0]), now).data;
      assert LiveList(once, key, now) == [items[0]] + LiveList(data, key, now);
      assert once - {key} == data - {key};
      PushAllStacks(once, key, items[1..], now);
      assert Reverse(items) == Reverse(items[1..]) + [items[0]];
    }
  }

  /**
   * Popping `n` times from a live list holding at least `n` items returns its
   * first `n` items in order and leaves the rest.
   */
  lemma {:induction false} PopManyUnstacks(data: Store, key: string, n: nat, now: Instant)
    requires key in data && !ExpiredAt(data[key], now) && data[key].isList
    requires n <= |data[key].list|
    ensures var popped := PopMany(data, key, n, now);
      && |popped.0| == n
      && (forall i :: 0 <= i < n ==> popped.0[i] == Ok(data[key].list[i]))
      && key in popped.1
      && popped.1[key] == data[key].(list := data[key].list[n..])
    decreases n
  {
    if n > 0 {
      var once := PopStep(data, key, now).data;
      PopManyUnstacks(once, key, n - 1, now);
      assert once[key].list[n - 1..] == data[key].list[n..];
    }
  }

  /**
   * Last in, first out: after pushing `items` onto a key that holds no live
   * scalar, as many pops return them in reverse order and leave the list as
   * it was; if it was empty, the next pop reports an empty list.
   */
  lemma StackOrder(data: Store, key: string, items: seq<string>, now: Instant)
    requires !HoldsLiveScalar(data, key, now)
    ensures var popped := PopMany(PushAll(data, key, items, now), key, |items|, now);
      && |popped.0| == |items|
      && (forall i :: 0 <= i < |items| ==> popped.0[i] == Ok(items[|items| - 1 - i]))
      && LiveList(popped.1, key, now) == LiveList(data, key, now)
      && (items != [] && LiveList(data, key, now) == [] ==> PopStep(popped.1, key, now).out == Err(EmptyList))
  {
    if items != [] {
      var pushed := PushAll(data, key, items, now);
      PushAllStacks(data, key, items, now);
      PopManyUnstacks(pushed, key, |items|, now);
      assert pushed[key].list[|items|..] == LiveList(data, key, now);
    }
  }

  /** The three-item case: push a, b, c onto an absent key; pops give c, b, a, then an empty list. */
  lemma PushABCPopCBA(data: Store, key: string, now: Instant)
    requires key !in data
    ensures var pushed := PushAll(data, key, ["a", "b", "c"], now);
      PopMany(pushed, key, 4, now).0 == [Ok("c"), Ok("b"), Ok("a"), Err(EmptyList)]
  {
  }
}
