# In-memory key/value store with TTL — a Dafny model

This project models the in-memory store of `internal/store/memory/memory.go`.
The store maps string keys to entries. Each entry holds either a scalar
string or a list of strings, and may carry an absolute expiry instant. The
store offers six operations:

- Set
- Get
- Update
- Remove
- Push
- Pop

Expired entries leave the store in two ways:

- lazily, when Get, Update, Push or Pop touch an expired entry;
- actively, through a background worker that sweeps the whole map on every
  tick. The worker can be started and stopped.

Files:

- `values.dfy` (module `Values`): the entry record, the five error kinds, the two expiry tests, TTL arithmetic and the serializer.
- `semantics.dfy` (module `Semantics`): every operation as a pure function. Each one maps the old map to the new map and the outcome.
- `store.dfy` (module `Memory`): the class `MemoryStore`. It holds the map and the worker handle. Its methods follow the source branch by branch, and each is proved to produce exactly what the matching `Semantics` function gives. The one exception is Set's expiry arithmetic, which uses the corrected computation (see "## Findings").
- `properties.dfy` (module `Properties`): the promises about the operations:
  - each operation's outcome in every case;
  - round trips between operations;
  - lazy expiration;
  - the sweep.
- `stack.dfy` (module `Stack`): Push and Pop make a list behave as a last-in, first-out stack.

Clock and TTL:

- The clock is an integer count of nanoseconds, passed in as `now` wherever the source calls `time.Now()`.
- The zero `time.Time` ("no expiry") is `None`.

The two expiry tests of the source are kept apart:

- Get's fast path treats an entry as live when `now < ttl` (`LiveAt`).
- Every deleting path treats it as expired when `now > ttl` (`ExpiredAt`).

So at exactly `now == ttl` an entry is still served.

Two consequences of the code are worth stating on their own:

- An entry is deleted only strictly after its expiry instant. At the instant itself Get still returns it (`ExpiryGap`, `SetThenGet`).
- Remove of an expired key deletes it and reports success (`RemoveOutcomes`, `SweepVisibleToRemove`).

## Model

| member | source | states |
|---|---|---|
| Values.ExpiryGap | internal/store/memory/memory.go:103-123 | The fast-path live test and the deleting expired test are exclusive, and they both fail exactly when `now` equals the expiry instant. |
| Values.Int64Wrap | internal/store/memory/memory.go:84 | The result lies in the int64 range, differs from the input by a multiple of 2^64 (two's-complement wrap, not saturation), and equals the input whenever the input already fits. |
| Values.GoTTLDuration | internal/store/memory/memory.go:84 | The duration as the source computes it equals `ttlSeconds` seconds in nanoseconds whenever that fits an int64. |
| Values.ExpiryFor | internal/store/memory/memory.go:83-85 | A positive TTL gives an expiry instant strictly after `now`. It agrees with the source's computation up to the int64 limit. |
| Values.OverflowedTTLLiesInThePast | internal/store/memory/memory.go:84 | With a TTL one second over the int64 limit, the wrapped duration is negative and the stored instant lies before `now`. |
| Values.Stringify | internal/store/memory/memory.go:238-250 | A string passes through unchanged and never fails. A non-string fails exactly when the encoder fails, and otherwise yields the encoder's output. |
| Semantics.SetStepAsWritten | internal/store/memory/memory.go:69-89 | Set with the wrapping duration agrees with the corrected Set for every TTL up to the int64 limit. |
| Memory.MemoryStore.constructor | internal/store/memory/memory.go:27-40 | A new store has an empty map and a running worker. |
| Memory.MemoryStore.StartTTLWorker | internal/store/memory/memory.go:42-54 | A start replaces any running worker's handle with a new one that no earlier worker had. The map is untouched. |
| Memory.MemoryStore.StopTTLWorker | internal/store/memory/memory.go:56-66 | After a stop the handle is cleared. Stopping a stopped worker changes nothing. |
| Memory.MemoryStore.Set | internal/store/memory/memory.go:68-90 | The new map and the result are those of `SetStep`, which uses the corrected expiry (see "## Left out"). The well-formedness invariant is kept. |
| Memory.MemoryStore.Get | internal/store/memory/memory.go:92-133 | The fast path (`now < ttl`) plus the re-read slow path (`now > ttl`) leave exactly the map and result of `GetStep`, which uses the single expired test. |
| Memory.MemoryStore.Update | internal/store/memory/memory.go:135-163 | The new map and the result are those of `UpdateStep`. |
| Memory.MemoryStore.Remove | internal/store/memory/memory.go:165-176 | The new map and the result are those of `RemoveStep`. |
| Memory.MemoryStore.Push | internal/store/memory/memory.go:178-206 | The source's read of the zero record, its delete of an expired entry and its re-check of the kind give exactly `PushStep`. |
| Memory.MemoryStore.Pop | internal/store/memory/memory.go:208-236 | The new map and the result are those of `PopStep`. |
| Memory.MemoryStore.SweepExpired | internal/store/memory/memory.go:268-280 | The loop deletes while it walks the keys in any order, and ends with exactly `Sweep` of the old map. |
| Memory.MemoryStore.Tick | internal/store/memory/memory.go:262-285 | A tick sweeps the map when the worker runs and leaves it unchanged when the worker is stopped. |
| Properties.SetOutcomes | internal/store/memory/memory.go:69-89 | A negative TTL gives InvalidTTL, and an encoder failure gives MarshalFailed. Both leave the map unchanged. On success the key holds a scalar with the string. TTL 0 gives no expiry. A positive TTL gives `now + ttl` seconds. Any prior entry of either kind is replaced, and no other key changes. |
| Properties.GetOutcomes | internal/store/memory/memory.go:96-132 | An absent key gives KeyNotFound. An expired key is deleted, alone, and gives KeyNotFound. A live list gives TypeMismatch with no change. Get succeeds exactly on a live scalar, returns its string and changes nothing. |
| Properties.UpdateOutcomes | internal/store/memory/memory.go:136-162 | An encoder failure changes nothing, not even an expired key. An absent key gives KeyNotFound with no change. An expired key is deleted alone and gives KeyNotFound. A live list gives TypeMismatch with no change. A live scalar gets the new string and keeps its TTL, its kind and every other key. |
| Properties.RemoveOutcomes | internal/store/memory/memory.go:166-175 | An absent key gives KeyNotFound with no change. A present key, expired or not, is deleted alone and the result is success. |
| Properties.PushOutcomes | internal/store/memory/memory.go:179-205 | An encoder failure leaves the map unchanged. A live scalar gives TypeMismatch with no change. An absent or expired key becomes `[item]` with no TTL. A live list gets `item` in front, keeps its TTL, string and kind, and no other key changes. |
| Properties.PopOutcomes | internal/store/memory/memory.go:209-235 | The error order is: absent, then expired (deleted), then scalar (TypeMismatch, before emptiness), then empty list (EmptyList, no change). A successful Pop returns `list[0]` and stores `list[1..]`. |
| Properties.MarshalFailureChangesNothing | internal/store/memory/memory.go:74-77 | When the encoder fails on a non-string value, Set, Update and Push all report MarshalFailed and leave the map exactly as it was. |
| Properties.StepsPreserveWellFormed | internal/store/memory/memory.go:68-236 | Every operation and the sweep keep each entry in its shape: a scalar has no list, and a list has no string and no TTL. |
| Properties.ListsNeverExpire | internal/store/memory/memory.go:191-204 | In a well-formed store a list entry is live at every instant, because no operation gives a list a TTL. |
| Properties.SetThenGet | internal/store/memory/memory.go:82-132 | After Set, Get returns the string at every instant up to and including the expiry instant. With TTL 0 it returns the string forever. Strictly after expiry, Get deletes the key and reports KeyNotFound. |
| Properties.SetThenGetString | internal/store/memory/memory.go:74-88 | A string set through Stringify comes back from Get unchanged. |
| Properties.UpdateKeepsExpiry | internal/store/memory/memory.go:145-162 | After Set with TTL t and a successful Update, the key keeps Set's expiry instant. The new string is readable until that instant and gone after it. |
| Properties.SetThenRemove | internal/store/memory/memory.go:170-175 | Remove restores the map from before a Set of an absent key, and Get then reports KeyNotFound. |
| Properties.PushThenPop | internal/store/memory/memory.go:188-235 | On any key that is not a live scalar, Pop returns the item just pushed. A live list is restored exactly. An absent or expired key is left as an empty list. |
| Properties.ExpiredActsDeleted | internal/store/memory/memory.go:113-126 | An expired entry gives the same outcome as a deleted one for Get, Update, Pop and Push. Each of them removes it. A second Get also reports KeyNotFound. Only Remove tells the two apart. |
| Properties.SweepKeepsLive | internal/store/memory/memory.go:269-278 | A sweep keeps exactly the entries that are not expired, each unchanged, and always keeps entries without a TTL. |
| Properties.SweepAbsorbs | internal/store/memory/memory.go:269-278 | A sweep at a later instant subsumes an earlier one, so sweeping twice equals sweeping once. |
| Properties.SweepCommutes | internal/store/memory/memory.go:269-278 | Get, Update, Push and Pop give the same outcome on the swept map as on the unswept one, and the same map once both are swept. |
| Properties.SweepVisibleToRemove | internal/store/memory/memory.go:170-175 | Remove reports success for an expired key before a sweep and KeyNotFound after it. Removing then sweeping leaves the same map as sweeping then removing. |
| Properties.NoTTLSurvivesSweeps | internal/store/memory/memory.go:275 | An entry without a TTL survives any run of sweeps unchanged. |
| Properties.ZeroTTLIsImmortal | internal/store/memory/memory.go:82-88 | A string set with TTL 0 is readable at any later instant, after any number of sweeps. |
| Properties.OverflowedSetIsLostAtOnce | internal/store/memory/memory.go:82-88 | Set as written with TTL 9223372037 reports success, yet Get at the same instant deletes the key and reports KeyNotFound. The corrected Set keeps the key. |
| Stack.Reverse | internal/store/memory/memory.go:203 | The reversed list has the same length, and item `i` is item `n-1-i` of the input. |
| Stack.PushAllStacks | internal/store/memory/memory.go:188-205 | Pushing items onto a key that holds no live scalar leaves a live list. That list is the items in reverse order in front of the old live list. No other key changes. |
| Stack.PopManyUnstacks | internal/store/memory/memory.go:224-234 | `n` pops of a live list with at least `n` items return its first `n` items in order and leave the rest. |
| Stack.StackOrder | internal/store/memory/memory.go:188-235 | After pushing any items, as many pops return them in reverse order and restore the old live list. If that list was empty, the next pop reports EmptyList. |
| Stack.PushABCPopCBA | internal/store/memory/memory.go:188-235 | Push a, b, c onto an absent key, then pop four times: the results are c, b, a, then EmptyList. |

## Findings

| source | as written | input that shows it | evidently intended | confidence | as-written member | corrected member |
|---|---|---|---|---|---|---|
| internal/store/memory/memory.go:84 | `time.Duration(ttlSeconds) * time.Second` multiplies in int64 nanoseconds, which wraps once `ttlSeconds` exceeds 9223372036 | `Set(k, "v", 9223372037)` succeeds. The stored expiry lies about 292 years before now, so the next `Get(k)` deletes the key and reports KeyNotFound. The HTTP handler (internal/api/handler.go:40) rejects only TTLs of 0 or less. | the key lives `ttlSeconds` seconds | not executed; high | Semantics.SetStepAsWritten, Properties.OverflowedSetIsLostAtOnce | Values.ExpiryFor, Properties.SetThenGet |

## Left out

- Concurrency is not modelled. This covers the goroutine, the `time.Ticker`, the `sync.RWMutex` and the `context` cancellation. The model is sequential. Each operation is one atomic step, which is what the source's locks provide.
- The worker is its handle plus `Tick`, one sweep per tick when running. A cancellation that arrives in the middle of a sweep, stopping the scan part-way, is not modelled.
- Get reads the clock twice, once in the fast path and once in the slow path. The model uses one `now` for both. So it does not cover time advancing between the two reads, nor another writer changing the entry in between. The re-read of the entry is kept.
- `json.Marshal` is not modelled. It is a parameter `marshal: V -> Option<string>` of Set, Update and Push, with `None` for an encoding error. The model proves only that an encoding failure leaves the map untouched, and what a string becomes.
- Memory.MemoryStore.Set: stores the corrected expiry `now + ttlSeconds` seconds (`Values.ExpiryFor`), not the int64-wrapped one of the source. The two agree for every TTL up to 9223372036 seconds (`Semantics.SetStepAsWritten`). For larger TTLs the source loses the key at once, as recorded under "## Findings", while the class keeps it.
- Memory.MemoryStore.SweepExpired: checks every entry against one clock reading `now`, while the source reads the clock again for each entry. An entry that expires while a pass is running is deleted by the source but kept by the model until the next pass.
- `time.Now()` is the `now` parameter. Real durations beyond the seconds-to-nanoseconds conversion are not modelled.
- The `ctx` arguments of the operations are not modelled, because the source never reads them. The same holds for the `ctx` argument of `StartTTLWorker`.
- The HTTP layer, the client, process start-up and the store interface are not part of this model.
