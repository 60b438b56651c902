# amphp/cache in Dafny

A model of the key→value caches of amphp/cache, with proofs about them. The
repository ships two generations of the same components: `lib/` is the older
promise-based API and `src/` the newer synchronous one. Both are modelled.

- **In-memory expiring store.** Covers `src/LocalCache.php`, `src/ArrayCache.php` and `lib/ArrayCache.php`.
  - The state object holds two PHP arrays: `cache`, from key to value in insertion order, and `cacheTimeouts`, from key to absolute expiry second.
  - A flag `isSortNeeded` records that the expiry index must be re-sorted.
  - The state object is the class `ExpiringState.CacheState`.
  - A PHP array is the datatype `PhpArrays.OrderedMap`: its key order, plus a map. `unset`, assignment, `array_shift` and `asort` are written out on it.
  - The garbage-collection timer is the method `CollectGarbage(now)`. Its `foreach … break` loop is proved to remove exactly the expired keys, and to keep the index sorted while the flag is clear.
  - `src/ArrayCache.php` is `src/LocalCache.php` line for line under older names: `sharedState` for `state` and `maxSize` for `sizeLimit`. The class `SrcLocalCache.LocalCache` models both. The rows citing `src/ArrayCache.php` below name the shared state-object members and scenario members that state the same behaviour.
  - The promise-era interface `lib/Cache.php` has no bodies. Its doc-comment rules are predicates in module `LibCache`. Every `lib/ArrayCache.php` operation ensures them, except the two as-written members `HasAsWritten` and `DelAsWritten`, which show where the code breaks them (see "## Findings").
- **Atomic compute layer.** Covers `src/AtomicCache.php` and `lib/AtomicCache.php`.
  - The keyed mutex is a class with a ghost set of held keys, a ghost log of lock requests, and a flag for an `acquire` that throws.
  - The user callback is a class over a pure function, with a ghost log of its invocations.
  - The wrapped store is the reference class `CacheStore.Store`. One flag makes its writes throw for its whole lifetime. The other makes its reads throw, and another task can set or clear it while a call waits for a lock (the step `Outage` below).
  - Other tasks can run only while a call waits for a lock. What they do meanwhile is the parameter `whileWaiting`, applied when the lock is granted. It holds writes, deletes, and `Outage` steps that make the store's reads start or stop throwing. So a read under the lock can fail even though the read before the lock succeeded.
  - Every compute, load, swap, set and delete method proves three things:
    - the set of held locks is the same on exit as on entry (the exceptions are the two `Lock` methods, which take the lock, and `LibAtomicCache.AtomicCache.SwapAsWritten`, which can return with it held);
    - the callback is invoked at most once;
    - nothing is stored when the callback fails.
- **Adapters.**
  - Serializing caches (`src/SerializedCache.php`, `lib/SerializedCache.php`, `lib/DelegatingSerializedCache.php`). The serializer is a pair of functions. Round-trip properties are proved under the predicate `RoundTrips`.
  - Key-prefixing caches (`src/PrefixCache.php`, `lib/PrefixCache.php`), proved injective on keys.
  - The string type guard (`src/StringCacheAdapter.php`).
  - The store that keeps nothing (`src/NullCache.php`).

The clock is an integer parameter `now`, counting whole seconds. A promise
that resolves or fails is a `Result`, and a `void` operation that may throw
returns an `Outcome`. Throwing and failing are the same thing here.

## Model

| member | source | states |
|---|---|---|
| PhpArrays.SortByCorrect | src/LocalCache.php:36-39 | `asort` of the expiry index yields a permutation of it, sorted by expiry second, and keeps keys distinct |
| PhpArrays.SortBySorted | src/LocalCache.php:36-37 | after `asort` the keys are in non-decreasing order of their values |
| PhpArrays.SortByPermutes | src/LocalCache.php:36-37 | `asort` only rearranges: each key occurs as often as before |
| PhpArrays.SortByDistinct | src/LocalCache.php:36-37 | `asort` of an array's distinct keys gives distinct keys |
| PhpArrays.WithoutMembers | src/LocalCache.php:46-49 | `unset` keeps exactly the keys not removed, and leaves the order alone when none of the removed keys is present |
| PhpArrays.WithoutDistinct | src/LocalCache.php:46-49 | `unset` never duplicates a key |
| PhpArrays.WithoutSorted | src/LocalCache.php:46-49 | unsetting keys from an index sorted by expiry leaves it sorted |
| PhpArrays.UnsetCount | src/LocalCache.php:98-99 | after `unset`, `count` is one less exactly when the key was present |
| PhpArrays.CountIsSize | src/LocalCache.php:99 | `count` of a well-formed array is the number of its keys |
| ExpiringState.Sorted | src/ArrayCache.php:36-39 | the sorted expiry index has the same keys and expiries, in non-decreasing expiry order |
| ExpiringState.Replace | src/LocalCache.php:98-103 | `set` unsets the key and re-appends it as the newest entry; only the oldest other entry can be lost, and only when the others fill the limit exactly; every other value is unchanged |
| ExpiringState.ReplaceWithinLimit | src/ArrayCache.php:100-105 | with a limit of at least one, `set` never takes the number of values above the limit |
| ExpiringState.ReplaceNewKey | src/LocalCache.php:98-103 | a new key is appended; the oldest entry is shifted out exactly when the array already holds `limit` entries |
| ExpiringState.WithTtl | src/LocalCache.php:88-96 | a null TTL removes the key's expiry, a TTL of zero or more records `now + ttl`, and no other key's expiry changes |
| ExpiringState.StoredValueVisible | src/ArrayCache.php:88-106 | right after `set`, `get` returns the value at every second up to `now + ttl`, at every second when the TTL is null, and null after that |
| ExpiringState.StoreLeavesOthers | src/LocalCache.php:86-104 | after `set`, every other key still stored reads as before, at every second |
| ExpiringState.UnsetAllSorted | src/ArrayCache.php:46-49 | removing expired keys keeps a sorted expiry index sorted |
| ExpiringState.SweepStopsAtFirstLive | src/LocalCache.php:41-44 | in a sorted index, once the sweep meets an entry with `now <= expiry`, no later entry has expired |
| ExpiringState.CacheState.constructor | src/ArrayCache.php:24-30 | both arrays start empty and the sort flag clear |
| ExpiringState.CacheState.CollectGarbage | src/ArrayCache.php:32-51 | the sweep sorts only when flagged, clears the flag, and removes exactly the keys whose expiry lies before `now` from both arrays; untimed entries stay |
| ExpiringState.CacheState.SweepSorted | src/LocalCache.php:41-50 | the `foreach … break` loop over a sorted index unsets the expired prefix from both arrays, stops at the first live entry, and leaves every remaining expiry at or after `now` |
| ExpiringState.CacheState.SweepLoop | src/LocalCache.php:41-50 | the loop walks a copy of the index in order, unsets each visited key from both arrays, has seen only expired entries, and stops at the end or at the first entry with `now <= expiry` |
| ExpiringState.UnsetFirstIsUnsetAll | src/LocalCache.php:46-49 | unsetting the visited keys one at a time leaves the same array as unsetting all of them at once |
| ExpiringState.CacheState.Expire | src/ArrayCache.php:113-116 | one `unset` removes the key from both arrays and changes nothing else |
| ExpiringState.CacheState.Clear | src/ArrayCache.php:60-66 | the destructor empties both arrays |
| SrcLocalCache.LocalCache.constructor | src/LocalCache.php:19-30 | a new store is empty, within its limit, and has no sort pending |
| SrcLocalCache.LocalCache.Get | src/LocalCache.php:68-84 | null for an absent key, with no change; null for an expired key, which is purged from both arrays; the value otherwise, with an expiry equal to `now` still served; no entry is reordered |
| SrcLocalCache.LocalCache.Set | src/LocalCache.php:86-104 | a negative TTL fails with nothing changed; otherwise the values become `Replace` of the old ones, the expiries become `WithTtl` of the old ones, and a sort is flagged for a timed key; the size bound is kept |
| SrcLocalCache.LocalCache.Delete | src/LocalCache.php:106-116 | reports whether the key was in the values array, expired or not; removes it from both arrays; afterwards it reads as null at every second |
| SrcLocalCache.LocalCache.CollectGarbage | src/LocalCache.php:32-51 | the timer run removes exactly the expired entries, leaves every remaining expiry at or after `now`, and changes no answer `get` gives at `now` |
| SrcLocalCache.LocalCache.Clear | src/LocalCache.php:60-66 | after the destructor every key reads as null at every second |
| LocalCacheScenarios.GetAfterSet | test/CacheTest.php:13-24 | a missing key reads as null; after `set` with TTL 10 it reads back |
| LocalCacheScenarios.ExpiredAfterTtl | test/CacheTest.php:26-34 | a value stored with TTL 0 reads as null one second later |
| LocalCacheScenarios.OverrideWithoutTtl | test/CacheTest.php:36-45 | storing again with a null TTL removes the earlier expiry |
| LocalCacheScenarios.GetAfterDelete | test/CacheTest.php:47-55 | `delete` reports true, and the key then reads as null |
| LocalCacheScenarios.WindowStep | test/LocalCacheLimitedTest.php:14-16 | with a limit of five, setting `foo_i` moves the kept keys from `foo_1`…`foo_(i-1)` (the last five of them) to the next window |
| LocalCacheScenarios.SetFoo | test/LocalCacheLimitedTest.php:15 | one turn of the test loop keeps the store valid, advances the window, and the new key reads back |
| LocalCacheScenarios.LimitEvictsOldest | test/LocalCacheLimitedTest.php:10-19 | with a limit of five, after `foo_1`…`foo_6` are set, `foo_1` reads as null and `foo_6` reads back |
| LibArrayCache.ArrayCache.constructor | lib/ArrayCache.php:19-23 | the shared state starts empty with no sort pending |
| LibArrayCache.ArrayCache.HasAsWritten | lib/ArrayCache.php:61-75 | `has` as written: an entry without an expiry is reported missing and purged at every second except zero |
| LibArrayCache.ArrayCache.Has | lib/ArrayCache.php:61-75 | resolves to a boolean: true exactly when a value is stored and not expired; a value stored without a TTL is always reported present (`LibCache.UntimedStaysPresent`); an expired one is purged from both arrays |
| LibArrayCache.ArrayCache.Get | lib/ArrayCache.php:80-86 | succeeds with the stored value whenever the key exists, with no expiry check, and fails when it is missing, as `lib/Cache.php` asks |
| LibArrayCache.ArrayCache.Set | lib/ArrayCache.php:91-107 | a null TTL removes the expiry; an integer TTL of zero or more records `now + ttl` and flags a sort; any other TTL fails with nothing changed; the value is assigned in place with no size limit; a later `get` returns it |
| LibArrayCache.ArrayCache.DelAsWritten | lib/ArrayCache.php:112-119 | `del` as written removes the key from both arrays and resolves with null, not with whether the key existed |
| LibArrayCache.ArrayCache.Del | lib/ArrayCache.php:112-119 | succeeds for any key, resolves with whether the key existed, and removes it from both arrays |
| LibArrayCache.ArrayCache.CollectGarbage | lib/ArrayCache.php:24-44 | the watcher removes exactly the expired entries from both arrays, keeps every unexpired expiry as it was, and leaves every untimed key's answer unchanged |
| LibArrayCache.ArrayCache.Clear | lib/ArrayCache.php:52-56 | after the destructor every `get` fails |
| SrcAtomicCache.AtomicCache.constructor | src/AtomicCache.php:22-26 | keeps the wrapped store and the mutex |
| SrcAtomicCache.AtomicCache.Lock | src/AtomicCache.php:142-153 | a failing `acquire` is rethrown as a `CacheException` chaining it, with nothing read or written and no lock held; otherwise the key's lock is held |
| SrcAtomicCache.AtomicCache.Create | src/AtomicCache.php:158-173 | the callback is invoked once; a throw becomes a `CacheException` chaining it and nothing is stored; otherwise its result goes to the store's `set` with the TTL and is returned, and a failing `set` propagates |
| SrcAtomicCache.AtomicCache.Compute | src/AtomicCache.php:41-52 | the lock is released on every path; the callback is invoked once with the value read under the lock, or not at all when locking or reading fails |
| SrcAtomicCache.AtomicCache.ComputeIfAbsent | src/AtomicCache.php:67-83 | a stored value is returned with no lock and no callback; otherwise the key is read again under the lock, and the callback runs, with null, only if there is still no value; a failed first read answers the failure with no lock; a failed read under the lock answers the failure, keeps what other tasks wrote and runs no callback; the lock is released on every path |
| SrcAtomicCache.AtomicCache.ComputeIfPresent | src/AtomicCache.php:98-120 | null with no lock and no callback when nothing is stored; otherwise the key is read again under the lock, and the callback runs only if the value is still there; a failed first read answers the failure with no lock; a failed read under the lock answers the failure, keeps what other tasks wrote and runs no callback; the lock is released on every path |
| SrcAtomicCache.AtomicCache.Delete | src/AtomicCache.php:131-140 | locks the key, answers exactly what the store's `delete` answers, and releases the lock |
| AtomicCacheScenarios.ComputeTwice | test/AtomicCacheTest.php:121-142 | from 0, two `compute` calls adding one answer 1, then 2 |
| AtomicCacheScenarios.SimultaneousComputeIfAbsent | test/AtomicCacheTest.php:77-96 | when another task stores "value" while this call waits for the lock, the call answers "value" and its own callback is never invoked |
| AtomicCacheScenarios.StoreFailsWhileWaiting | src/AtomicCache.php:75-82 | when the store's reads start throwing while the call waits for the lock, the call answers the store's failure, releases the lock, stores nothing and never invokes the callback |
| AtomicCacheScenarios.ComputeIfAbsentKeepsValue | src/AtomicCache.php:69-73 | a stored value is answered even when locking and the callback would both fail |
| LibAtomicCache.AtomicCache.constructor | lib/AtomicCache.php:31-36 | keeps the store, mutex and serializer |
| LibAtomicCache.AtomicCache.Get | lib/AtomicCache.php:153-164 | null without `unserialize` when the store has nothing; otherwise the unserialized data |
| LibAtomicCache.AtomicCache.Lock | lib/AtomicCache.php:109-120 | a failing `acquire` becomes a `CacheException` chaining it, with no lock held; otherwise the key's lock is held |
| LibAtomicCache.AtomicCache.Create | lib/AtomicCache.php:122-141 | a throwing callback becomes a `CacheException` chaining it; a null result is refused with a `CacheException`; in both cases nothing is stored; otherwise the serialized value is stored with the TTL, and the value is returned |
| LibAtomicCache.AtomicCache.Load | lib/AtomicCache.php:52-77 | a stored value is returned with no lock and no callback; otherwise it is read again under the lock, and the callback runs only if there is still nothing; a failed read under the lock answers the failure, keeps what other tasks wrote and runs no callback; the lock is released on every path |
| LibAtomicCache.AtomicCache.SwapAsWritten | lib/AtomicCache.php:93-107 | `swap` as written: when the read under the lock fails, the failure propagates and `swap` does not release the lock |
| LibAtomicCache.AtomicCache.Swap | lib/AtomicCache.php:93-107 | the callback is invoked once with the value read under the lock, and its result is stored and returned; the lock is released on every path |
| LibAtomicCache.AtomicCache.Set | lib/AtomicCache.php:181-197 | null fails with a `CacheException` and no lock is requested; otherwise the serialized value is stored under the lock, which is released on every path |
| LibAtomicCache.AtomicCache.Delete | lib/AtomicCache.php:208-220 | locks the key, forwards the deletion, and releases the lock |
| Findings.SwapLeaksLock | lib/AtomicCache.php:96-105 | with a store whose reads throw, `swap` as written returns with the key still held in the mutex model; the corrected `swap` releases it |
| Findings.HasForgetsUntimedEntry | lib/ArrayCache.php:64 | a value stored without a TTL is reported missing one second later by `has` as written, which breaks `LibCache.UntimedStaysPresent`, and present by the corrected `has` |
| Findings.DelReportsNothing | lib/ArrayCache.php:118 | deleting a stored key resolves with null as written, and with true when corrected |
| Serialization.Decode | lib/DelegatingSerializedCache.php:25-35 | null data is passed through without `unserialize`; anything else is unserialized |
| Serialization.DecodeEncoded | test/SerializedCacheTest.php:28-50 | with a round-trip serializer, decoding what was serialized gives back the value (a convenience restatement of `RoundTrips` at one value) |
| Serialization.Passthrough | lib/AtomicCache.php:31-36 | the default serializer round-trips, and accepts exactly the non-null values |
| SrcSerializedCache.SerializedCache.constructor | src/SerializedCache.php:17-21 | keeps the inner store and the serializer |
| SrcSerializedCache.SerializedCache.Get | src/SerializedCache.php:35-43 | null without `unserialize` when the inner store returns null; otherwise `unserialize` of the data, whose failure propagates |
| SrcSerializedCache.SerializedCache.Set | src/SerializedCache.php:58-67 | null is refused with a `CacheException` and the inner store is not called; a failing `serialize` propagates and the inner store is not called; otherwise the serialized value is written under the same key and TTL, and with a round-trip serializer it reads back as the value |
| SrcSerializedCache.SerializedCache.Delete | src/SerializedCache.php:81-84 | answers exactly what the inner store's `delete` answers |
| LibSerializedCache.SerializedCache.constructor | lib/SerializedCache.php:19-23 | keeps the inner store and the serializer |
| LibSerializedCache.SerializedCache.Get | lib/SerializedCache.php:33-43 | resolves null without unserializing when the inner data is null; otherwise `unserialize` of the data |
| LibSerializedCache.SerializedCache.Set | lib/SerializedCache.php:56-69 | null fails with a `CacheException` and a failing `serialize` fails, in both cases without calling the inner store; otherwise the serialized value is forwarded with the same key and TTL |
| LibSerializedCache.SerializedCache.Delete | lib/SerializedCache.php:79-82 | forwards to the inner store |
| LibDelegatingSerializedCache.DelegatingSerializedCache.constructor | lib/DelegatingSerializedCache.php:19-23 | keeps the inner store and the serializer |
| LibDelegatingSerializedCache.DelegatingSerializedCache.Get | lib/DelegatingSerializedCache.php:25-35 | resolves null without unserializing when the inner data is null; otherwise `unserialize` of the data |
| LibDelegatingSerializedCache.DelegatingSerializedCache.Set | lib/DelegatingSerializedCache.php:37-46 | every value, null included, goes to `serialize`; a failure there fails without calling the inner store; with a round-trip serializer, a read returns the value |
| LibDelegatingSerializedCache.DelegatingSerializedCache.Delete | lib/DelegatingSerializedCache.php:48-51 | forwards to the inner store |
| SrcPrefixCache.PrefixedKey | src/PrefixCache.php:28 | the inner key is the prefix followed by the key |
| SrcPrefixCache.PrefixedKeyInjective | src/PrefixCache.php:26-39 | under one prefix, two keys reach the same inner key exactly when they are equal |
| SrcPrefixCache.PrefixCache.constructor | src/PrefixCache.php:10-24 | `getKeyPrefix` returns the prefix given to the constructor |
| SrcPrefixCache.PrefixCache.Get | src/PrefixCache.php:26-29 | the inner store's answer for `prefix . key` |
| SrcPrefixCache.PrefixCache.Set | src/PrefixCache.php:31-34 | writes the value and TTL to `prefix . key` only: no other key of this cache changes |
| SrcPrefixCache.PrefixCache.Delete | src/PrefixCache.php:36-39 | deletes `prefix . key`, answers what the inner store answers, and no other key of this cache changes |
| SrcPrefixCache.ReportsPrefix | test/PrefixCacheTest.php:11-14 | a cache built with "prefix." reports "prefix." |
| LibPrefixCache.PrefixCache.constructor | lib/PrefixCache.php:14-28 | `getKeyPrefix` returns the prefix given to the constructor |
| LibPrefixCache.PrefixCache.Get | lib/PrefixCache.php:31-34 | returns the inner store's answer for `prefix . key`, or throws what its read throws |
| LibPrefixCache.PrefixCache.Set | lib/PrefixCache.php:37-40 | writes the string and TTL to `prefix . key` only |
| LibPrefixCache.PrefixCache.Delete | lib/PrefixCache.php:43-46 | deletes `prefix . key` and returns the inner store's answer, or throws what its delete throws |
| StringCacheAdapters.AsString | src/StringCacheAdapter.php:18-24 | null and strings pass through unchanged; any other value is refused with a `CacheException` |
| StringCacheAdapters.StringCacheAdapter.constructor | src/StringCacheAdapter.php:9-12 | keeps the wrapped store |
| StringCacheAdapters.StringCacheAdapter.Get | src/StringCacheAdapter.php:14-25 | the wrapped store's value after the type guard; a failing read propagates |
| StringCacheAdapters.StringCacheAdapter.Set | src/StringCacheAdapter.php:27-30 | forwards key, string and TTL unchanged, and the string reads back |
| StringCacheAdapters.StringCacheAdapter.Delete | src/StringCacheAdapter.php:32-35 | forwards the deletion and answers what the wrapped store answers |
| StringCacheAdapters.IntegerIsRefused | src/StringCacheAdapter.php:18-22 | an integer found under a key is refused with a `CacheException` |
| NullCache.Get | src/NullCache.php:11-14 | always null |
| NullCache.Set | src/NullCache.php:17-20 | always accepted, even with a negative TTL |
| NullCache.Delete | src/NullCache.php:23-26 | always false |
| NullCache.SetThenGet | test/NullCacheTest.php:14-17 | `set` succeeds, a `get` that follows is null, and `delete` is false |

## Left out

- The event loop: the repeating timer, `unreference`, `cancel`, and the shared-state object that lets `__destruct` run. A timer run is a call of `CollectGarbage(now)`, and the destructor is `Clear`.
- The `float` garbage-collection interval and the constructors' interval parameters, since the model has no timer.
- The wall clock `time()`. It is the parameter `now`.
- Promises, generators and true interleaving. Operations run one at a time. Other tasks' writes during a lock wait are the `whileWaiting` parameter. FIFO fairness and the timing assertions of the atomic-cache tests are not modelled.
- Exception classes and message texts. Errors are constructors of `CacheErrors.Error`. `Error` and `DomainException` become `InvalidTtl` or `MissingKey`. Wrapped causes are kept as `CacheException(message, previous)`.
- Concrete serializers other than the pass-through default. A serializer is any pair of functions, and round trips are proved only for serializers that satisfy `RoundTrips`.
- Other PHP array behaviour:
  - Numeric-string keys are converted to integers and renumbered by `array_shift`.
  - `isset` treats a stored null as missing.
  - The stability of `asort` among equal expiries: the model sorts stably.
  - Keys are opaque strings and stored values are non-null.
- The `Cache` interface of `src/`. `src/Cache.php` is not part of this model. The atomic caches and adapters wrap `CacheStore.Store`, a reference store that does not expire values within one call. Its writes either always throw or never do. Whether its reads throw changes only while a call waits for a lock.
- `lib/FileCache.php`, `lib/Redis.php` and `lib/RedisCache.php`: file-system and network I/O.
- test/ArrayCacheTest.php and test/StringCacheTest.php. The first expects behaviour that `lib/ArrayCache.php` does not have; the second is an abstract harness. test/AtomicCacheTest.php uses older method names; its two scenarios above are restated against `compute` and `computeIfAbsent`.
- SrcAtomicCache.AtomicCache.Compute, ComputeIfAbsent, ComputeIfPresent and Delete require that the caller does not already hold the key's lock. In the code such a call would wait for itself forever.
- LibAtomicCache.AtomicCache.Load, SwapAsWritten, Swap, Set and Delete have the same requirement, for the same reason.
- The store that `lib/AtomicCache.php` wraps follows the newer store contract. Its `get` answers null for a missing key and its deletion is `delete`. `lib/Cache.php` instead declares `del`, and `lib/ArrayCache.php`'s `get` fails on a missing key. The lib atomic cache therefore wraps `CacheStore.Store`, not `LibArrayCache.ArrayCache`. The model does not capture what happens when it is given a `lib/Cache.php` implementation.
- LibAtomicCache.AtomicCache.constructor takes the serializer as a required argument. In the code it is optional, and null falls back to `PassthroughSerializer`. That default is `Serialization.Passthrough`, which callers pass explicitly.
- The release of a lock when its lock object is destroyed. The lock class is not part of this model. A lock that is not released explicitly stays in `KeyedMutex.held`.
- LocalCacheScenarios.SetFoo and LocalCacheScenarios.LimitEvictsOldest use the strings "1"…"6" where the test stores the integers 1…6. The string store of the model holds strings only.

## Findings

| source | as written | input that shows it | evidently intended | confidence | as-written member | corrected member |
|---|---|---|---|---|---|---|
| lib/AtomicCache.php:96-105 | the value is read after the lock is taken but before the `try` whose `finally` releases it | a wrapped store whose `get` fails, then `swap("key", …)` | `swap` releases the lock on every path, as `load` does | medium (swap itself does not release the lock on this path; whether the lock object releases itself later depends on its class, which is not part of this model), not executed | LibAtomicCache.AtomicCache.SwapAsWritten | LibAtomicCache.AtomicCache.Swap |
| lib/ArrayCache.php:64 | `has` compares `time()` with `cacheTimeouts[$key]` without checking that the key has an expiry; the missing index reads as null, and `time() > null` holds | `set("foo", "bar")` with no TTL, then `has("foo")` at any second but zero | an entry without an expiry never expires, as in `get` of the newer stores | high, not executed | LibArrayCache.ArrayCache.HasAsWritten | LibArrayCache.ArrayCache.Has |
| lib/ArrayCache.php:118 | `del` resolves with `$exists`, which is never assigned, so it always resolves with null | `set("foo", "bar")`, then `del("foo")` | it resolves with whether the key existed, as `lib/Cache.php` says | high, not executed | LibArrayCache.ArrayCache.DelAsWritten | LibArrayCache.ArrayCache.Del |
