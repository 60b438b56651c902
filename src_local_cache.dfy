/**
 * The in-memory string store of the synchronous API (src/LocalCache.php).
 * src/ArrayCache.php is the same class under its older name: the same code
 * line for line, with the state object called `sharedState` and the limit
 * `maxSize`; `LocalCache` models both.
 *
 * The clock is the parameter `now` (a whole second), and the event-loop
 * timer that runs the sweep is the method `CollectGarbage`.
 */
module SrcLocalCache {
  import opened Wrappers
  import opened CacheErrors
  import opened PhpArrays
  import opened ExpiringState

  class LocalCache {
    /** The state object shared with the garbage-collection timer. */
    const state: CacheState
    /** The maximum number of values; `None` for no limit. */
    const sizeLimit: Option<int>

    ghost predicate Valid()
      reads this, state
    {
      state.Valid() && WithinLimit(state.cache, sizeLimit)
    }

    constructor (sizeLimit: Option<int>)
      ensures Valid() && fresh(state) && this.sizeLimit == sizeLimit
      ensures state.cache == Empty() && state.cacheTimeouts == Empty() && !state.isSortNeeded
    {
      this.sizeLimit := sizeLimit;
      state := new CacheState();
    }

    /** What `Get(key, now)` answers, read off the current state. */
    function Peek(key: Key, now: int): Option<string>
      reads state
    {
      Lookup(state.cache, state.cacheTimeouts, key, now)
    }

    /**
     * The value stored under `key`, or `None` when there is none or it has
     * expired; an expired entry is purged from both arrays on the way. A
     * read never reorders the entries that remain.
     */
    method Get(key: Key, now: int) returns (r: Option<string>)
      requires Valid()
      modifies state
      ensures Valid()
      ensures r == old(Peek(key, now))
      ensures r.Some? <==> key in old(state.cache.values) && !IsExpired(old(state.cacheTimeouts), key, now)
      ensures if key in old(state.cache.values) && r.None?
              then state.cache == old(state.cache).Unset(key) && state.cacheTimeouts == old(state.cacheTimeouts).Unset(key)
              else state.cache == old(state.cache) && state.cacheTimeouts == old(state.cacheTimeouts)
      ensures state.isSortNeeded == old(state.isSortNeeded)
    {
      if key !in state.cache.values {
        return None;
      }
      if key in state.cacheTimeouts.values && now > state.cacheTimeouts.values[key] {
        UnsetCount(state.cache, key);
        UnsetAllSorted(state.cacheTimeouts, {key});
        state.Expire(key);
        return None;
      }
      return Some(state.cache.values[key]);
    }

    /**
     * Stores `value` under `key`. A `None` TTL removes any expiry, a TTL of
     * zero or more expires the value after second `now + ttl`, and a
     * negative TTL is refused before anything changes. The key becomes the
     * newest entry; when the other entries already fill the limit, the
     * oldest of them is shifted out of the values (its expiry stays behind).
     */
    method Set(key: Key, value: string, ttl: Option<int>, now: int) returns (r: Outcome<Error>)
      requires Valid()
      modifies state
      ensures Valid()
      ensures r.Fail? <==> ttl.Some? && ttl.value < 0
      ensures r.Fail? ==> r.error == InvalidTtl
      ensures r.Fail? ==> state.cache == old(state.cache) && state.cacheTimeouts == old(state.cacheTimeouts)
                          && state.isSortNeeded == old(state.isSortNeeded)
      ensures r.Pass? ==> state.cache == Replace(old(state.cache), key, value, sizeLimit)
      ensures r.Pass? ==> state.cacheTimeouts == WithTtl(old(state.cacheTimeouts), key, ttl, now)
      ensures r.Pass? ==> state.isSortNeeded == (old(state.isSortNeeded) || ttl.Some?)
    {
      if ttl.None? {
        UnsetAllSorted(state.cacheTimeouts, {key});
        state.cacheTimeouts := state.cacheTimeouts.Unset(key);
      } else if ttl.value >= 0 {
        var expiry := now + ttl.value;
        state.cacheTimeouts := state.cacheTimeouts.Assign(key, expiry);
        state.isSortNeeded := true;
      } else {
        return Fail(InvalidTtl);
      }
      ReplaceWithinLimit(state.cache, key, value, sizeLimit);
      state.cache := state.cache.Unset(key);
      if sizeLimit == Some(state.cache.Count()) {
        state.cache := state.cache.Shift();
      }
      state.cache := state.cache.Assign(key, value);
      return Pass;
    }

    /**
     * Removes `key` from both arrays and reports whether a value was stored
     * under it, expired or not.
     */
    method Delete(key: Key) returns (existed: bool)
      requires Valid()
      modifies state
      ensures Valid()
      ensures existed <==> key in old(state.cache.values)
      ensures state.cache == old(state.cache).Unset(key) && state.cacheTimeouts == old(state.cacheTimeouts).Unset(key)
      ensures state.isSortNeeded == old(state.isSortNeeded)
      ensures forall later :: Peek(key, later).None?
    {
      existed := key in state.cache.values;
      UnsetCount(state.cache, key);
      UnsetAllSorted(state.cacheTimeouts, {key});
      state.Expire(key);
    }

    /** One run of the garbage-collection timer at second `now`. */
    method CollectGarbage(now: int)
      requires Valid()
      modifies state
      ensures Valid() && !state.isSortNeeded
      ensures state.cache == old(state.cache).UnsetAll(ExpiredKeys(old(state.cacheTimeouts), now))
      ensures state.cacheTimeouts.values == old(state.cacheTimeouts.values) - ExpiredKeys(old(state.cacheTimeouts), now)
      ensures forall k :: k in state.cacheTimeouts.values ==> now <= state.cacheTimeouts.values[k]
      ensures forall k :: Peek(k, now) == old(Peek(k, now))
    {
      state.CollectGarbage(now);
    }

    /** The destructor: both arrays are emptied. */
    method Clear()
      requires Valid()
      modifies state
      ensures Valid()
      ensures state.cache == Empty() && state.cacheTimeouts == Empty()
      ensures forall k, later :: Peek(k, later).None?
    {
      state.Clear();
    }
  }
}
