/**
 * The promise-era in-memory store (lib/ArrayCache.php). It keeps the same
 * state object as the newer store, has no size limit and answers through
 * promises, modelled here as `Result` values. A TTL is whatever the caller
 * passed, so it may be missing, an integer, or a value of another type.
 */
module LibArrayCache {
  import opened Wrappers
  import opened CacheErrors
  import opened PhpArrays
  import opened ExpiringState
  import LibCache

  /** The `$ttl` argument of `set`: absent or null, an integer, or any other value. */
  datatype Ttl = NoTtl | IntTtl(seconds: int) | OtherTtl

  /**
   * What `has` compares the clock with for an entry that has no recorded
   * expiry: the undefined index reads as null, and PHP orders an integer
   * against null by truthiness, so `now > null` holds exactly when `now`
   * is not zero.
   */
  predicate AsWrittenExpired(t: OrderedMap<int>, key: Key, now: int) {
    if key in t.values then now > t.values[key] else now != 0
  }

  class ArrayCache {
    const sharedState: CacheState

    ghost predicate Valid()
      reads this, sharedState
    {
      sharedState.Valid()
    }

    constructor ()
      ensures Valid() && fresh(sharedState)
      ensures sharedState.cache == Empty() && sharedState.cacheTimeouts == Empty() && !sharedState.isSortNeeded
    {
      sharedState := new CacheState();
    }

    /**
     * `has` as the code reads: it looks the expiry up without checking that
     * there is one, so an entry stored without a TTL is purged and reported
     * missing at every second but zero.
     */
    method HasAsWritten(key: Key, now: int) returns (r: Result<bool, Error>)
      requires Valid()
      modifies sharedState
      ensures Valid() && LibCache.HasResolvesBool(r)
      ensures r.value <==> key in old(sharedState.cache.values) && !AsWrittenExpired(old(sharedState.cacheTimeouts), key, now)
      ensures key in old(sharedState.cache.values) && key !in old(sharedState.cacheTimeouts.values) && now != 0 ==>
                r == Success(false) && key !in sharedState.cache.values
      ensures if key in old(sharedState.cache.values) && !r.value
              then sharedState.cache == old(sharedState.cache).Unset(key)
                   && sharedState.cacheTimeouts == old(sharedState.cacheTimeouts).Unset(key)
              else sharedState.cache == old(sharedState.cache) && sharedState.cacheTimeouts == old(sharedState.cacheTimeouts)
      ensures sharedState.isSortNeeded == old(sharedState.isSortNeeded)
    {
      if key !in sharedState.cache.values {
        return Success(false);
      }
      if AsWrittenExpired(sharedState.cacheTimeouts, key, now) {
        UnsetAllSorted(sharedState.cacheTimeouts, {key});
        sharedState.Expire(key);
        return Success(false);
      }
      return Success(true);
    }

    /**
     * `has` with the existence check the expiry lookup needs: true exactly
     * when a value is stored and has not expired; an expired one is purged.
     */
    method Has(key: Key, now: int) returns (r: Result<bool, Error>)
      requires Valid()
      modifies sharedState
      ensures Valid() && LibCache.HasResolvesBool(r)
      ensures r.value <==> Lookup(old(sharedState.cache), old(sharedState.cacheTimeouts), key, now).Some?
      ensures key !in old(sharedState.cacheTimeouts.values) ==> r.value == (key in old(sharedState.cache.values))
      ensures LibCache.UntimedStaysPresent(key in old(sharedState.cache.values) && key !in old(sharedState.cacheTimeouts.values), r)
      ensures if key in old(sharedState.cache.values) && !r.value
              then sharedState.cache == old(sharedState.cache).Unset(key)
                   && sharedState.cacheTimeouts == old(sharedState.cacheTimeouts).Unset(key)
              else sharedState.cache == old(sharedState.cache) && sharedState.cacheTimeouts == old(sharedState.cacheTimeouts)
      ensures sharedState.isSortNeeded == old(sharedState.isSortNeeded)
    {
      if key !in sharedState.cache.values {
        return Success(false);
      }
      if key in sharedState.cacheTimeouts.values && now > sharedState.cacheTimeouts.values[key] {
        UnsetAllSorted(sharedState.cacheTimeouts, {key});
        sharedState.Expire(key);
        return Success(false);
      }
      return Success(true);
    }

    /**
     * The stored value, or a failure when the key is missing. There is no
     * expiry check: a value past its expiry is returned until the sweep or
     * `has` removes it.
     */
    function Get(key: Key): (r: Result<string, Error>)
      reads sharedState
      ensures LibCache.GetFailsWhenMissing(key in sharedState.cache.values, r)
      ensures r.Success? <==> key in sharedState.cache.values
      ensures r.Success? ==> r.value == sharedState.cache.values[key]
      ensures r.Failure? ==> r.error == MissingKey
    {
      if key in sharedState.cache.values then Success(sharedState.cache.values[key]) else Failure(MissingKey)
    }

    /**
     * Stores `value` under `key`: in place when the key is present, as the
     * newest entry otherwise; there is no size limit. A missing TTL removes
     * the key's expiry, a non-negative integer records `now + ttl`, and any
     * other TTL fails without changing anything.
     */
    method Set(key: Key, value: string, ttl: Ttl, now: int) returns (r: Outcome<Error>)
      requires Valid()
      modifies sharedState
      ensures Valid()
      ensures r.Fail? <==> ttl.OtherTtl? || (ttl.IntTtl? && ttl.seconds < 0)
      ensures r.Fail? ==> r.error == InvalidTtl && sharedState.cache == old(sharedState.cache)
                          && sharedState.cacheTimeouts == old(sharedState.cacheTimeouts)
                          && sharedState.isSortNeeded == old(sharedState.isSortNeeded)
      ensures r.Pass? ==> sharedState.cache == old(sharedState.cache).Assign(key, value)
      ensures ttl.NoTtl? ==> sharedState.cacheTimeouts == old(sharedState.cacheTimeouts).Unset(key)
                             && sharedState.isSortNeeded == old(sharedState.isSortNeeded)
      ensures ttl.IntTtl? && ttl.seconds >= 0 ==>
                sharedState.cacheTimeouts == old(sharedState.cacheTimeouts).Assign(key, now + ttl.seconds)
                && sharedState.isSortNeeded
      ensures LibCache.SetOverrides(r, Get(key), value)
    {
      match ttl {
        case NoTtl =>
          UnsetAllSorted(sharedState.cacheTimeouts, {key});
          sharedState.cacheTimeouts := sharedState.cacheTimeouts.Unset(key);
        case IntTtl(seconds) =>
          if seconds < 0 {
            return Fail(InvalidTtl);
          }
          var expiry := now + seconds;
          sharedState.cacheTimeouts := sharedState.cacheTimeouts.Assign(key, expiry);
          sharedState.isSortNeeded := true;
        case OtherTtl =>
          return Fail(InvalidTtl);
      }
      sharedState.cache := sharedState.cache.Assign(key, value);
      return Pass;
    }

    /**
     * `del` as the code reads: both arrays lose the key, and the promise
     * resolves with the never-assigned `$exists`, that is with null.
     */
    method DelAsWritten(key: Key) returns (r: Result<Option<bool>, Error>)
      requires Valid()
      modifies sharedState
      ensures Valid() && LibCache.DelSucceeds(r)
      ensures r == Success(None)
      ensures key in old(sharedState.cache.values) ==> !LibCache.DelReportsExistence(true, r)
      ensures sharedState.cache == old(sharedState.cache).Unset(key)
              && sharedState.cacheTimeouts == old(sharedState.cacheTimeouts).Unset(key)
      ensures sharedState.isSortNeeded == old(sharedState.isSortNeeded)
    {
      UnsetAllSorted(sharedState.cacheTimeouts, {key});
      sharedState.Expire(key);
      return Success(None);
    }

    /** `del` resolving, as the interface asks, with whether the key existed when it was called. */
    method Del(key: Key) returns (r: Result<Option<bool>, Error>)
      requires Valid()
      modifies sharedState
      ensures Valid() && LibCache.DelSucceeds(r)
      ensures LibCache.DelReportsExistence(key in old(sharedState.cache.values), r)
      ensures sharedState.cache == old(sharedState.cache).Unset(key)
              && sharedState.cacheTimeouts == old(sharedState.cacheTimeouts).Unset(key)
      ensures sharedState.isSortNeeded == old(sharedState.isSortNeeded)
      ensures Get(key).Failure?
    {
      var existed := key in sharedState.cache.values;
      UnsetAllSorted(sharedState.cacheTimeouts, {key});
      sharedState.Expire(key);
      return Success(Some(existed));
    }

    /** One run of the TTL watcher at second `now`. */
    method CollectGarbage(now: int)
      requires Valid()
      modifies sharedState
      ensures Valid() && !sharedState.isSortNeeded
      ensures sharedState.cache == old(sharedState.cache).UnsetAll(ExpiredKeys(old(sharedState.cacheTimeouts), now))
      ensures sharedState.cacheTimeouts.values ==
                old(sharedState.cacheTimeouts.values) - ExpiredKeys(old(sharedState.cacheTimeouts), now)
      ensures forall k :: k in sharedState.cacheTimeouts.values ==> now <= sharedState.cacheTimeouts.values[k]
      ensures forall k :: k !in old(sharedState.cacheTimeouts.values) ==> Get(k) == old(Get(k))
    {
      sharedState.CollectGarbage(now);
    }

    /** The destructor: both arrays are emptied. */
    method Clear()
      requires Valid()
      modifies sharedState
      ensures Valid()
      ensures sharedState.cache == Empty() && sharedState.cacheTimeouts == Empty()
      ensures forall k :: Get(k).Failure?
    {
      sharedState.Clear();
    }
  }
}
