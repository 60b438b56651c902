/**
 * The compute layer of the synchronous API (src/AtomicCache.php): each
 * operation locks the key in a keyed mutex, reads and writes the wrapped
 * store, and releases the lock in a `finally` block.
 *
 * Other tasks run only while this one waits for a lock; what they write to
 * the store meanwhile is the parameter `whileWaiting`, applied as the lock
 * is granted.
 */
module SrcAtomicCache {
  import opened Wrappers
  import opened CacheErrors
  import opened PhpArrays
  import opened KeyedMutexes
  import opened Callbacks
  import opened CacheStore

  /** The `CacheException` that `lock` raises, chaining what `acquire` threw. */
  function LockError(key: Key): Error {
    CacheException(LockFailed(key), Some(MutexFailure))
  }

  /**
   * What `create` resolves to, and the entries it leaves, when the callback
   * produced `o` over the entries `before`: a throwing callback is wrapped in
   * a `CacheException` and nothing is stored; otherwise its value is passed
   * to the store's `set`, whose failure propagates.
   */
  ghost predicate Created<V>(before: map<Key, Entry<V>>, key: Key, o: CallbackResult<V>, ttl: Option<int>,
                             failWrites: bool, r: Result<Option<V>, Error>, after: map<Key, Entry<V>>)
  {
    match o
    case Threw(cause) => r == Failure(CacheException(CreateFailed(key), Some(cause))) && after == before
    case Returned(v) =>
      var s := SetOutcome(v, ttl, failWrites);
      if s.Pass? then r == Success(v) && after == before[key := Entry(v.value, ttl)]
      else r == Failure(s.error) && after == before
  }

  class AtomicCache<V> {
    const cache: Store<V>
    const mutex: KeyedMutex

    constructor (cache: Store<V>, mutex: KeyedMutex)
      ensures this.cache == cache && this.mutex == mutex
    {
      this.cache := cache;
      this.mutex := mutex;
    }

    /**
     * Takes the lock of `key`, during which other tasks may write to the
     * store; a failing `acquire` is rethrown as a `CacheException` chaining
     * it, and then nothing else happens.
     */
    method Lock(key: Key, whileWaiting: seq<Write<V>>) returns (r: Outcome<Error>)
      requires key !in mutex.held
      modifies mutex, cache
      ensures mutex.requests == old(mutex.requests) + [key] && cache.log == old(cache.log)
      ensures r.Fail? <==> mutex.broken
      ensures r.Fail? ==> r.error == LockError(key) && mutex.held == old(mutex.held)
                          && cache.entries == old(cache.entries) && cache.failReads == old(cache.failReads)
      ensures r.Pass? ==> mutex.held == old(mutex.held) + {key}
                          && cache.entries == Applied(old(cache.entries), whileWaiting)
                          && cache.failReads == ReadsFailAfter(old(cache.failReads), whileWaiting)
    {
      var acquired := mutex.Acquire(key);
      if acquired.Fail? {
        return Fail(CacheException(LockFailed(key), Some(acquired.error)));
      }
      cache.Interleave(whileWaiting);
      return Pass;
    }

    /** Invokes the callback once and stores what it returns under `key` with `ttl`. */
    method Create(compute: Callback<V>, key: Key, current: Option<V>, ttl: Option<int>) returns (r: Result<Option<V>, Error>)
      modifies cache, compute
      ensures compute.calls == old(compute.calls) + [(key, current)]
      ensures Created(old(cache.entries), key, compute.f(key, current), ttl, cache.failWrites, r, cache.entries)
      ensures cache.log == old(cache.log) + if compute.f(key, current).Threw? then [] else [SetCall(key)]
      ensures cache.failReads == old(cache.failReads)
    {
      var o := compute.Invoke(key, current);
      if o.Threw? {
        return Failure(CacheException(CreateFailed(key), Some(o.cause)));
      }
      var stored := cache.Set(key, o.value, ttl);
      if stored.Fail? {
        return Failure(stored.error);
      }
      return Success(o.value);
    }

    /**
     * Locks the key, invokes the callback once with the value read under
     * the lock (null when there is none), stores its result and returns it.
     */
    method Compute(key: Key, compute: Callback<V>, ttl: Option<int>, whileWaiting: seq<Write<V>>)
      returns (r: Result<Option<V>, Error>)
      requires key !in mutex.held
      modifies mutex, cache, compute
      ensures mutex.held == old(mutex.held) && mutex.requests == old(mutex.requests) + [key]
      ensures mutex.broken ==> r == Failure(LockError(key)) && cache.entries == old(cache.entries)
                               && cache.log == old(cache.log) && compute.calls == old(compute.calls)
                               && cache.failReads == old(cache.failReads)
      ensures !mutex.broken ==> cache.failReads == ReadsFailAfter(old(cache.failReads), whileWaiting)
      ensures !mutex.broken && ReadsFailAfter(old(cache.failReads), whileWaiting) ==>
                r == Failure(StoreFailure) && cache.entries == Applied(old(cache.entries), whileWaiting)
                && compute.calls == old(compute.calls)
      ensures !mutex.broken && !ReadsFailAfter(old(cache.failReads), whileWaiting) ==>
                var underLock := Applied(old(cache.entries), whileWaiting);
                var current := ValueOf(underLock, key);
                compute.calls == old(compute.calls) + [(key, current)]
                && Created(underLock, key, compute.f(key, current), ttl, cache.failWrites, r, cache.entries)
    {
      var locked := Lock(key, whileWaiting);
      if locked.Fail? {
        return Failure(locked.error);
      }
      var value := cache.Get(key);
      if value.Failure? {
        mutex.Release(key);
        return Failure(value.error);
      }
      r := Create(compute, key, value.value, ttl);
      mutex.Release(key);
    }

    /**
     * Returns the stored value if there is one, without locking or invoking
     * the callback. Otherwise locks the key and reads again, since another
     * task may have stored a value meanwhile; only if there is still none is
     * the callback invoked (with null) and its result stored.
     */
    method ComputeIfAbsent(key: Key, compute: Callback<V>, ttl: Option<int>, whileWaiting: seq<Write<V>>)
      returns (r: Result<Option<V>, Error>)
      requires key !in mutex.held
      modifies mutex, cache, compute
      ensures mutex.held == old(mutex.held)
      ensures cache.failReads == if old(cache.failReads) || old(cache.Peek(key)).Some? || mutex.broken
                                 then old(cache.failReads) else ReadsFailAfter(old(cache.failReads), whileWaiting)
      ensures old(cache.failReads) ==>
                r == Failure(StoreFailure) && cache.entries == old(cache.entries)
                && mutex.requests == old(mutex.requests) && compute.calls == old(compute.calls)
      ensures !old(cache.failReads) && old(cache.Peek(key)).Some? ==>
                r == Success(old(cache.Peek(key))) && cache.entries == old(cache.entries)
                && cache.log == old(cache.log) + [GetCall(key)]
                && mutex.requests == old(mutex.requests) && compute.calls == old(compute.calls)
      ensures !old(cache.failReads) && old(cache.Peek(key)).None? && mutex.broken ==>
                r == Failure(LockError(key)) && cache.entries == old(cache.entries) && compute.calls == old(compute.calls)
      ensures !old(cache.failReads) && old(cache.Peek(key)).None? && !mutex.broken ==>
                var underLock := Applied(old(cache.entries), whileWaiting);
                mutex.requests == old(mutex.requests) + [key] &&
                if ReadsFailAfter(old(cache.failReads), whileWaiting)
                then r == Failure(StoreFailure) && cache.entries == underLock && compute.calls == old(compute.calls)
                else if ValueOf(underLock, key).Some?
                then r == Success(ValueOf(underLock, key)) && cache.entries == underLock
                     && compute.calls == old(compute.calls)
                else compute.calls == old(compute.calls) + [(key, None)]
                     && Created(underLock, key, compute.f(key, None), ttl, cache.failWrites, r, cache.entries)
    {
      var value := cache.Get(key);
      if value.Failure? {
        return Failure(value.error);
      }
      if value.value.Some? {
        return Success(value.value);
      }
      var locked := Lock(key, whileWaiting);
      if locked.Fail? {
        return Failure(locked.error);
      }
      var again := cache.Get(key);
      if again.Failure? {
        r := Failure(StoreFailure);
      } else if again.value.Some? {
        r := again;
      } else {
        r := Create(compute, key, None, ttl);
      }
      mutex.Release(key);
    }

    /**
     * Returns null, without locking or invoking the callback, when nothing
     * is stored. Otherwise locks the key and reads again; if the value is
     * still there the callback is invoked with it and its result stored,
     * and if it has gone meanwhile null is returned.
     */
    method ComputeIfPresent(key: Key, compute: Callback<V>, ttl: Option<int>, whileWaiting: seq<Write<V>>)
      returns (r: Result<Option<V>, Error>)
      requires key !in mutex.held
      modifies mutex, cache, compute
      ensures mutex.held == old(mutex.held)
      ensures cache.failReads == if old(cache.failReads) || old(cache.Peek(key)).None? || mutex.broken
                                 then old(cache.failReads) else ReadsFailAfter(old(cache.failReads), whileWaiting)
      ensures old(cache.failReads) ==>
                r == Failure(StoreFailure) && cache.entries == old(cache.entries)
                && mutex.requests == old(mutex.requests) && compute.calls == old(compute.calls)
      ensures !old(cache.failReads) && old(cache.Peek(key)).None? ==>
                r == Success(None) && cache.entries == old(cache.entries)
                && mutex.requests == old(mutex.requests) && compute.calls == old(compute.calls)
      ensures !old(cache.failReads) && old(cache.Peek(key)).Some? && mutex.broken ==>
                r == Failure(LockError(key)) && cache.entries == old(cache.entries) && compute.calls == old(compute.calls)
      ensures !old(cache.failReads) && old(cache.Peek(key)).Some? && !mutex.broken ==>
                var underLock := Applied(old(cache.entries), whileWaiting);
                var current := ValueOf(underLock, key);
                mutex.requests == old(mutex.requests) + [key] &&
                if ReadsFailAfter(old(cache.failReads), whileWaiting)
                then r == Failure(StoreFailure) && cache.entries == underLock && compute.calls == old(compute.calls)
                else if current.None?
                then r == Success(None) && cache.entries == underLock && compute.calls == old(compute.calls)
                else compute.calls == old(compute.calls) + [(key, current)]
                     && Created(underLock, key, compute.f(key, current), ttl, cache.failWrites, r, cache.entries)
    {
      var value := cache.Get(key);
      if value.Failure? {
        return Failure(value.error);
      }
      if value.value.None? {
        return Success(None);
      }
      var locked := Lock(key, whileWaiting);
      if locked.Fail? {
        return Failure(locked.error);
      }
      var again := cache.Get(key);
      if again.Failure? {
        r := Failure(StoreFailure);
      } else if again.value.None? {
        r := Success(None);
      } else {
        r := Create(compute, key, again.value, ttl);
      }
      mutex.Release(key);
    }

    /** Locks the key, then answers exactly what the store's `delete` answers. */
    method Delete(key: Key, whileWaiting: seq<Write<V>>) returns (r: Result<Option<bool>, Error>)
      requires key !in mutex.held
      modifies mutex, cache
      ensures mutex.held == old(mutex.held) && mutex.requests == old(mutex.requests) + [key]
      ensures mutex.broken ==> r == Failure(LockError(key)) && cache.entries == old(cache.entries)
                               && cache.log == old(cache.log)
      ensures !mutex.broken ==>
                var underLock := Applied(old(cache.entries), whileWaiting);
                cache.log == old(cache.log) + [DeleteCall(key)] &&
                if cache.failWrites then r == Failure(StoreFailure) && cache.entries == underLock
                else r == Success(Some(key in underLock)) && cache.entries == underLock - {key}
    {
      var locked := Lock(key, whileWaiting);
      if locked.Fail? {
        return Failure(locked.error);
      }
      r := cache.Delete(key);
      mutex.Release(key);
    }
  }
}
