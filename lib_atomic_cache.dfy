/**
 * The promise-era compute layer (lib/AtomicCache.php): a keyed mutex over a
 * string store, with a serializer between the caller's values and the
 * strings the store keeps. Its store is read through `get`, which answers
 * null for a missing key.
 *
 * As in the synchronous layer, other tasks run only while this one waits
 * for a lock, and what they write meanwhile is the parameter `whileWaiting`.
 */
module LibAtomicCache {
  import opened Wrappers
  import opened CacheErrors
  import opened PhpArrays
  import opened KeyedMutexes
  import opened Callbacks
  import opened CacheStore
  import opened Serialization

  /** The `CacheException` that `lock` raises, chaining what `acquire` threw. */
  function LockError(key: Key): Error {
    CacheException(LockFailed(key), Some(MutexFailure))
  }

  /** What this layer's `get` answers over the entries `entries`. */
  function Read<V>(s: Serializer<V>, entries: map<Key, Entry<string>>, key: Key, failReads: bool): Result<Option<V>, Error> {
    if failReads then Failure(StoreFailure) else Decode(s, ValueOf(entries, key))
  }

  /**
   * What `create` resolves to, and the entries it leaves, when the callback
   * produced `o` over the entries `before`: a throwing callback is wrapped
   * in a `CacheException`, a null result is refused with one, a failing
   * `serialize` propagates, and in those cases nothing is stored; otherwise
   * the serialized value goes to the store's `set`, and the callback's own
   * value is the answer.
   */
  ghost predicate Created<V>(s: Serializer<V>, before: map<Key, Entry<string>>, key: Key, o: CallbackResult<V>,
                             ttl: Option<int>, failWrites: bool, r: Result<Option<V>, Error>,
                             after: map<Key, Entry<string>>)
  {
    match o
    case Threw(cause) => r == Failure(CacheException(CreateFailed(key), Some(cause))) && after == before
    case Returned(v) =>
      if v.None? then r == Failure(CacheException(NullNotStorable, None)) && after == before
      else if s.serialize(v).Failure? then r == Failure(s.serialize(v).error) && after == before
      else
        var data := s.serialize(v).value;
        var stored := SetOutcome(Some(data), ttl, failWrites);
        if stored.Pass? then r == Success(v) && after == before[key := Entry(data, ttl)]
        else r == Failure(stored.error) && after == before
  }

  class AtomicCache<V(!new)> {
    const cache: Store<string>
    const mutex: KeyedMutex
    const serializer: Serializer<V>

    /** The default `PassthroughSerializer` is `Serialization.Passthrough`, passed explicitly. */
    constructor (cache: Store<string>, mutex: KeyedMutex, serializer: Serializer<V>)
      ensures this.cache == cache && this.mutex == mutex && this.serializer == serializer
    {
      this.cache := cache;
      this.mutex := mutex;
      this.serializer := serializer;
    }

    /** The stored data, unserialized unless it is null; a failing read or `unserialize` propagates. */
    method Get(key: Key) returns (r: Result<Option<V>, Error>)
      modifies cache
      ensures cache.entries == old(cache.entries) && cache.log == old(cache.log) + [GetCall(key)]
      ensures cache.failReads == old(cache.failReads)
      ensures r == Read(serializer, old(cache.entries), key, old(cache.failReads))
      ensures !old(cache.failReads) && old(cache.Peek(key)).None? ==> r == Success(None)
    {
      var data := cache.Get(key);
      if data.Failure? {
        return Failure(data.error);
      }
      return Decode(serializer, data.value);
    }

    /** Takes the lock of `key`; a failing `acquire` is rethrown as a `CacheException` chaining it. */
    method Lock(key: Key, whileWaiting: seq<Write<string>>) returns (r: Outcome<Error>)
      requires key !in mutex.held
      modifies mutex, cache
      ensures mutex.requests == old(mutex.requests) + [key] && cache.log == old(cache.log)
      ensures r.Fail? <==> mutex.broken
      ensures r.Fail? ==> r.error == LockError(key) && mutex.held == old(mutex.held)
                          && cache.entries == old(cache.entries) && cache.failReads == old(cache.failReads)
      ensures r.Pass? ==> mutex.held == old(mutex.held) + {key}
                          && cache.entries == Applied(old(cache.entries), whileWaiting)
                          && cache.failReads == ReadsFailAfter(old(cache.failReads), whileWaiting)
    {
      var acquired := mutex.Acquire(key);
      if acquired.Fail? {
        return Fail(CacheException(LockFailed(key), Some(acquired.error)));
      }
      cache.Interleave(whileWaiting);
      return Pass;
    }

    /** Invokes the callback once, refuses a null result, and stores the serialized value. */
    method Create(create: Callback<V>, key: Key, current: Option<V>, ttl: Option<int>) returns (r: Result<Option<V>, Error>)
      modifies cache, create
      ensures create.calls == old(create.calls) + [(key, current)]
      ensures Created(serializer, old(cache.entries), key, create.f(key, current), ttl, cache.failWrites, r, cache.entries)
      ensures cache.failReads == old(cache.failReads)
    {
      var o := create.Invoke(key, current);
      if o.Threw? {
        return Failure(CacheException(CreateFailed(key), Some(o.cause)));
      }
      if o.value.None? {
        return Failure(CacheException(NullNotStorable, None));
      }
      var data := serializer.serialize(o.value);
      if data.Failure? {
        return Failure(data.error);
      }
      var stored := cache.Set(key, Some(data.value), ttl);
      if stored.Fail? {
        return Failure(stored.error);
      }
      return Success(o.value);
    }

    /**
     * Returns the stored value if there is one, without locking or invoking
     * the callback. Otherwise locks the key and reads again; only if there
     * is still no value is the callback invoked (with null) and its result
     * stored. The lock is released on every path.
     */
    method Load(key: Key, create: Callback<V>, ttl: Option<int>, whileWaiting: seq<Write<string>>)
      returns (r: Result<Option<V>, Error>)
      requires key !in mutex.held
      modifies mutex, cache, create
      ensures mutex.held == old(mutex.held)
      ensures var first := Read(serializer, old(cache.entries), key, old(cache.failReads));
              first.Failure? || first.value.Some? ==>
                r == first && cache.entries == old(cache.entries) && mutex.requests == old(mutex.requests)
                && create.calls == old(create.calls)
      ensures var first := Read(serializer, old(cache.entries), key, old(cache.failReads));
              first == Success(None) && mutex.broken ==>
                r == Failure(LockError(key)) && cache.entries == old(cache.entries) && create.calls == old(create.calls)
      ensures var first := Read(serializer, old(cache.entries), key, old(cache.failReads));
              first == Success(None) && !mutex.broken ==>
                var underLock := Applied(old(cache.entries), whileWaiting);
                var again := Read(serializer, underLock, key, ReadsFailAfter(old(cache.failReads), whileWaiting));
                mutex.requests == old(mutex.requests) + [key] &&
                if again.Failure? || again.value.Some?
                then r == again && cache.entries == underLock && create.calls == old(create.calls)
                else create.calls == old(create.calls) + [(key, None)]
                     && Created(serializer, underLock, key, create.f(key, None), ttl, cache.failWrites, r, cache.entries)
    {
      var value := Get(key);
      if value.Failure? || value.value.Some? {
        return value;
      }
      var locked := Lock(key, whileWaiting);
      if locked.Fail? {
        return Failure(locked.error);
      }
      var again := Get(key);
      if again.Failure? || again.value.Some? {
        r := again;
      } else {
        r := Create(create, key, None, ttl);
      }
      mutex.Release(key);
    }

    /**
     * `swap` as the code reads: the value is read after locking but before
     * the `try` block, so when that read fails the lock is never released.
     */
    method SwapAsWritten(key: Key, modifier: Callback<V>, ttl: Option<int>, whileWaiting: seq<Write<string>>)
      returns (r: Result<Option<V>, Error>)
      requires key !in mutex.held
      modifies mutex, cache, modifier
      ensures mutex.requests == old(mutex.requests) + [key]
      ensures mutex.broken ==> r == Failure(LockError(key)) && mutex.held == old(mutex.held)
                               && cache.entries == old(cache.entries) && modifier.calls == old(modifier.calls)
      ensures !mutex.broken ==>
                var underLock := Applied(old(cache.entries), whileWaiting);
                var current := Read(serializer, underLock, key, ReadsFailAfter(old(cache.failReads), whileWaiting));
                if current.Failure?
                then r == current && mutex.held == old(mutex.held) + {key} && cache.entries == underLock
                     && modifier.calls == old(modifier.calls)
                else mutex.held == old(mutex.held)
                     && modifier.calls == old(modifier.calls) + [(key, current.value)]
                     && Created(serializer, underLock, key, modifier.f(key, current.value), ttl, cache.failWrites, r, cache.entries)
    {
      var locked := Lock(key, whileWaiting);
      if locked.Fail? {
        return Failure(locked.error);
      }
      var value := Get(key);
      if value.Failure? {
        return value;
      }
      r := Create(modifier, key, value.value, ttl);
      mutex.Release(key);
    }

    /**
     * `swap` with the read inside the `try` block: locks the key, invokes
     * the callback once with the value read under the lock, stores its
     * result and returns it, and releases the lock on every path.
     */
    method Swap(key: Key, modifier: Callback<V>, ttl: Option<int>, whileWaiting: seq<Write<string>>)
      returns (r: Result<Option<V>, Error>)
      requires key !in mutex.held
      modifies mutex, cache, modifier
      ensures mutex.held == old(mutex.held) && mutex.requests == old(mutex.requests) + [key]
      ensures mutex.broken ==> r == Failure(LockError(key)) && cache.entries == old(cache.entries)
                               && modifier.calls == old(modifier.calls)
      ensures !mutex.broken ==>
                var underLock := Applied(old(cache.entries), whileWaiting);
                var current := Read(serializer, underLock, key, ReadsFailAfter(old(cache.failReads), whileWaiting));
                if current.Failure?
                then r == current && cache.entries == underLock && modifier.calls == old(modifier.calls)
                else modifier.calls == old(modifier.calls) + [(key, current.value)]
                     && Created(serializer, underLock, key, modifier.f(key, current.value), ttl, cache.failWrites, r, cache.entries)
    {
      var locked := Lock(key, whileWaiting);
      if locked.Fail? {
        return Failure(locked.error);
      }
      var value := Get(key);
      if value.Failure? {
        r := value;
      } else {
        r := Create(modifier, key, value.value, ttl);
      }
      mutex.Release(key);
    }

    /**
     * Fails for null without taking the lock; otherwise locks the key,
     * stores the serialized value, and releases the lock on every path.
     */
    method Set(key: Key, value: Option<V>, ttl: Option<int>, whileWaiting: seq<Write<string>>) returns (r: Outcome<Error>)
      requires key !in mutex.held
      modifies mutex, cache
      ensures mutex.held == old(mutex.held)
      ensures value.None? ==> r == Fail(CacheException(NullNotStorable, None)) && mutex.requests == old(mutex.requests)
                              && cache.entries == old(cache.entries) && cache.log == old(cache.log)
      ensures value.Some? ==> mutex.requests == old(mutex.requests) + [key]
      ensures value.Some? && mutex.broken ==> r == Fail(LockError(key)) && cache.entries == old(cache.entries)
      ensures value.Some? && !mutex.broken ==>
                var underLock := Applied(old(cache.entries), whileWaiting);
                var data := serializer.serialize(value);
                if data.Failure? then r == Fail(data.error) && cache.entries == underLock
                else r == SetOutcome(Some(data.value), ttl, cache.failWrites)
                     && cache.entries == (if r.Pass? then underLock[key := Entry(data.value, ttl)] else underLock)
    {
      if value.None? {
        return Fail(CacheException(NullNotStorable, None));
      }
      var locked := Lock(key, whileWaiting);
      if locked.Fail? {
        return locked;
      }
      var data := serializer.serialize(value);
      if data.Failure? {
        r := Fail(data.error);
      } else {
        r := cache.Set(key, Some(data.value), ttl);
      }
      mutex.Release(key);
    }

    /** Locks the key, then resolves with exactly what the store's `delete` resolves with. */
    method Delete(key: Key, whileWaiting: seq<Write<string>>) returns (r: Result<Option<bool>, Error>)
      requires key !in mutex.held
      modifies mutex, cache
      ensures mutex.held == old(mutex.held) && mutex.requests == old(mutex.requests) + [key]
      ensures mutex.broken ==> r == Failure(LockError(key)) && cache.entries == old(cache.entries)
                               && cache.log == old(cache.log)
      ensures !mutex.broken ==>
                var underLock := Applied(old(cache.entries), whileWaiting);
                cache.log == old(cache.log) + [DeleteCall(key)] &&
                if cache.failWrites then r == Failure(StoreFailure) && cache.entries == underLock
                else r == Success(Some(key in underLock)) && cache.entries == underLock - {key}
    {
      var locked := Lock(key, whileWaiting);
      if locked.Fail? {
        return Failure(locked.error);
      }
      r := cache.Delete(key);
      mutex.Release(key);
    }
  }
}
