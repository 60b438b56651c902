/**
 * The serializing adapter of the synchronous API (src/SerializedCache.php):
 * values of any type are kept in a string store as their serialized form.
 */
module SrcSerializedCache {
  import opened Wrappers
  import opened CacheErrors
  import opened PhpArrays
  import opened CacheStore
  import opened Serialization

  class SerializedCache<V(!new)> {
    const cache: Store<string>
    const serializer: Serializer<V>

    constructor (cache: Store<string>, serializer: Serializer<V>)
      ensures this.cache == cache && this.serializer == serializer
    {
      this.cache := cache;
      this.serializer := serializer;
    }

    /** The inner store's answer, unserialized unless it is null. */
    method Get(key: Key) returns (r: Result<Option<V>, Error>)
      modifies cache
      ensures cache.entries == old(cache.entries) && cache.log == old(cache.log) + [GetCall(key)]
      ensures cache.failReads == old(cache.failReads)
      ensures r == if old(cache.failReads) then Failure(StoreFailure) else Decode(serializer, old(cache.Peek(key)))
      ensures !old(cache.failReads) && old(cache.Peek(key)).None? ==> r == Success(None)
    {
      var data := cache.Get(key);
      if data.Failure? {
        return Failure(data.error);
      }
      return Decode(serializer, data.value);
    }

    /**
     * Refuses null, then stores the serialized value under the same key and
     * TTL; a failing `serialize` propagates and the inner store is not
     * called. With a round-trip serializer, a read then returns the value.
     */
    method Set(key: Key, value: Option<V>, ttl: Option<int>) returns (r: Outcome<Error>)
      modifies cache
      ensures value.None? ==> r == Fail(CacheException(NullNotStorable, None))
      ensures value.Some? && serializer.serialize(value).Failure? ==> r == Fail(serializer.serialize(value).error)
      ensures value.None? || serializer.serialize(value).Failure? ==>
                cache.entries == old(cache.entries) && cache.log == old(cache.log)
      ensures value.Some? && serializer.serialize(value).Success? ==>
                var data := serializer.serialize(value).value;
                cache.log == old(cache.log) + [SetCall(key)]
                && r == SetOutcome(Some(data), ttl, cache.failWrites)
                && (r.Pass? ==> cache.entries == old(cache.entries)[key := Entry(data, ttl)])
                && (r.Fail? ==> cache.entries == old(cache.entries))
      ensures r.Pass? && RoundTrips(serializer) ==> Decode(serializer, cache.Peek(key)) == Success(value)
    {
      if value.None? {
        return Fail(CacheException(NullNotStorable, None));
      }
      var data := serializer.serialize(value);
      if data.Failure? {
        return Fail(data.error);
      }
      r := cache.Set(key, Some(data.value), ttl);
    }

    /** Forwards to the inner store and answers what it answers. */
    method Delete(key: Key) returns (r: Result<Option<bool>, Error>)
      modifies cache
      ensures cache.log == old(cache.log) + [DeleteCall(key)]
      ensures cache.failReads == old(cache.failReads)
      ensures cache.failWrites ==> r == Failure(StoreFailure) && cache.entries == old(cache.entries)
      ensures !cache.failWrites ==> r == Success(Some(key in old(cache.entries))) && cache.entries == old(cache.entries) - {key}
    {
      r := cache.Delete(key);
    }
  }
}
