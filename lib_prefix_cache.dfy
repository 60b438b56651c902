/**
 * The key-prefixing adapter under lib/ (lib/PrefixCache.php): the same
 * rewriting as the newer adapter, over a store of strings. Its methods are
 * synchronous: each returns the wrapped store's answer or throws what the
 * wrapped store throws, modelled here as a `Result`.
 */
module LibPrefixCache {
  import opened Wrappers
  import opened CacheErrors
  import opened PhpArrays
  import opened CacheStore
  import opened SrcPrefixCache

  class PrefixCache {
    const cache: Store<string>
    const keyPrefix: string

    constructor (cache: Store<string>, keyPrefix: string)
      ensures this.cache == cache && GetKeyPrefix() == keyPrefix
    {
      this.cache := cache;
      this.keyPrefix := keyPrefix;
    }

    /** The prefix given to the constructor. */
    function GetKeyPrefix(): string {
      keyPrefix
    }

    /** What `Get(key)` returns when reads succeed. */
    function Peek(key: Key): Option<string>
      reads cache
    {
      cache.Peek(PrefixedKey(keyPrefix, key))
    }

    /** Returns the wrapped store's answer for the prefixed key, or throws what its read throws. */
    method Get(key: Key) returns (r: Result<Option<string>, Error>)
      modifies cache
      ensures cache.entries == old(cache.entries)
      ensures cache.log == old(cache.log) + [GetCall(keyPrefix + key)]
      ensures cache.failReads == old(cache.failReads)
      ensures r == if old(cache.failReads) then Failure(StoreFailure) else Success(old(Peek(key)))
    {
      r := cache.Get(PrefixedKey(keyPrefix, key));
    }

    /** Stores the string and TTL under the prefixed key only. */
    method Set(key: Key, value: string, ttl: Option<int>) returns (r: Outcome<Error>)
      modifies cache
      ensures cache.log == old(cache.log) + [SetCall(keyPrefix + key)]
      ensures cache.failReads == old(cache.failReads)
      ensures r.Pass? <==> (ttl.None? || ttl.value >= 0) && !cache.failWrites
      ensures r.Pass? ==> cache.entries == old(cache.entries)[keyPrefix + key := Entry(value, ttl)]
                          && Peek(key) == Some(value)
      ensures r.Fail? ==> cache.entries == old(cache.entries)
      ensures forall k :: k != key ==> Peek(k) == old(Peek(k))
    {
      r := cache.Set(PrefixedKey(keyPrefix, key), Some(value), ttl);
      forall k | k != key
        ensures Peek(k) == old(Peek(k))
      {
        PrefixedKeyInjective(keyPrefix, k, key);
      }
    }

    /** Deletes the prefixed key and returns the wrapped store's answer, or throws what its delete throws. */
    method Delete(key: Key) returns (r: Result<Option<bool>, Error>)
      modifies cache
      ensures cache.log == old(cache.log) + [DeleteCall(keyPrefix + key)]
      ensures cache.failReads == old(cache.failReads)
      ensures cache.failWrites ==> r == Failure(StoreFailure) && cache.entries == old(cache.entries)
      ensures !cache.failWrites ==> r == Success(Some(old(Peek(key)).Some?))
                                    && cache.entries == old(cache.entries) - {keyPrefix + key}
      ensures forall k :: k != key ==> Peek(k) == old(Peek(k))
    {
      r := cache.Delete(PrefixedKey(keyPrefix, key));
      forall k | k != key
        ensures Peek(k) == old(Peek(k))
      {
        PrefixedKeyInjective(keyPrefix, k, key);
      }
    }
  }
}
