/**
 * The key-prefixing adapter of the synchronous API (src/PrefixCache.php):
 * every key is prepended with a fixed prefix before it reaches the wrapped
 * store, so several users can share one store without their keys meeting.
 */
module SrcPrefixCache {
  import opened Wrappers
  import opened CacheErrors
  import opened PhpArrays
  import opened CacheStore

  /** The key under which the wrapped store sees `key`. */
  function PrefixedKey(prefix: string, key: Key): (r: Key)
    ensures |r| == |prefix| + |key|
    ensures r[..|prefix|] == prefix && r[|prefix|..] == key
  {
    prefix + key
  }

  /** Under one prefix, distinct keys reach distinct inner keys. */
  lemma {:induction false} PrefixedKeyInjective(prefix: string, a: Key, b: Key)
    ensures PrefixedKey(prefix, a) == PrefixedKey(prefix, b) <==> a == b
  {
    if PrefixedKey(prefix, a) == PrefixedKey(prefix, b) {
      calc {
        a;
        PrefixedKey(prefix, a)[|prefix|..];
        PrefixedKey(prefix, b)[|prefix|..];
        b;
      }
    }
  }

  class PrefixCache<V> {
    const cache: Store<V>
    const keyPrefix: string

    constructor (cache: Store<V>, keyPrefix: string)
      ensures this.cache == cache && GetKeyPrefix() == keyPrefix
    {
      this.cache := cache;
      this.keyPrefix := keyPrefix;
    }

    /** The prefix given to the constructor. */
    function GetKeyPrefix(): string {
      keyPrefix
    }

    /** What `Get(key)` answers when reads succeed, read off the wrapped store. */
    function Peek(key: Key): Option<V>
      reads cache
    {
      cache.Peek(PrefixedKey(keyPrefix, key))
    }

    /** The wrapped store's answer for the prefixed key. */
    method Get(key: Key) returns (r: Result<Option<V>, Error>)
      modifies cache
      ensures cache.entries == old(cache.entries)
      ensures cache.log == old(cache.log) + [GetCall(keyPrefix + key)]
      ensures cache.failReads == old(cache.failReads)
      ensures r == if old(cache.failReads) then Failure(StoreFailure) else Success(old(Peek(key)))
    {
      r := cache.Get(PrefixedKey(keyPrefix, key));
    }

    /**
     * Stores the value and TTL under the prefixed key; what the wrapped
     * store answers is the answer, and no other key of this prefix changes.
     */
    method Set(key: Key, value: Option<V>, ttl: Option<int>) returns (r: Outcome<Error>)
      modifies cache
      ensures cache.log == old(cache.log) + [SetCall(keyPrefix + key)]
      ensures cache.failReads == old(cache.failReads)
      ensures r == SetOutcome(value, ttl, cache.failWrites)
      ensures r.Pass? ==> cache.entries == old(cache.entries)[keyPrefix + key := Entry(value.value, ttl)]
                          && Peek(key) == value
      ensures r.Fail? ==> cache.entries == old(cache.entries)
      ensures forall k :: k != key ==> Peek(k) == old(Peek(k))
    {
      r := cache.Set(PrefixedKey(keyPrefix, key), value, ttl);
      forall k | k != key
        ensures Peek(k) == old(Peek(k))
      {
        PrefixedKeyInjective(keyPrefix, k, key);
      }
    }

    /** Deletes the prefixed key and answers what the wrapped store answers. */
    method Delete(key: Key) returns (r: Result<Option<bool>, Error>)
      modifies cache
      ensures cache.log == old(cache.log) + [DeleteCall(keyPrefix + key)]
      ensures cache.failReads == old(cache.failReads)
      ensures cache.failWrites ==> r == Failure(StoreFailure) && cache.entries == old(cache.entries)
      ensures !cache.failWrites ==> r == Success(Some(old(Peek(key)).Some?))
                                    && cache.entries == old(cache.entries) - {keyPrefix + key}
                                    && Peek(key).None?
      ensures forall k :: k != key ==> Peek(k) == old(Peek(k))
    {
      r := cache.Delete(PrefixedKey(keyPrefix, key));
      forall k | k != key
        ensures Peek(k) == old(Peek(k))
      {
        PrefixedKeyInjective(keyPrefix, k, key);
      }
    }
  }

  /** A cache built with the prefix "prefix." reports exactly that prefix. */
  method ReportsPrefix() returns (prefix: string)
    ensures prefix == "prefix."
  {
    var inner := new Store<string>(map[], false, false);
    var c := new PrefixCache(inner, "prefix.");
    prefix := c.GetKeyPrefix();
  }
}
