/**
 * The adapter that presents a store of arbitrary values as a store of
 * strings (src/StringCacheAdapter.php): writes pass straight through, and a
 * read that finds a value of another type is refused with a
 * `CacheException`.
 */
module StringCacheAdapters {
  import opened Wrappers
  import opened CacheErrors
  import opened PhpArrays
  import opened CacheStore

  /** A non-null PHP value as the wrapped store may hold it. */
  datatype Mixed = MString(s: string) | MInt(i: int) | MBool(b: bool) | MObject(id: nat)

  /** The type guard of `get`: null and strings pass, anything else is refused. */
  function AsString(v: Option<Mixed>): (r: Result<Option<string>, Error>)
    ensures r.Failure? <==> v.Some? && !v.value.MString?
    ensures r.Failure? ==> r.error == CacheException(UnexpectedType, None)
    ensures r == Success(None) <==> v.None?
    ensures forall s :: r == Success(Some(s)) <==> v == Some(MString(s))
  {
    match v
    case None => Success(None)
    case Some(MString(s)) => Success(Some(s))
    case Some(_) => Failure(CacheException(UnexpectedType, None))
  }

  class StringCacheAdapter {
    const cache: Store<Mixed>

    constructor (cache: Store<Mixed>)
      ensures this.cache == cache
    {
      this.cache := cache;
    }

    /** The wrapped store's value when reads succeed, passed through the type guard. */
    method Get(key: Key) returns (r: Result<Option<string>, Error>)
      modifies cache
      ensures cache.entries == old(cache.entries) && cache.log == old(cache.log) + [GetCall(key)]
      ensures cache.failReads == old(cache.failReads)
      ensures r == if old(cache.failReads) then Failure(StoreFailure) else AsString(old(cache.Peek(key)))
    {
      var value := cache.Get(key);
      if value.Failure? {
        return Failure(value.error);
      }
      r := AsString(value.value);
    }

    /** Forwards key, string and TTL; a stored string reads back unchanged. */
    method Set(key: Key, value: string, ttl: Option<int>) returns (r: Outcome<Error>)
      modifies cache
      ensures cache.log == old(cache.log) + [SetCall(key)]
      ensures cache.failReads == old(cache.failReads)
      ensures r.Pass? <==> (ttl.None? || ttl.value >= 0) && !cache.failWrites
      ensures r.Pass? ==> cache.entries == old(cache.entries)[key := Entry(MString(value), ttl)]
                          && AsString(cache.Peek(key)) == Success(Some(value))
      ensures r.Fail? ==> cache.entries == old(cache.entries)
    {
      r := cache.Set(key, Some(MString(value)), ttl);
    }

    /** Forwards the deletion and answers what the wrapped store answers. */
    method Delete(key: Key) returns (r: Result<Option<bool>, Error>)
      modifies cache
      ensures cache.log == old(cache.log) + [DeleteCall(key)]
      ensures cache.failReads == old(cache.failReads)
      ensures cache.failWrites ==> r == Failure(StoreFailure) && cache.entries == old(cache.entries)
      ensures !cache.failWrites ==> r == Success(Some(key in old(cache.entries)))
                                    && cache.entries == old(cache.entries) - {key}
    {
      r := cache.Delete(key);
    }
  }

  /** An integer that another writer left under a key is refused when read through the adapter. */
  method IntegerIsRefused() returns (r: Result<Option<string>, Error>)
    ensures r == Failure(CacheException(UnexpectedType, None))
  {
    var inner := new Store<Mixed>(map["key" := Entry(MInt(42), None)], false, false);
    var adapter := new StringCacheAdapter(inner);
    r := adapter.Get("key");
  }
}
