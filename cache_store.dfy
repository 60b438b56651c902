/**
 * A stand-in for the store that the atomic caches and the adapters wrap (any
 * implementation of the `Cache` interface): a map from keys to a value and
 * the TTL it was stored with, a log of the calls made on it, and two flags
 * that make its reads or its writes throw. Whether reads throw can change
 * while a caller waits for a lock (another task's `Outage`); whether writes
 * throw is fixed for the store's lifetime. Time does not pass while one
 * operation runs, so the store does not expire values itself.
 */
module CacheStore {
  import opened Wrappers
  import opened CacheErrors
  import opened PhpArrays

  datatype Entry<V> = Entry(value: V, ttl: Option<int>)

  /** A call made on the store. */
  datatype Call = GetCall(key: Key) | SetCall(key: Key) | DeleteCall(key: Key)

  /**
   * What another task did to the store while the caller waited for a lock:
   * a write, a delete, or a change in whether the store's reads throw (its
   * backend going away or coming back).
   */
  datatype Write<V> = Put(key: Key, entry: Entry<V>) | Remove(key: Key) | Outage(readsFail: bool)
  {
    /** Whether this step changes what is stored under `k`. */
    predicate Touches(k: Key) {
      !Outage? && key == k
    }
  }

  /** The entries after `writes`, in order. */
  function Applied<V>(entries: map<Key, Entry<V>>, writes: seq<Write<V>>): (r: map<Key, Entry<V>>)
    ensures forall k :: (forall i :: 0 <= i < |writes| ==> !writes[i].Touches(k)) ==>
              (k in r <==> k in entries) && (k in entries ==> r[k] == entries[k])
    decreases |writes|
  {
    if writes == [] then entries
    else
      var next := match writes[0]
        case Put(k, e) => entries[k := e]
        case Remove(k) => entries - {k}
        case Outage(_) => entries;
      Applied(next, writes[1..])
  }

  /** Whether reads throw after `writes`, when they threw (`fail`) before: the last `Outage` decides. */
  function ReadsFailAfter<V>(fail: bool, writes: seq<Write<V>>): (r: bool)
    ensures (forall i :: 0 <= i < |writes| ==> !writes[i].Outage?) ==> r == fail
    ensures |writes| > 0 && writes[|writes| - 1].Outage? ==> r == writes[|writes| - 1].readsFail
    decreases |writes|
  {
    if writes == [] then fail
    else ReadsFailAfter(if writes[0].Outage? then writes[0].readsFail else fail, writes[1..])
  }

  /** The value stored under `key`, or `None`. */
  function ValueOf<V>(entries: map<Key, Entry<V>>, key: Key): Option<V> {
    if key in entries then Some(entries[key].value) else None
  }

  /** How the store answers `set(key, value, ttl)`. */
  function SetOutcome<V>(value: Option<V>, ttl: Option<int>, failWrites: bool): (r: Outcome<Error>)
    ensures r.Pass? <==> value.Some? && (ttl.None? || ttl.value >= 0) && !failWrites
  {
    if value.None? then Fail(TypeError)
    else if ttl.Some? && ttl.value < 0 then Fail(InvalidTtl)
    else if failWrites then Fail(StoreFailure)
    else Pass
  }

  class Store<V> {
    var entries: map<Key, Entry<V>>
    /** The calls made on the store so far, oldest first. */
    ghost var log: seq<Call>
    var failReads: bool
    const failWrites: bool

    constructor (entries: map<Key, Entry<V>>, failReads: bool, failWrites: bool)
      ensures this.entries == entries && log == []
      ensures this.failReads == failReads && this.failWrites == failWrites
    {
      this.entries := entries;
      log := [];
      this.failReads := failReads;
      this.failWrites := failWrites;
    }

    function Peek(key: Key): Option<V>
      reads this
    {
      ValueOf(entries, key)
    }

    /** `get($key)`: the stored value or null, or a failure when reads throw. */
    method Get(key: Key) returns (r: Result<Option<V>, Error>)
      modifies this
      ensures entries == old(entries) && log == old(log) + [GetCall(key)] && failReads == old(failReads)
      ensures r == if failReads then Failure(StoreFailure) else Success(old(Peek(key)))
    {
      log := log + [GetCall(key)];
      if failReads {
        return Failure(StoreFailure);
      }
      return Success(ValueOf(entries, key));
    }

    /** `set($key, $value, $ttl)`: stores the value, or fails and stores nothing. */
    method Set(key: Key, value: Option<V>, ttl: Option<int>) returns (r: Outcome<Error>)
      modifies this
      ensures log == old(log) + [SetCall(key)] && failReads == old(failReads)
      ensures r == SetOutcome(value, ttl, failWrites)
      ensures r.Pass? ==> entries == old(entries)[key := Entry(value.value, ttl)]
      ensures r.Fail? ==> entries == old(entries)
    {
      log := log + [SetCall(key)];
      r := SetOutcome(value, ttl, failWrites);
      if r.Pass? {
        entries := entries[key := Entry(value.value, ttl)];
      }
    }

    /** `delete($key)`: removes the key and reports whether it was there. */
    method Delete(key: Key) returns (r: Result<Option<bool>, Error>)
      modifies this
      ensures log == old(log) + [DeleteCall(key)] && failReads == old(failReads)
      ensures failWrites ==> r == Failure(StoreFailure) && entries == old(entries)
      ensures !failWrites ==> r == Success(Some(key in old(entries))) && entries == old(entries) - {key}
    {
      log := log + [DeleteCall(key)];
      if failWrites {
        return Failure(StoreFailure);
      }
      r := Success(Some(key in entries));
      entries := entries - {key};
    }

    /** Other tasks' writes, made while the caller was suspended. */
    method Interleave(writes: seq<Write<V>>)
      modifies this
      ensures entries == Applied(old(entries), writes) && log == old(log)
      ensures failReads == ReadsFailAfter(old(failReads), writes)
    {
      entries := Applied(entries, writes);
      failReads := ReadsFailAfter(failReads, writes);
    }
  }
}
