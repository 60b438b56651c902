/**
 * Inputs on which the promise-era code does something other than what its
 * interface and its callers expect, each run through both the as-written
 * model and the corrected one.
 */
module Findings {
  import opened Wrappers
  import opened CacheErrors
  import opened PhpArrays
  import opened ExpiringState
  import opened KeyedMutexes
  import opened CacheStore
  import opened Callbacks
  import opened Serialization
  import LibAtomicCache
  import LibArrayCache
  import LibCache

  /**
   * A store whose reads throw: `swap` as written fails without releasing the
   * key's lock itself, since the read comes before the `try` whose `finally`
   * releases it; the corrected `swap` fails the same way and releases the
   * lock. Whether the lock object later releases itself is not modelled.
   */
  method SwapLeaksLock() returns (asWritten: Result<Option<string>, Error>, leaky: KeyedMutex,
                                  corrected: Result<Option<string>, Error>, released: KeyedMutex)
    ensures asWritten == Failure(StoreFailure) && corrected == Failure(StoreFailure)
    ensures "key" in leaky.held && "key" !in released.held
  {
    var modifier := new Callback((k: Key, v: Option<string>) => Returned(Some("updated")));
    var store := new Store<string>(map["key" := Entry("original", None)], true, false);
    leaky := new KeyedMutex(false);
    var cache := new LibAtomicCache.AtomicCache(store, leaky, Passthrough());
    asWritten := cache.SwapAsWritten("key", modifier, None, []);
    var store2 := new Store<string>(map["key" := Entry("original", None)], true, false);
    released := new KeyedMutex(false);
    var cache2 := new LibAtomicCache.AtomicCache(store2, released, Passthrough());
    corrected := cache2.Swap("key", modifier, None, []);
  }

  /**
   * A value stored without a TTL: one second later `has` as written
   * reports it missing and purges it, while the corrected `has` reports it.
   */
  method HasForgetsUntimedEntry() returns (asWritten: Result<bool, Error>, corrected: Result<bool, Error>)
    ensures asWritten == Success(false) && corrected == Success(true)
    ensures !LibCache.UntimedStaysPresent(true, asWritten) && LibCache.UntimedStaysPresent(true, corrected)
  {
    var a := new LibArrayCache.ArrayCache();
    var _ := a.Set("foo", "bar", LibArrayCache.NoTtl, 0);
    asWritten := a.HasAsWritten("foo", 1);
    var b := new LibArrayCache.ArrayCache();
    var _ := b.Set("foo", "bar", LibArrayCache.NoTtl, 0);
    corrected := b.Has("foo", 1);
  }

  /**
   * Deleting a stored key: `del` as written resolves with null, the
   * corrected one with true, as the interface asks.
   */
  method DelReportsNothing() returns (asWritten: Result<Option<bool>, Error>, corrected: Result<Option<bool>, Error>)
    ensures asWritten == Success(None) && corrected == Success(Some(true))
  {
    var a := new LibArrayCache.ArrayCache();
    var _ := a.Set("foo", "bar", LibArrayCache.NoTtl, 0);
    asWritten := a.DelAsWritten("foo");
    var b := new LibArrayCache.ArrayCache();
    var _ := b.Set("foo", "bar", LibArrayCache.NoTtl, 0);
    corrected := b.Del("foo");
  }
}
