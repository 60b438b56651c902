/**
 * The atomic-cache behaviours the repository's tests check, as runs of the
 * compute-layer model whose results are proved. A task that runs while
 * another waits for the lock is the `whileWaiting` writes of the waiting call.
 */
module AtomicCacheScenarios {
  import opened Wrappers
  import opened CacheErrors
  import opened PhpArrays
  import opened KeyedMutexes
  import opened Callbacks
  import opened CacheStore
  import opened SrcAtomicCache

  /** `fn ($key, $value) => $value + 1`, where PHP reads null as zero. */
  function Increment(key: Key, value: Option<int>): CallbackResult<int> {
    Returned(Some((if value.Some? then value.value else 0) + 1))
  }

  /** Starting from 0, two `compute` calls that add one answer 1 and then 2. */
  method ComputeTwice() returns (first: Result<Option<int>, Error>, second: Result<Option<int>, Error>)
    ensures first == Success(Some(1)) && second == Success(Some(2))
  {
    var store := new Store<int>(map["key" := Entry(0, None)], false, false);
    var mutex := new KeyedMutex(false);
    var atomic := new AtomicCache(store, mutex);
    var callback := new Callback(Increment);
    first := atomic.Compute("key", callback, None, []);
    second := atomic.Compute("key", callback, None, []);
  }

  /**
   * Two `computeIfAbsent` calls on a missing key: the first stores "value"
   * while the second waits for the lock, so the second answers "value"
   * without invoking its own callback, which would have thrown.
   */
  method SimultaneousComputeIfAbsent() returns (r: Result<Option<string>, Error>, never: Callback<string>)
    ensures r == Success(Some("value")) && never.calls == []
  {
    var store := new Store<string>(map[], false, false);
    var mutex := new KeyedMutex(false);
    var atomic := new AtomicCache(store, mutex);
    never := new Callback((k: Key, v: Option<string>) => Threw(UserException(0)));
    r := atomic.ComputeIfAbsent("key", never, None, [Put("key", Entry("value", None))]);
  }

  /** `computeIfAbsent` answers a stored value without locking, even with a throwing callback. */
  method ComputeIfAbsentKeepsValue() returns (r: Result<Option<string>, Error>)
    ensures r == Success(Some("original"))
  {
    var store := new Store<string>(map["key" := Entry("original", None)], false, false);
    var mutex := new KeyedMutex(true);
    var atomic := new AtomicCache(store, mutex);
    var never := new Callback((k: Key, v: Option<string>) => Threw(UserException(0)));
    r := atomic.ComputeIfAbsent("key", never, None, []);
  }

  /**
   * `computeIfAbsent` on a missing key whose store stops answering while
   * the call waits for the lock: the read under the lock throws, the
   * exception is what the call answers, the lock is released, and the
   * callback is never invoked.
   */
  method StoreFailsWhileWaiting() returns (r: Result<Option<string>, Error>, atomic: AtomicCache<string>, never: Callback<string>)
    ensures r == Failure(StoreFailure) && never.calls == []
    ensures atomic.mutex.held == {} && atomic.cache.entries == map[]
  {
    var store := new Store<string>(map[], false, false);
    var mutex := new KeyedMutex(false);
    atomic := new AtomicCache(store, mutex);
    never := new Callback((k: Key, v: Option<string>) => Returned(Some("computed")));
    r := atomic.ComputeIfAbsent("key", never, None, [Outage(true)]);
  }
}
