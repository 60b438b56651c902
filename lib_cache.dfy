/**
 * The promise-era store interface (lib/Cache.php). Its methods have no
 * bodies; what its doc comments require of every implementation is stated
 * here as predicates on what an implementation's operations resolve to,
 * and lib/ArrayCache.php's model proves that it meets them.
 */
module LibCache {
  import opened Wrappers
  import opened CacheErrors

  /** `has` MUST resolve to true or false: it never fails. */
  predicate HasResolvesBool(r: Result<bool, Error>) {
    r.Success?
  }

  /** `get` MUST fail when no value exists under the key. */
  predicate GetFailsWhenMissing(existed: bool, r: Result<string, Error>) {
    !existed ==> r.Failure?
  }

  /** `set` overrides any existing value: once it succeeds, a read of the key yields `value`. */
  predicate SetOverrides(r: Outcome<Error>, read: Result<string, Error>, value: string) {
    r.Pass? ==> read == Success(value)
  }

  /**
   * A missing TTL means the value never times out: while a value stored
   * without one is still there (`untimed`), `has` resolves to true at any
   * later time.
   */
  predicate UntimedStaysPresent(untimed: bool, r: Result<bool, Error>) {
    untimed ==> r == Success(true)
  }

  /** `del` MUST succeed, also for keys that do not exist. */
  predicate DelSucceeds(r: Result<Option<bool>, Error>) {
    r.Success?
  }

  /** `del` SHOULD resolve to whether the key existed when the delete was requested. */
  predicate DelReportsExistence(existed: bool, r: Result<Option<bool>, Error>) {
    r == Success(Some(existed))
  }
}
