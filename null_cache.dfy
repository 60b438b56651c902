/**
 * The store that keeps nothing (src/NullCache.php): every read misses,
 * every write is accepted and dropped, and every deletion reports that
 * nothing was there. It has no state, so its operations are functions.
 */
module NullCache {
  import opened Wrappers
  import opened CacheErrors
  import opened PhpArrays

  /** `get`: always null. */
  function Get(key: Key): (r: Option<string>)
    ensures r.None?
  {
    None
  }

  /** `set`: accepted whatever the TTL, even a negative one, and nothing is kept. */
  function Set(key: Key, value: string, ttl: Option<int>): (r: Outcome<Error>)
    ensures r.Pass?
  {
    Pass
  }

  /** `delete`: always false. */
  function Delete(key: Key): (r: bool)
    ensures !r
  {
    false
  }

  /** A value set and then read back is still missing, and deleting it reports false. */
  method SetThenGet() returns (stored: Outcome<Error>, read: Option<string>, deleted: bool)
    ensures stored == Pass && read == None && !deleted
  {
    stored := Set("foo", "bar", None);
    read := Get("foo");
    deleted := Delete("foo");
  }
}
