/**
 * The caller-supplied closure of the atomic caches: given the key and the
 * current value (null when there is none) it returns a new value, possibly
 * null, or throws. A ghost log records every invocation.
 */
module Callbacks {
  import opened Wrappers
  import opened CacheErrors
  import opened PhpArrays

  datatype CallbackResult<V> = Returned(value: Option<V>) | Threw(cause: Error)

  class Callback<V> {
    /** What the closure does with its arguments. */
    const f: (Key, Option<V>) -> CallbackResult<V>
    /** The arguments of every invocation so far, oldest first. */
    ghost var calls: seq<(Key, Option<V>)>

    constructor (f: (Key, Option<V>) -> CallbackResult<V>)
      ensures this.f == f && calls == []
    {
      this.f := f;
      calls := [];
    }

    /** `$compute($key, $value)` */
    method Invoke(key: Key, current: Option<V>) returns (o: CallbackResult<V>)
      modifies this
      ensures o == f(key, current)
      ensures calls == old(calls) + [(key, current)]
    {
      o := f(key, current);
      calls := calls + [(key, current)];
    }
  }
}
