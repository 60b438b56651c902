/**
 * The keyed mutex (`Amp\Sync\KeyedMutex`) the atomic caches lock keys with.
 * Only what a single caller can observe is modelled: the keys whose lock it
 * holds, and whether acquiring fails.
 */
module KeyedMutexes {
  import opened Wrappers
  import opened CacheErrors
  import opened PhpArrays

  class KeyedMutex {
    /** The keys whose lock the caller currently holds. */
    ghost var held: set<Key>
    /** The keys the caller asked to lock so far, oldest first. */
    ghost var requests: seq<Key>
    /** Whether `acquire` throws instead of granting the lock. */
    const broken: bool

    constructor (broken: bool)
      ensures held == {} && requests == [] && this.broken == broken
    {
      held := {};
      requests := [];
      this.broken := broken;
    }

    /**
     * Waits for the lock of `key` and takes it, or throws when the mutex is
     * broken. A caller that already holds the key would wait for itself
     * forever, so it must not ask again.
     */
    method Acquire(key: Key) returns (r: Outcome<Error>)
      requires key !in held
      modifies this
      ensures requests == old(requests) + [key]
      ensures r.Fail? <==> broken
      ensures r.Fail? ==> r.error == MutexFailure && held == old(held)
      ensures r.Pass? ==> held == old(held) + {key}
    {
      requests := requests + [key];
      if broken {
        return Fail(MutexFailure);
      }
      held := held + {key};
      return Pass;
    }

    /** `Lock::release()`: gives the lock of `key` back. */
    method Release(key: Key)
      requires key in held
      modifies this
      ensures held == old(held) - {key} && requests == old(requests)
    {
      held := held - {key};
    }
  }
}
