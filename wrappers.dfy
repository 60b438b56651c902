/** Option, Result and Outcome: PHP's nullable values, thrown exceptions and failed promises. */
module Wrappers {

  /** A PHP value that may be `null`. */
  datatype Option<+T> = None | Some(value: T)

  /** A call that either returns a value or throws (or, for promises, fails). */
  datatype Result<+R, +E> = Success(value: R) | Failure(error: E)

  /** A call whose only news is whether it threw (`void` methods, `Promise<void>`). */
  datatype Outcome<+E> = Pass | Fail(error: E)
}

/** The exceptions the caches raise or pass on. */
module CacheErrors {
  import opened Wrappers

  /** What a `CacheException` says, without its message text. */
  datatype Message =
    | LockFailed(key: string)     // "Exception thrown when obtaining the lock for key ..."
    | CreateFailed(key: string)   // "Exception thrown while creating the value for key ..."
    | NullNotStorable             // "Cannot store NULL in ..."
    | UnexpectedType              // "Received unexpected type from ..."

  datatype Error =
    | InvalidTtl                  // \Error (src) or \DomainException (lib): TTL is neither null nor an int >= 0
    | MissingKey                  // \DomainException: "No cache entry exists at key ..."
    | TypeError                   // PHP refused `null` for a non-nullable string parameter
    | StoreFailure                // whatever a wrapped store threw
    | MutexFailure                // whatever KeyedMutex::acquire() threw
    | SerializationFailure        // SerializationException from a serializer
    | UserException(code: int)    // whatever a caller-supplied callback threw
    | CacheException(message: Message, previous: Option<Error>)
}
