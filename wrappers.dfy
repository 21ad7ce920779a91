/** Optional values, results, and the exceptions the backend throws, as values. */
module Wrappers {

  /** A value that may be absent (Java `null`, an empty `Optional`, a missing JS field). */
  datatype Option<T> = None | Some(value: T)

  /** The exceptions the services raise. Each carries the message the source uses. */
  datatype Error =
    | NotFound(message: string)          // ResourceNotFoundException, UsernameNotFoundException
    | IllegalArgument(message: string)   // IllegalArgumentException
    | InsufficientStock(available: int)  // "Insufficient stock. Available: <n>"
    | NullValue                          // NullPointerException from unboxing a null Integer
    | NoSuchElement                      // Optional.orElseThrow() on an empty Optional
    | NonUniqueResult                    // a single-result repository query that matched several rows

  /** The outcome of a service call: a value, or the exception it threw. */
  datatype Result<T> = Ok(value: T) | Err(error: Error)
}
