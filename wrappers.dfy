/** Optional values and results that carry an error instead of raising. */
module Wrappers {

  /** A value that may be missing (Python's `None`, or an attribute that is not there). */
  datatype Option<+T> = None | Some(value: T)

  /** The outcome of an operation that either returns a value or raises `error`. */
  datatype Result<+T, +E> = Ok(value: T) | Err(error: E)
}
