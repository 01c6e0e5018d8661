/** Optional values and results that carry an error instead of raising it. */
module Wrappers {

  datatype Option<T> = None | Some(value: T)

  /** The outcome of an operation that either produces a value or raises an error. */
  datatype Result<T, E> = Ok(value: T) | Err(error: E)
}
