/** Optional values and results that carry either a value or an error. */
module Wrappers {

  datatype Option<T> = None | Some(value: T)

  /** The outcome of an operation that Python would end by raising an exception. */
  datatype Result<T, E> = Ok(value: T) | Err(error: E)
}
