/** Optional values and results with an error message, shared by the other modules. */
module Wrappers {

  /** A value that may be absent (`undefined` in the original). */
  datatype Option<T> = None | Some(value: T)

  /** The outcome of an operation that may throw: the value, or the thrown error's message. */
  datatype Result<T> = Ok(value: T) | Err(message: string)
}
