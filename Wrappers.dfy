/** Optional values and results of remote calls. */
module Wrappers {

  /** A value that may be absent (Python's `None`). */
  datatype Option<+T> = None | Some(value: T)

  /** The outcome of a call that may raise a provider request error carrying `message`. */
  datatype Result<+T> = Ok(value: T) | Err(message: string)
}
