/** Failure-carrying values shared by the other modules. */
module Wrappers {

  datatype Option<+T> = None | Some(value: T)

  /** The outcome of a call that can fail with an error value, as Go's `(value, err)` pairs. */
  datatype Result<+T, +E> = Success(value: T) | Failure(error: E)
}
