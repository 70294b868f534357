/** Failure-carrying values shared by every component of the model. */
module Wrappers {

  /** A value that may be absent: Go's nil pointer or a missing optional field. */
  datatype Option<+T> = None | Some(value: T)

  /** The result of a call that returns `(value, err)` in Go. */
  datatype Result<+T, +E> = Ok(value: T) | Err(error: E)
}
