/** Failure-carrying datatypes shared by the other modules. */
module Wrappers {

  /** A value that may be absent: an unset PHP property, a missing DB row, a search miss. */
  datatype Option<+T> = None | Some(value: T)

  /** The outcome of an operation that can throw: `Ok` on normal return, `Err` for the exception. */
  datatype Result<+T, +E> = Ok(value: T) | Err(error: E)
}
