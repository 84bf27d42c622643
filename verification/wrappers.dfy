/** Failure-carrying values used across the model. */
module Wrappers {

  /** A value that may be missing (JavaScript's `undefined` where the model needs it). */
  datatype Option<+T> = None | Some(value: T)

  /** The settled state of a promise: fulfilled with a value or rejected with a reason. */
  datatype Result<+R, +E> = Ok(value: R) | Err(error: E)
}
