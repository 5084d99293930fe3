/** Failure-carrying values used across the model. */
module Wrappers {

  /** An optional value: `None` stands for the `NaN` that `Number(...)` yields on text it cannot read. */
  datatype Option<+T> = None | Some(value: T)

  /** A computation that either succeeds or reports an error value. */
  datatype Result<+R, +E> = Ok(value: R) | Err(error: E)
}
