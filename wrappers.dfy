/** Optional values and error results shared by the other modules. */
module Wrappers {

  /** A value that may be absent (pandas' missing value, the `None` of a lookup). */
  datatype Option<+T> = None | Some(value: T)

  /** The outcome of a step that either succeeds with a value or fails with an error. */
  datatype Result<+T, +E> = Ok(value: T) | Err(error: E)

  /** The outcome of a step that changes state and either passes or fails with an error. */
  datatype Outcome<+E> = Pass | Fail(error: E)
}
