/** Failure-carrying datatypes shared by the modules of this model. */
module Wrappers {

  /** A value that may be absent (Python's `None`). */
  datatype Option<+T> = None | Some(value: T)

  /** A computed value, or the error the source raises instead. */
  datatype Result<+T, +E> = Ok(value: T) | Err(error: E)

  /** Success, or the error the source raises; for operations without a value. */
  datatype Outcome<+E> = Pass | Fail(error: E)
}
