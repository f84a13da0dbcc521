/** Absence and failure values, standing in for `undefined` and thrown errors. */
module Wrappers {

  /** A value that may be missing (`undefined` / `null` in the original). */
  datatype Option<+T> = None | Some(value: T)

  /** The outcome of an operation that either returns a value or throws. */
  datatype Result<+R, +E> = Success(value: R) | Failure(error: E)

  /** The outcome of an operation that returns nothing or throws. */
  datatype Outcome<+E> = Pass | Fail(error: E)
}
