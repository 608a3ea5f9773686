/** Failure-compatible result types shared by the model. */
module Wrappers {

  /** A value that may be absent: what a pandas `Series.map` yields for a key missing from its table. */
  datatype Option<+T> = None | Some(value: T)

  /** The outcome of an operation that either succeeds with a value or raises an error. */
  datatype Result<+R, +E> = Success(value: R) | Failure(error: E)
}
