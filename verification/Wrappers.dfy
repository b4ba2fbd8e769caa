/** Option and Result, the two failure-carrying datatypes used by the model. */
module Wrappers {

  /** A value that may be absent: JavaScript's `undefined` or `NaN`. */
  datatype Option<+T> = None | Some(value: T)

  /** The outcome of a computation that may throw. */
  datatype Result<+T, +E> = Success(value: T) | Failure(error: E)
}
