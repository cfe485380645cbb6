/** Option and Result, the two failure-carrying datatypes the model uses. */
module Wrappers {

  /** A value that may be absent: Ruby's nil or a value. */
  datatype Option<+T> = None | Some(value: T)

  /** The outcome of an operation that may raise: a value, or the error it raised. */
  datatype Result<+R, +E> = Success(value: R) | Failure(error: E)
}
