/** Failure-carrying result types: Option for PHP's nullable values,
    Result and Outcome for operations that can throw. */
module Wrappers {

  datatype Option<+T> = None | Some(value: T)

  /** The value returned by a call that may throw an exception of type E. */
  datatype Result<+T, +E> = Success(value: T) | Failure(error: E)

  /** The outcome of a call that returns nothing but may throw. */
  datatype Outcome<+E> = Pass | Fail(error: E)
}
