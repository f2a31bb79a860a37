/** Option, Result and Outcome: the values that stand for JavaScript's `undefined`, its
    exceptions, and PHP's errors in this model. */
module Wrappers {

  datatype Option<+T> = None | Some(value: T)

  datatype Result<+T, +E> = Success(value: T) | Failure(error: E)

  /** The outcome of a call that returns nothing but may throw. */
  datatype Outcome<+E> = Pass | Fail(error: E)
}
