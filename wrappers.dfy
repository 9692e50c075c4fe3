/** Option and Result, the two failure-carrying types used throughout the model. */
module Wrappers {

  datatype Option<+T> = None | Some(value: T)

  /** The outcome of a step that either produces a value or aborts with an error. */
  datatype Result<+T, +E> = Success(value: T) | Failure(error: E)
}
