/** Option and Outcome values standing in for the source's nullable results and thrown exceptions. */
module Wrappers {

  datatype Option<+T> = None | Some(value: T)

  /** The outcome of an operation that either completes or raises an error. */
  datatype Outcome<+E> = Pass | Fail(error: E)

  datatype Result<+R, +E> = Success(value: R) | Failure(error: E)
}
