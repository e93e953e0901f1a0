/** Failure-carrying results, standing for the exceptions the Ruby code raises. */
module Wrappers {

  datatype Option<+T> = None | Some(value: T)

  datatype Result<+R, +E> = Success(value: R) | Failure(error: E)

  /** An operation that either completes or fails with an error and returns nothing else. */
  datatype Outcome<+E> = Pass | Fail(error: E)
}
