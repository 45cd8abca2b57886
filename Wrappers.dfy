/** Failure-carrying wrappers shared by every module of the model. */
module Wrappers {

  /** A value that may be missing (PHP's `null`, or "not found"). */
  datatype Option<+T> = None | Some(value: T)

  /** The outcome of a PHP call that either returns or throws. */
  datatype Result<+T, +E> = Success(value: T) | Failure(error: E) {
    predicate IsFailure() { Failure? }
  }
}
