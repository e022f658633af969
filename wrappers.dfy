/** Failure-compatible result types shared by the services of the model. */
module Wrappers {

  datatype Option<+T> = None | Some(value: T)

  /** A success value or a failure with its cause, as the services' `Result` objects. */
  datatype Result<+T, +E> = Ok(value: T) | Fail(error: E) {
    predicate IsFailure() { Fail? }
  }
}
