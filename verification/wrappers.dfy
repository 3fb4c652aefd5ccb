/** Failure-compatible result types used throughout the model: `Option` for
    Go's nil-able pointers and nil errors, `Result` for (value, error) pairs. */
module Wrappers {

  datatype Option<+T> = None | Some(value: T)

  datatype Result<+R, +E> = Success(value: R) | Failure(error: E)
}
