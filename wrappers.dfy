/** Option and Result: a missing value, and a value or the error that
    the Python code raises in its place. */
module Wrappers {

  datatype Option<+T> = None | Some(value: T)

  datatype Result<+T, +E> = Success(value: T) | Failure(error: E)
}
