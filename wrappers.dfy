/** Option and Result values for the places where the application either has a value or
    shows a warning or an error message instead. */
module Wrappers {

  datatype Option<+T> = None | Some(value: T)

  datatype Result<+R, +E> = Success(value: R) | Failure(error: E)
}
