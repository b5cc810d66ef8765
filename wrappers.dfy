/** Option and Result values, used for Python's "value or None" and for
    "value or the message of the exception that was raised". */
module Wrappers {

  datatype Option<+T> = None | Some(value: T)

  datatype Result<+T, +E> = Success(value: T) | Failure(error: E)
}
