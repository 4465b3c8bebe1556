/** Option and Result, the two wrappers the model uses for Python's `None` and for
    the error paths of the script. */
module Wrappers {

  datatype Option<+T> = None | Some(value: T)

  datatype Result<+R, +E> = Success(value: R) | Failure(error: E)
}
