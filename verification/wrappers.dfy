/** Option and Result, used for Python's None and for the exceptions and
    sys.exit() calls of the scripts. */
module Wrappers {

  datatype Option<+T> = None | Some(value: T)

  datatype Result<+T, +E> = Success(value: T) | Failure(error: E)
}
