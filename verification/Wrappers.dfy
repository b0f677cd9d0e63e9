/** Option and Result: how the model writes down a PHP value that may be
    FALSE/absent, and a PHP call that either returns or throws. */
module Wrappers {

  datatype Option<+T> = None | Some(value: T)

  datatype Result<+R, +E> = Success(value: R) | Failure(error: E)
}
