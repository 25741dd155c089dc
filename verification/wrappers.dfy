/** Optional values (PHP's nullable arguments, "not found") and results that
    are either a value or the error an exception would carry. */
module Wrappers {

  datatype Option<+T> = None | Some(value: T)

  datatype Result<+T, +E> = Success(value: T) | Failure(error: E)

}
