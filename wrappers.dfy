/** Optional values and success/failure results, used for Java's nullable
    values and for operations that either return a value or throw. */
module Wrappers {

  datatype Option<+T> = None | Some(value: T)

  datatype Result<+T, +E> = Success(value: T) | Failure(error: E)
}
