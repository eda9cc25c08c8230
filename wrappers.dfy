/** Optional values and results with an error value, used for JSON keys that may be
    absent and for operations that raise in the source. */
module Wrappers {

  datatype Option<+T> = None | Some(value: T)

  datatype Result<+T, +E> = Success(value: T) | Failure(error: E)
}
