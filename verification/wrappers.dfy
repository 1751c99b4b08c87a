/** Optional values and results with an error, for lookups that can miss and
    for operations that throw in the original code. */
module Wrappers {
  datatype Option<+T> = None | Some(value: T)

  datatype Result<+R, +E> = Success(value: R) | Failure(error: E)
}
