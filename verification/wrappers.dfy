/** Optional arguments (`None` defaults) and outcomes that may fail an assertion. */
module Wrappers {

  datatype Option<+T> = None | Some(value: T)

  datatype Result<+R, +E> = Success(value: R) | Failure(error: E)
}
