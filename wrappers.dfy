/** Optional values and results with an error, for the aggregates that are undefined on an empty table. */
module Wrappers {

  datatype Option<+T> = None | Some(value: T)

  datatype Result<+R, +E> = Success(value: R) | Failure(error: E)
}
