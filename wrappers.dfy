/** Optional values and results with an error, used for the request's
    optional arguments, the page count and the handler's outcome. */
module Wrappers {

  /** An argument that may be missing from the query string. */
  datatype Option<+T> = None | Some(value: T)

  /** Either a value or the error that ended the computation. */
  datatype Result<+R, +E> = Success(value: R) | Failure(error: E)
}
