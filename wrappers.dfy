/** Optional values and results with an error, shared by every module. */
module Wrappers {

  /** A value that may be missing: a field that did not parse, a bucket nobody filled. */
  datatype Option<+T> = None | Some(value: T)

  /** The outcome of a handler: a value or an error that becomes the response. */
  datatype Result<+R, +E> = Success(value: R) | Failure(error: E)
}
