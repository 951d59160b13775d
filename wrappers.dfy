/** Optional values and success-or-error results shared by the other modules. */
module Wrappers {

  /** A value that may be absent, such as a request header that was not sent. */
  datatype Option<+T> = None | Some(value: T)

  /** The result of an operation that can fail, such as building the header middleware. */
  datatype Result<+R, +E> = Success(value: R) | Failure(error: E)
}
