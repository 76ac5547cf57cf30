/** Optional values and results with an error, shared by the request handlers. */
module Wrappers {

  /** A value that may be absent: a request field that was not sent, or a result field
      that JavaScript leaves `undefined`. */
  datatype Option<+T> = None | Some(value: T)

  /** The outcome of a request handler: the response body, or the 400 error it sends. */
  datatype Result<+R, +E> = Success(value: R) | Failure(error: E)
}
