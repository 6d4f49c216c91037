/** Optional values and error returns, standing for Python's None and for raised exceptions. */
module Wrappers {

  datatype Option<+T> = None | Some(value: T)

  /** The outcome of an operation that the source may abort by raising an exception. */
  datatype Result<+T, +E> = Success(value: T) | Failure(error: E)
}
