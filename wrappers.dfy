/** Option and Result: Python's None and raised exceptions, as values. */
module Wrappers {

  /** A value that may be Python's None. */
  datatype Option<+T> = None | Some(value: T)

  /** The outcome of a call that either returns a value or raises an error carrying a message. */
  datatype Result<+R, +E> = Success(value: R) | Failure(error: E)
}
