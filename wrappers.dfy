/** Option and Result, the two failure-carrying datatypes the model uses. */
module Wrappers {

  /** A value that may be absent: an unparseable date is `None`. */
  datatype Option<+T> = None | Some(value: T)

  /** The outcome of an operation that raises on failure in the program. */
  datatype Result<+R, +E> = Success(value: R) | Failure(error: E)
}
