/** Failure-carrying datatypes shared by the other modules. */
module Wrappers {

  /** A value that may be absent, as Python's `None`. */
  datatype Option<+T> = None | Some(value: T)

  /** Either a computed value or the error a Python statement would raise. */
  datatype Result<+R, +E> = Success(value: R) | Failure(error: E)
}
