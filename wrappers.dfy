/** Option and Result, the two failure-carrying datatypes the model uses for
    "no such habit" and for the streak computation that can fail. */
module Wrappers {

  /** A value that may be absent (Python's `None`). */
  datatype Option<+T> = None | Some(value: T)

  /** A computed value or the error that stopped the computation
      (an exception in the Python code). */
  datatype Result<+T, +E> = Success(value: T) | Failure(error: E)
}
