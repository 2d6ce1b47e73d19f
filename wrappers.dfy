/** Option and Result, standing for Python's `None` and for raised exceptions. */
module Wrappers {

  datatype Option<+T> = None | Some(value: T)

  /** `Failure(e)` is an exception that propagates out of the modelled call. */
  datatype Result<+T, +E> = Success(value: T) | Failure(error: E)
}
