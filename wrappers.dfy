/** Option and Result: the "value or nothing" and "value or error" shapes used by the model. */
module Wrappers {

  /** Python's `None` or a present value. */
  datatype Option<+T> = None | Some(value: T)

  /** A value on success, or the reason an operation was refused. */
  datatype Result<+R, +E> = Success(value: R) | Failure(error: E)
}
