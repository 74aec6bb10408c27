/** Option and Result, the model's stand-ins for Python's `None` and for raised exceptions. */
module Wrappers {

  /** `None` is Python's `None`; `Some(v)` is a present value. */
  datatype Option<+T> = None | Some(value: T)

  /** `Failure(e)` is an exception the operation raised; `Success(v)` is its return value. */
  datatype Result<+T, +E> = Success(value: T) | Failure(error: E)
}
