/** The optional-value and outcome types shared by the SmoothQuant model. */
module Wrappers {

  /** An optional value: Python's `Optional[T]`, or a lookup that may fail. */
  datatype Option<+T> = None | Some(value: T)

  /** The outcome of an operation that may raise: a value or the error raised. */
  datatype Result<+R, +E> = Success(value: R) | Failure(error: E)
}
