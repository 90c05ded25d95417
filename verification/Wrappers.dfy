/** The optional-value and value-or-error wrappers used across the model. */
module Wrappers {

  /** Python's `None` or a present value. */
  datatype Option<+T> = None | Some(value: T)

  /** The outcome of a call that may raise: a value, or the text of the exception. */
  datatype Result<+T, +E> = Ok(value: T) | Err(error: E)
}
