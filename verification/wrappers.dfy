/** Failure-carrying values shared by every module of the model. */
module Wrappers {

  /** Python's `X | None`. */
  datatype Option<+T> = None | Some(value: T)

  /** The value of an operation that may raise: `Err` carries the exception's text. */
  datatype Result<+T, +E> = Ok(value: T) | Err(error: E)
}
