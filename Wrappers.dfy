/** Option and Result values used in place of Python's None and raised exceptions. */
module Wrappers {

  datatype Option<+T> = None | Some(value: T)

  /** The outcome of an operation that can raise: a value, or the exception's message. */
  datatype Result<+T> = Ok(value: T) | Err(message: string)
}
