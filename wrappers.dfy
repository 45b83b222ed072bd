/** Option and Result, used for Python's `None` returns and raised exceptions. */
module Wrappers {

  datatype Option<+T> = None | Some(value: T)

  /** A value, or the message of the exception the source raises instead. */
  datatype Result<+T> = Ok(value: T) | Err(message: string)
}
