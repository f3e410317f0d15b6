/** Option and Result, used where the Python code returns None or raises. */
module Wrappers {

  datatype Option<T> = None | Some(value: T)

  /** `Err` carries the Python exception's message. */
  datatype Result<T> = Ok(value: T) | Err(error: string)
}
