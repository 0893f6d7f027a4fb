/** Option and Result values used where the system returns "nothing" or raises an error. */
module Wrappers {
  datatype Option<T> = None | Some(value: T)

  /** A computation that either yields a value or fails with an error message. */
  datatype Result<T> = Ok(value: T) | Err(error: string)
}
