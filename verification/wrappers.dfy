/** Option and Result values used for the Go code's nil pointers and (value, error) pairs. */
module Wrappers {

  datatype Option<+T> = None | Some(value: T)

  /** A Go `(T, error)` pair: either a value or a failure carrying a short description. */
  datatype Result<+T> = Ok(value: T) | Err(msg: string)

  /** A Go `error` return on its own: nil (`Pass`) or an error. */
  datatype Outcome = Pass | Fail(msg: string)
}
