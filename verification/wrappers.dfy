/** Go's `(value, error)` pairs and bare `error` results. Errors are compared by their message. */
module Wrappers {
  datatype Option<+T> = None | Some(value: T)

  /** A value or the message of the Go error that replaced it. */
  datatype Result<+T> = Ok(value: T) | Err(error: string)

  /** A Go `error` return: nil (`Pass`) or an error with its message. */
  datatype Outcome = Pass | Fail(error: string)
}
