/** Option, Outcome and Result: the model's stand-ins for Go's nil pointers and `error` returns. */
module Wrappers {

  /** A nullable value: Go's `*T`, or a SQL column that may be NULL. */
  datatype Option<+T> = None | Some(value: T) {
    function GetOr(default: T): T {
      match this
      case Some(v) => v
      case None => default
    }
  }

  /** The `error` result of a Go function that returns nothing else. */
  datatype Outcome = Pass | Fail(msg: string)

  /** A value or an error, as in Go's `(T, error)` when the two never come together. */
  datatype Result<+T> = Ok(value: T) | Err(msg: string)
}
