/** Failure-carrying result types shared by the model's modules. */
module Wrappers {

  datatype Option<+T> = None | Some(value: T)

  /** A computed value or the error that stopped the computation (Go's `(T, error)` pair). */
  datatype Result<+T, +E> = Ok(value: T) | Err(error: E)

  /** Success or an error, without a value (a Go function returning only `error`). */
  datatype Outcome<+E> = Pass | Fail(error: E)
}
