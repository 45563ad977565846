/** Option and Result: the two shapes a Go `(value, error)` pair takes in this model. */
module Wrappers {

  /** An optional value; `None` stands for "absent" or "did not parse". */
  datatype Option<+T> = None | Some(value: T)

  /** Either a value (`err == nil` in Go) or the error that was returned instead. */
  datatype Result<+T, +E> = Success(value: T) | Failure(error: E)
}
