/** Option and Result values, used for the Go pattern of returning `(value, error)`. */
module Wrappers {

  datatype Option<+T> = None | Some(value: T)

  /** `Success(v)` stands for a Go call returning `(v, nil)`, `Failure(e)` for one returning an error. */
  datatype Result<+T, +E> = Success(value: T) | Failure(error: E)

  /** `Pass` stands for a Go call returning a nil `error`, `Fail(e)` for one returning `e`. */
  datatype Outcome<+E> = Pass | Fail(error: E)
}
