/** Option and Result, the shapes of Go's `(value, error)` returns. */
module Base {

  datatype Option<+T> = None | Some(value: T)

  /** A Go call that returns either a value or an error. */
  datatype Result<+T, +E> = Ok(value: T) | Err(error: E)

  function Min(a: int, b: int): int
  {
    if a < b then a else b
  }
}
