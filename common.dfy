/** Small value types shared by the other modules. */
module Common {

  datatype Option<+T> = None | Some(value: T)

  /** An operation that either returns a value or raises; `Err` carries what raised. */
  datatype Result<+T, +E> = Ok(value: T) | Err(error: E)

  function Min(a: int, b: int): int
  {
    if a <= b then a else b
  }
}
