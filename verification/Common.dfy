/** Value types shared by every component of the model. */
module Common {

  datatype Option<+T> = None | Some(value: T)

  /** A call of the source that returns `(value, error)`. */
  datatype Result<+T, +E> = Ok(value: T) | Err(error: E)

  function Min(a: int, b: int): int { if a <= b then a else b }

  function Max(a: int, b: int): int { if a <= b then b else a }
}
