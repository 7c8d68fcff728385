/** The optional values that the sources write as `T | None`, and an error-carrying result. */
module Options {
  datatype Option<+T> = None | Some(value: T)
  {
    function GetOr(fallback: T): T {
      if Some? then value else fallback
    }
  }

  datatype Result<+T, +E> = Ok(value: T) | Err(error: E)

  function Max(a: int, b: int): int {
    if a < b then b else a
  }

  function Min(a: int, b: int): int {
    if a < b then a else b
  }
}
