/** Optional values, results with a status code, and bounds. */
module Common {

  datatype Option<+T> = None | Some(value: T)

  /** The status codes the services answer with. */
  datatype Code = InvalidArgument | NotFound | AlreadyExists | Internal

  datatype Result<+T> = Ok(value: T) | Err(error: Code)

  function Min(a: int, b: int): int {
    if a <= b then a else b
  }

  function Max(a: int, b: int): int {
    if a < b then b else a
  }
}
