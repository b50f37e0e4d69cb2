/** The two small datatypes every other module uses: a value that may be absent (Python's None)
    and a call that returns a value or raises. */
module Prelude {

  datatype Option<+T> = None | Some(value: T)

  datatype Result<+T, +E> = Success(value: T) | Failure(error: E)

  function Max(a: int, b: int): int {
    if a < b then b else a
  }
}
