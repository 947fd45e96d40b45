/** Failure-carrying values shared by the modules of this model: Python's `None`
    becomes `Option`, and a raised exception becomes `Failure` (or `Fail`). */
module Outcomes {

  datatype Option<+T> = None | Some(value: T)

  datatype Result<+T, +E> = Success(value: T) | Failure(error: E)

  datatype Outcome<+E> = Pass | Fail(error: E)

  function Min(a: int, b: int): int
  {
    if a <= b then a else b
  }
}
