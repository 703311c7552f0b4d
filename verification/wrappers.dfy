/** Failure-compatible result types shared by the whole model: a value that may
    be absent, and a computation that either produces a value or fails with an
    error (the source's raised exceptions and HTTP error responses). */
module Wrappers {

  datatype Option<+T> = None | Some(value: T)

  datatype Result<+R, +E> = Ok(value: R) | Err(error: E) {

    predicate IsFailure() {
      Err?
    }

    function PropagateFailure<U>(): Result<U, E>
      requires Err?
    {
      Err(error)
    }

    function Extract(): R
      requires Ok?
    {
      value
    }
  }

  /** A check that either passes or fails with an error. */
  datatype Outcome<+E> = Pass | Fail(error: E)
}
