/** Failure-compatible wrappers used throughout the model. */
module Wrappers {

  /** A value that may be missing: JavaScript's `undefined`/`null` results. */
  datatype Option<+T> = None | Some(value: T)

  /** A computation that either succeeds or fails with an error message (a thrown `Error`). */
  datatype Result<+R> = Ok(value: R) | Err(error: string) {
    predicate IsFailure() { Err? }

    function PropagateFailure<U>(): Result<U>
      requires Err?
    {
      Err(error)
    }

    function Extract(): R
      requires Ok?
    {
      value
    }
  }
}
