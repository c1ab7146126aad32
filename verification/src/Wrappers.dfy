// Failure-compatible types shared by every module: a Rust `Result`, a thrown
// JavaScript error and an optional value.
module Wrappers {

  datatype Option<+T> = None | Some(value: T)

  datatype Result<+T, +E> = Ok(value: T) | Err(error: E) {
    predicate IsFailure() {
      Err?
    }

    function PropagateFailure<U>(): Result<U, E>
      requires Err?
    {
      Err(error)
    }

    function Extract(): T
      requires Ok?
    {
      value
    }
  }

  // The outcome of a check, or of a handler that returns no value.
  datatype Outcome<+E> = Pass | Fail(error: E) {
    predicate IsFailure() {
      Fail?
    }

    function PropagateFailure<U>(): Result<U, E>
      requires Fail?
    {
      Err(error)
    }
  }

  function Require<E>(condition: bool, error: E): (r: Outcome<E>) {
    if condition then Pass else Fail(error)
  }
}
