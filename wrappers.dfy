/** Failure-compatible wrappers shared by every module: `Option` for values the
    source may leave `undefined`/`None`, `Result` for thrown errors and `Err`s
    (with the members that let `:-` stand for Rust's `?`). */
module Wrappers {

  datatype Option<+T> = None | Some(value: T)

  datatype Result<+T, +E> = Ok(value: T) | Err(error: E) {
    predicate IsFailure() {
      Err?
    }

    function PropagateFailure<U>(): Result<U, E>
      requires Err?
    {
      Err(error)
    }

    function Extract(): T
      requires Ok?
    {
      value
    }
  }
}
