/** Optional values and results with an error, usable with `:-`. */
module Wrappers {

  /** Rust's `Option`: an absent value or a present one. */
  datatype Option<+T> = None | Some(value: T)

  /** A computation that either produces a value or stops with an error
      (a Rust `panic!` in the modelled code becomes `Err`). */
  datatype Result<+T, +E> = Ok(value: T) | Err(error: E) {

    predicate IsFailure() {
      Err?
    }

    function PropagateFailure<U>(): Result<U, E>
      requires Err?
    {
      Err(error)
    }

    function Extract(): T
      requires Ok?
    {
      value
    }
  }
}
