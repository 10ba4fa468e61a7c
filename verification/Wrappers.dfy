/** Result types shared by the models: a value, or the reason an operation raised. */
module Wrappers {
  datatype Option<+T> = None | Some(value: T)

  /** A failure-compatible result, so that a raised error propagates with `:-`. */
  datatype Result<+T, +E> = Ok(value: T) | Err(error: E) {
    predicate IsFailure() {
      Err?
    }

    function PropagateFailure<U>(): Result<U, E>
      requires Err?
    {
      Err(error)
    }

    function Extract(): T
      requires Ok?
    {
      value
    }
  }
}
