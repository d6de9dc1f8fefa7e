/** The failure-compatible results used throughout: a value that may be absent,
    and a value or the error that replaced it. */
module Wrappers {
  datatype Option<+T> = None | Some(value: T)

  datatype Result<+T, +E> = Ok(value: T) | Err(error: E) {
    predicate IsFailure() { Err? }
    function PropagateFailure<U>(): Result<U, E>
      requires Err?
    { Err(error) }
    function Extract(): T
      requires Ok?
    { value }
  }
}
