/** Option and Result, the two failure-carrying datatypes the model uses. */
module Wrappers {

  /** `None` stands for Python's `None` (a cancelled dialog, a missing value). */
  datatype Option<+T> = None | Some(value: T)

  /** The outcome of an operation that can raise, usable with `:-`. */
  datatype Result<+T, +E> = Ok(value: T) | Err(error: E) {
    predicate IsFailure() { Err? }

    function PropagateFailure<U>(): Result<U, E>
      requires Err?
    {
      Err(error)
    }

    function Extract(): T
      requires Ok?
    {
      value
    }
  }
}
