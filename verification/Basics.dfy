/** Types shared by every component of the model. */
module Basics {

  /** Identifiers (devices, plans, runs, ...) are the source's strings. */
  type Id = string

  datatype Option<+T> = None | Some(value: T)

  /** A value, or the class of exception that the source raises. */
  datatype Result<+T, +E> = Ok(value: T) | Err(error: E) {
    predicate IsFailure() { Err? }

    function PropagateFailure<U>(): Result<U, E>
      requires Err?
    {
      Err(error)
    }

    function Extract(): T
      requires Ok?
    {
      value
    }
  }
}
