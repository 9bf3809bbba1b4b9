/** The two shapes a fallible or optional value takes throughout. */
module Wrappers {
  datatype Option<+T> = None | Some(value: T)

  /** store.ErrInvalid, store.ErrNotFound and store.ErrConflict. */
  datatype Error = Invalid | NotFound | Conflict

  datatype Result<+T> = Ok(value: T) | Err(error: Error) {
    predicate IsFailure() {
      Err?
    }

    function PropagateFailure<U>(): Result<U>
      requires Err?
    {
      Err(error)
    }

    function Extract(): T
      requires Ok?
    {
      value
    }
  }
}
