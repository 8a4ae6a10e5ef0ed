/** Outcome types shared by the whole model. */
module Wrappers {

  datatype Option<+T> = None | Some(value: T)

  /** A value, or the exception that computing it raised. Usable with `:-`. */
  datatype Result<+T, +E> = Ok(value: T) | Err(error: E) {

    predicate IsFailure() {
      Err?
    }

    function PropagateFailure<U>(): Result<U, E>
      requires Err?
    {
      Err(error)
    }

    function Extract(): T
      requires Ok?
    {
      value
    }
  }

  /** The Python exceptions the modelled code can raise without catching them. */
  datatype Fault =
    | ValueError     // strptime rejects the text, or datetime rejects a field
    | OverflowError  // datetime arithmetic leaves the years 1..9999
    | TypeError      // integer division applied to a duration that is a string
    | IndexError     // a command-line argument that is not there
}
