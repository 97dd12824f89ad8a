/** Option, Result and Outcome: the error paths of the modelled Python code
    (a raised exception becomes a `Failure`/`Err` value). */
module Wrappers {

  datatype Option<+T> = None | Some(value: T)

  datatype Result<+T, +E> = Ok(value: T) | Err(error: E)

  /** The outcome of an operation that returns nothing useful but may raise. */
  datatype Outcome<+E> = Pass | Fail(error: E)
}
