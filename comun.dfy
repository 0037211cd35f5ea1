/** Failure-carrying wrappers shared by every exercise: Python's `None` results and raised
    exceptions become values here. */
module Comun {

  /** An optional value: Python's `x | None`. */
  datatype Option<+T> = None | Some(value: T)

  /** A value or the exception that the Python code raises instead of returning it. */
  datatype Result<+T, +E> = Ok(value: T) | Err(error: E)

  /** The built-in exceptions the exercises raise on invalid input. */
  datatype Excepcion = ValueError | KeyError
}
