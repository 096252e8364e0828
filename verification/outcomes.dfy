/** Failure-carrying wrappers shared by the rest of the model. */
module Outcomes {

  /** A value that may be absent: Python's `Optional[...]` and "not found". */
  datatype Option<+T> = None | Some(value: T)

  /** The outcome of a step that either produces a value or raises. */
  datatype Result<+T, +E> = Ok(value: T) | Err(error: E)
}
