/** Helper types shared by the polyfile model: an optional value, and the outcome of a
    handler that may raise. */
module Wrappers {

  /** A value that may be absent (Python's `Optional`). */
  datatype Option<+T> = None | Some(value: T)

  /** The outcome of evaluating a Python expression that may raise: either its value,
      or the name of the exception it raises. */
  datatype Result<+T> = Ok(value: T) | Raised(exception: string)
}
