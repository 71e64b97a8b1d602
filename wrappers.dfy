/** The optional value and the success-or-error value used throughout the model. */
module Wrappers {
  /** A value that may be absent: an empty spreadsheet cell, or a cost pandas could not parse. */
  datatype Option<+T> = None | Some(value: T)

  /** The outcome of a computation that can fail with an error of type E. */
  datatype Result<+T, +E> = Success(value: T) | Failure(error: E)
}
