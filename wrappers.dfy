/** Option and Result types shared by the other modules. */
module Wrappers {

  /** A value that may be missing: `None` stands for a missing value (Python's None). */
  datatype Option<+T> = None | Some(value: T)

  /** The outcome of an operation that the source aborts with an exception. */
  datatype Result<+T, +E> = Success(value: T) | Failure(error: E)
}
