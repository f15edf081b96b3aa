/** Option and Result values used for the program's lookups that can fail. */
module Wrappers {

  /** A value that may be missing, as `None` stands for Python's "not found". */
  datatype Option<+T> = None | Some(value: T)

  /** Either a computed value or the error that would have been raised. */
  datatype Result<+R, +E> = Success(value: R) | Failure(error: E)
}
