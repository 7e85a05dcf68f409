/** An optional value and a tagged error result. */
module Wrappers {

  /** A value that may be missing (Python's None, pandas' NaN). */
  datatype Option<+T> = None | Some(value: T)

  /** Either a value or one of the named error kinds. */
  datatype Result<+R, +E> = Success(value: R) | Failure(error: E)
}
