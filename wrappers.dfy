/** Optional values and results, as used by every layer of the model. */
module Wrappers {

  /** A value that may be absent (Python's `Optional[...]` / SQL `NULL`). */
  datatype Option<+T> = None | Some(value: T)

  /** Either a value or an error. */
  datatype Result<+R, +E> = Success(value: R) | Failure(error: E)
}
