/** Optional values: SQL NULL, Python None, a missing JSON field. */
module Wrappers {

  datatype Option<+T> = None | Some(value: T)

  /** Outcome of an operation that can raise, carrying the failure reason. */
  datatype Result<+T, +E> = Ok(value: T) | Err(error: E)
}
