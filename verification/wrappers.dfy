/** Optional values and results that carry the error a Python function would raise. */
module Wrappers {

  /** An optional value. */
  datatype Option<+T> = None | Some(value: T)

  /** Either a value or the error raised instead of returning one. */
  datatype Result<+T, +E> = Ok(value: T) | Err(error: E)
}
