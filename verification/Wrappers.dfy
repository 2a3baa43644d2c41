module Wrappers {
  /** A value that may be missing: a nil reference or an absent entry. */
  datatype Option<+T> = None | Some(value: T)

  /** A value or an error. */
  datatype Result<+T, +E> = Ok(value: T) | Err(error: E)
}
