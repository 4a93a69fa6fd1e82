/** The optional and fallible values shared by the other modules. */
module Wrappers {

  /** A pointer that may be nil, or a row that may be missing. */
  datatype Option<+T> = None | Some(value: T)

  /** A value together with the error the source may return instead of it. */
  datatype Result<+T, +E> = Ok(value: T) | Err(error: E)
}
