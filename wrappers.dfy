/** Absent values (an SQL NULL, a missing query parameter) and operations that can fail. */
module Wrappers {
  datatype Option<+T> = None | Some(value: T)

  datatype Result<+T, +E> = Ok(value: T) | Err(error: E)
}
