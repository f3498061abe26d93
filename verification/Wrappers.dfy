/** Results and optional values, as the program's `Option` and `Result` types. */
module Wrappers {

  datatype Option<+T> = None | Some(value: T)

  datatype Result<+T, +E> = Ok(value: T) | Err(error: E)

  /** One octet of a stream or of a file. */
  newtype byte = x: int | 0 <= x < 256
}
