/** Types shared by every module: an absent value, a raised error, a byte. */
module Wrappers {
  datatype Option<+T> = None | Some(value: T)

  type Byte = b: int | 0 <= b < 256

  datatype Result<+T, +E> = Ok(value: T) | Err(error: E)
}
