/** Outcome types shared by every component. */
module Wrappers {

  /** Python's None, or a value. */
  datatype Option<+T> = None | Some(value: T)

  /** The source's exceptions: an operation either yields a value or raises. */
  datatype Result<+T, +E> = Ok(value: T) | Err(error: E)

  type Byte = x: int | 0 <= x < 256
  type Bytes = seq<Byte>
}
