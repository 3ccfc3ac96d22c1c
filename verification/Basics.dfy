/** Value types shared by the models: optional values, bytes and byte strings. */
module Basics {

  datatype Option<+T> = None | Some(value: T)

  newtype Byte = b: int | 0 <= b < 256

  type Bytes = seq<Byte>

  /** File content where it is read as text: one character for each byte. */
  type Raw = string
}
