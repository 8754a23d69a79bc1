/** Files as bytes. */
module Octets {

  newtype Byte = b: int | 0 <= b < 256
  type Bytes = seq<Byte>

  const NUL: Byte := 0
  const NEWLINE: Byte := 10
}
