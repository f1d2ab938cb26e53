/** Bytes, shared by the models of binary formats. */
module Bytes {
  type Byte = b: int | 0 <= b < 256
}
