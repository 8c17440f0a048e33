/** The eight-bit byte the modules share. */
module Bytes {
  type Byte = n: int | 0 <= n < 0x100
}
