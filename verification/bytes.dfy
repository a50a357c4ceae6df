/** Octets, as Node's `Buffer` stores them. */
module Bytes {

  type Byte = x: int | 0 <= x < 256
}
