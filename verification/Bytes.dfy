/** A byte and the sequences of them. */
module Bytes {
  type byte = x: int | 0 <= x < 256
}
