/** Octets, as the encoders of this model produce and consume them. */
module Bytes {

  type byte = b: int | 0 <= b < 0x100
}
