/** Octets, the unit of every packet and payload here. */
module Bytes {
  newtype byte = x: int | 0 <= x < 256
}
