/** Strings of bytes, and the bytes of a 64 bit word. */
module Octets {
  type Bytes = seq<bv8>

  /** The byte that a shift to the right brings to the bottom. */
  function ByteOf(w: bv64, shift: nat): bv8
    requires shift <= 56
  {
    ((w >> shift) & 0xff) as bv8
  }
}
