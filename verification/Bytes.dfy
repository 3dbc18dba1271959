/** The lowest byte of a word. */
module Bytes {
  function Byte(w: bv32): bv8 { (w & 0xFF) as bv8 }
}
