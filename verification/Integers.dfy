/** The widths of the source's unsigned integers. */
module Integers {
  const U16: nat := 0x1_0000
  const U32: nat := 0x1_0000_0000
}
