/** The checksum the chunk layer uses: the `crc` crate's `CRC_32_MEF`
    catalogue entry (src/chunk.rs:6, 11), not the CRC-32/ISO-HDLC that PNG
    files normally carry.

    The definition follows the published parameters of CRC-32/MEF
    (width 32, polynomial 0x741B8CD7, reflected input and output, initial
    register 0xFFFFFFFF, no final XOR) so that the model has a body, but no
    proof in this project looks inside it: every property of the chunk layer
    holds for any function of this signature. */
module Crc32 {
  import opened Prelude

  /** The polynomial 0x741B8CD7 with its bits reversed, for a reflected register. */
  const ReflectedPoly: bv32 := 0xEB31_D82E

  const InitialRegister: bv32 := 0xFFFF_FFFF

  const FinalXor: bv32 := 0

  /** One step of the reflected shift register. */
  function ShiftBit(reg: bv32): bv32 {
    if reg & 1 == 1 then (reg >> 1) ^ ReflectedPoly else reg >> 1
  }

  function ShiftBits(reg: bv32, k: nat): bv32
    decreases k
  {
    if k == 0 then reg else ShiftBits(ShiftBit(reg), k - 1)
  }

  /** Feeds one byte, least significant bit first. */
  function Feed(reg: bv32, b: uint8): bv32 {
    ShiftBits(reg ^ (b as int as bv32), 8)
  }

  function Register(reg: bv32, s: Bytes): bv32
    decreases |s|
  {
    if |s| == 0 then reg else Register(Feed(reg, s[0]), s[1..])
  }

  /** `CRC.checksum(s)`. */
  function Crc(s: Bytes): uint32 {
    (Register(InitialRegister, s) ^ FinalXor) as int as uint32
  }
}
