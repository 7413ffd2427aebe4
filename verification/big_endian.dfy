/** Big-endian 32-bit words on the wire: `calculate_from_bytes`
    (src/chunk.rs:55-60) and its inverse `u32::to_be_bytes`. */
module BigEndian {
  import opened Prelude

  /** The number a byte string denotes when read most significant byte first. */
  function BigEndianValue(s: Bytes): nat
    decreases |s|
  {
    if |s| == 0 then 0 else BigEndianValue(s[..|s| - 1]) * 256 + s[|s| - 1] as int
  }

  /** `calculate_from_bytes`: `read_exact` into a 4-byte buffer and
      `u32::from_be_bytes`. Fewer than four bytes make `read_exact` fail and
      the `unwrap` panic; bytes after the fourth are ignored. */
  function CalculateFromBytes(bytes: Bytes): (r: uint32)
    requires |bytes| >= 4
    ensures r as int == BigEndianValue(bytes[..4])
  {
    var b0, b1, b2, b3 := bytes[0] as int, bytes[1] as int, bytes[2] as int, bytes[3] as int;
    assert BigEndianValue(bytes[..1]) == b0 by { assert bytes[..1][..0] == []; }
    assert BigEndianValue(bytes[..2]) == b0 * 0x100 + b1 by { assert bytes[..2][..1] == bytes[..1]; }
    assert BigEndianValue(bytes[..3]) == (b0 * 0x100 + b1) * 0x100 + b2 by { assert bytes[..3][..2] == bytes[..2]; }
    assert bytes[..4][..3] == bytes[..3];
    (((b0 * 0x100 + b1) * 0x100 + b2) * 0x100 + b3) as uint32
  }

  /** `u32::to_be_bytes`: four bytes, most significant first, that
      `calculate_from_bytes` reads back as the same word. */
  function ToBeBytes(x: uint32): (r: Bytes)
    ensures |r| == 4
    ensures CalculateFromBytes(r) == x
  {
    var v := x as int;
    var b3, v1 := v % 0x100, v / 0x100;
    var b2, v2 := v1 % 0x100, v1 / 0x100;
    var b1, b0 := v2 % 0x100, v2 / 0x100;
    assert v == v1 * 0x100 + b3 && v1 == v2 * 0x100 + b2 && v2 == b0 * 0x100 + b1;
    assert b0 < 0x100;
    [b0 as uint8, b1 as uint8, b2 as uint8, b3 as uint8]
  }

  /** The other direction: encoding the word read from four bytes gives
      those four bytes back. */
  lemma ToBeBytesOfCalculate(bytes: Bytes)
    requires |bytes| >= 4
    ensures ToBeBytes(CalculateFromBytes(bytes)) == bytes[..4]
  {
  }

  /** Reading a word from an encoding followed by anything gives the word. */
  lemma CalculateOfPrefix(x: uint32, rest: Bytes)
    ensures CalculateFromBytes(ToBeBytes(x) + rest) == x
  {
  }
}
