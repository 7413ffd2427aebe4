/** Machine integers, the crate-wide error and result types (src/main.rs), and
    the ASCII view of byte strings that the chunk layer relies on. */
module Prelude {

  /** Rust's `u8`. */
  newtype uint8 = x: int | 0 <= x < 0x100

  /** Rust's `u32`. */
  newtype uint32 = x: int | 0 <= x < 0x1_0000_0000

  type Bytes = seq<uint8>

  /** The crate's error is a boxed error built from a message; only the message is observable. */
  datatype Error = Error(message: string)

  /** The crate's `Result<T>` alias: a value or an `Error`. */
  datatype Result<+T> = Ok(value: T) | Err(error: Error)

  /** Every character of `s` is 7-bit ASCII. */
  predicate IsAscii(s: string) {
    forall i | 0 <= i < |s| :: s[i] as int < 0x80
  }

  /** Every byte of `b` is 7-bit ASCII. */
  predicate IsAsciiBytes(b: Bytes) {
    forall i | 0 <= i < |b| :: b[i] < 0x80
  }

  /** `str::as_bytes` on an ASCII string: one byte per character, holding its code. */
  function AsciiBytes(s: string): (r: Bytes)
    requires IsAscii(s)
    ensures |r| == |s|
    ensures IsAsciiBytes(r)
    ensures forall i | 0 <= i < |s| :: r[i] as int == s[i] as int
  {
    seq(|s|, i requires 0 <= i < |s| => s[i] as int as uint8)
  }

  /** Reading ASCII bytes back as text: one character per byte. */
  function AsciiString(b: Bytes): (r: string)
    requires IsAsciiBytes(b)
    ensures IsAscii(r)
    ensures AsciiBytes(r) == b
  {
    seq(|b|, i requires 0 <= i < |b| => b[i] as int as char)
  }

  /** Different ASCII strings have different byte encodings. */
  lemma AsciiBytesInjective(s: string, t: string)
    requires IsAscii(s) && IsAscii(t)
    requires AsciiBytes(s) == AsciiBytes(t)
    ensures s == t
  {
  }
}
