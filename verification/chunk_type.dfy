/** The four-byte chunk type of src/chunk_type.rs and its case-encoded
    property bits (section 3.3 of the PNG specification, "Chunk layout", and
    section 14.1, "Chunk naming conventions"). */
module ChunkTypes {
  import opened Prelude

  /** Four raw bytes: Rust's `[u8; 4]`. */
  type Quad = s: Bytes | |s| == 4 witness [0, 0, 0, 0]

  /** `ChunkType(pub [u8; 4])`: any four bytes; equality is byte-wise. The
      field `bytes` is the accessor `bytes()`. */
  datatype ChunkType = ChunkType(bytes: Quad)

  const UpperAlphabet: string := "ABCDEFGHIJKLMNOPQRSTUVWXYZ"
  const LowerAlphabet: string := "abcdefghijklmnopqrstuvwxyz"

  const NotValidString := Error("not a valid string")
  const InvalidBytes := Error("bytes is invalid bytes")

  /** The letter a byte stands for, when it is ASCII. */
  function Letter(b: uint8): char
    requires b < 0x80
  {
    b as int as char
  }

  /** `u8::is_ascii_uppercase`: the byte is one of `A`..`Z`. */
  function IsAsciiUppercase(b: uint8): (r: bool)
    ensures r <==> b < 0x80 && Letter(b) in UpperAlphabet
  {
    'A' as uint8 <= b <= 'Z' as uint8
  }

  /** `u8::is_ascii_lowercase`: the byte is one of `a`..`z`. */
  function IsAsciiLowercase(b: uint8): (r: bool)
    ensures r <==> b < 0x80 && Letter(b) in LowerAlphabet
  {
    'a' as uint8 <= b <= 'z' as uint8
  }

  /** The PNG property bit a chunk-type letter carries: bit 5 of the byte,
      which is 0 for an uppercase letter and 1 for a lowercase one. */
  function PropertyBit(b: uint8): bool {
    (b as int / 32) % 2 == 1
  }

  /** `ChunkType::is_valid_byte`: the byte is an ASCII letter. For such a
      byte its case and its PNG property bit say the same thing. */
  function IsValidByte(b: uint8): (r: bool)
    ensures r <==> b < 0x80 && (Letter(b) in UpperAlphabet || Letter(b) in LowerAlphabet)
    ensures r ==> (IsAsciiUppercase(b) <==> !PropertyBit(b))
  {
    IsAsciiUppercase(b) || IsAsciiLowercase(b)
  }

  /** `is_critical`: the ancillary bit (byte 0) is uppercase. */
  function IsCritical(t: ChunkType): (r: bool)
    ensures r <==> t.bytes[0] < 0x80 && Letter(t.bytes[0]) in UpperAlphabet
    ensures IsValidByte(t.bytes[0]) ==> (r <==> !PropertyBit(t.bytes[0]))
  {
    IsAsciiUppercase(t.bytes[0])
  }

  /** `is_public`: the private bit (byte 1) is uppercase. */
  function IsPublic(t: ChunkType): (r: bool)
    ensures r <==> t.bytes[1] < 0x80 && Letter(t.bytes[1]) in UpperAlphabet
    ensures IsValidByte(t.bytes[1]) ==> (r <==> !PropertyBit(t.bytes[1]))
  {
    IsAsciiUppercase(t.bytes[1])
  }

  /** `is_reserved_bit_valid`: the reserved bit (byte 2) is uppercase. */
  function IsReservedBitValid(t: ChunkType): (r: bool)
    ensures r <==> t.bytes[2] < 0x80 && Letter(t.bytes[2]) in UpperAlphabet
    ensures IsValidByte(t.bytes[2]) ==> (r <==> !PropertyBit(t.bytes[2]))
  {
    IsAsciiUppercase(t.bytes[2])
  }

  /** `is_safe_to_copy`: the safe-to-copy bit (byte 3) is NOT uppercase.
      Note that a non-letter byte 3 also counts as safe to copy. */
  function IsSafeToCopy(t: ChunkType): (r: bool)
    ensures r <==> !(t.bytes[3] < 0x80 && Letter(t.bytes[3]) in UpperAlphabet)
    ensures IsValidByte(t.bytes[3]) ==> (r <==> PropertyBit(t.bytes[3]))
  {
    !IsAsciiUppercase(t.bytes[3])
  }

  /** `is_valid`: only the reserved bit is inspected, so it coincides with
      `is_reserved_bit_valid`; the letters are not checked. */
  function IsValid(t: ChunkType): (r: bool)
    ensures r <==> IsReservedBitValid(t)
    ensures r <==> t.bytes[2] < 0x80 && Letter(t.bytes[2]) in UpperAlphabet
  {
    var c := t.bytes[2];
    IsAsciiUppercase(c)
  }

  /** `to_string` on a type whose bytes are ASCII: the bytes read as text.
      (The source unwraps `str::from_utf8`, which cannot fail on ASCII.) */
  function ToString(t: ChunkType): (r: string)
    requires IsAsciiBytes(t.bytes)
    ensures |r| == 4
    ensures IsAscii(r) && AsciiBytes(r) == t.bytes
  {
    AsciiString(t.bytes)
  }

  /** The loop of `from_str`: every byte is an ASCII letter. */
  function AllValidBytes(s: Bytes): (r: bool)
    ensures r <==> forall i | 0 <= i < |s| :: IsValidByte(s[i])
    decreases |s|
  {
    if |s| == 0 then true
    else if !IsValidByte(s[0]) then false
    else AllValidBytes(s[1..])
  }

  /** `FromStr::from_str`, given the string's bytes (`s.as_bytes()`): it
      rejects any non-letter byte, then any length other than four, both
      with the same error. The reserved bit is not checked. */
  function FromStr(s: Bytes): (r: Result<ChunkType>)
    ensures r.Ok? <==> |s| == 4 && forall i | 0 <= i < |s| :: IsValidByte(s[i])
    ensures r.Ok? ==> r.value.bytes == s
    ensures r.Err? ==> r.error == NotValidString
  {
    if !AllValidBytes(s) then Err(NotValidString)
    else if |s| != 4 then Err(NotValidString)
    else Ok(ChunkType(s))
  }

  /** `TryFrom<[u8; 4]>::try_from`: accepted exactly when `is_valid` holds,
      i.e. byte 2 is uppercase; the other bytes are not checked at all. */
  function TryFromBytes(b: Quad): (r: Result<ChunkType>)
    ensures r.Ok? <==> b[2] < 0x80 && Letter(b[2]) in UpperAlphabet
    ensures r.Ok? <==> IsValid(ChunkType(b))
    ensures r.Ok? ==> r.value.bytes == b
    ensures r.Err? ==> r.error == InvalidBytes
  {
    var chunk := ChunkType(b);
    if IsValid(chunk) then Ok(chunk) else Err(InvalidBytes)
  }

  /** `is_valid` and `is_reserved_bit_valid` agree on every chunk type. */
  lemma ValidIffReservedBitValid(t: ChunkType)
    ensures IsValid(t) <==> IsReservedBitValid(t)
  {
  }

  /** Every type `from_str` builds consists of four ASCII letters, so its
      bytes are ASCII and each property bit is decided by the letter's case. */
  lemma FromStrYieldsLetters(s: Bytes)
    requires FromStr(s).Ok?
    ensures forall i | 0 <= i < 4 :: IsValidByte(FromStr(s).value.bytes[i])
    ensures IsAsciiBytes(FromStr(s).value.bytes)
  {
  }

  /** `to_string` gives back the text `from_str` parsed. */
  lemma ToStringOfFromStr(s: string)
    requires IsAscii(s)
    requires FromStr(AsciiBytes(s)).Ok?
    ensures ToString(FromStr(AsciiBytes(s)).value) == s
  {
  }

  /** A type that `from_str` accepts and that passes `is_valid` is accepted
      by `try_from` as the same value, and conversely `try_from` accepts
      every valid byte array whose bytes are all letters. */
  lemma FromStrAgreesWithTryFrom(b: Quad)
    ensures FromStr(b).Ok? && IsValid(FromStr(b).value) ==> TryFromBytes(b) == FromStr(b)
    ensures TryFromBytes(b).Ok? && AllValidBytes(b) ==> FromStr(b) == TryFromBytes(b)
  {
  }
}
