/** The unit tests of src/chunk_type.rs, stated as lemmas about the model. */
module ChunkTypeExamples {
  import opened Prelude
  import opened ChunkTypes

  /** `[82, 117, 83, 116]` is the byte array of "RuSt". */
  lemma RuStBytes()
    ensures AsciiBytes("RuSt") == [82, 117, 83, 116]
  {
  }

  /** The type with bytes `[82, 117, 83, 116]` prints as "RuSt". */
  lemma RuStToString()
    ensures IsAsciiBytes([82, 117, 83, 116])
    ensures ToString(ChunkType([82, 117, 83, 116])) == "RuSt"
  {
  }

  /** `try_from([82, 117, 83, 116])` succeeds with those bytes, and
      `from_str("RuSt")` builds the same value. */
  lemma RuStFromBytesAndStr()
    ensures TryFromBytes([82, 117, 83, 116]) == Ok(ChunkType([82, 117, 83, 116]))
    ensures FromStr(AsciiBytes("RuSt")) == TryFromBytes([82, 117, 83, 116])
  {
    RuStBytes();
  }

  /** "RuSt" is critical, not public, reserved-bit-valid, safe to copy and
      valid, and prints back as "RuSt". */
  lemma RuStProperties()
    ensures FromStr(AsciiBytes("RuSt")).Ok?
    ensures var t := FromStr(AsciiBytes("RuSt")).value;
      && IsCritical(t) && !IsPublic(t) && IsReservedBitValid(t)
      && IsSafeToCopy(t) && IsValid(t)
      && IsAsciiBytes(t.bytes) && ToString(t) == "RuSt"
  {
    ToStringOfFromStr("RuSt");
  }

  /** "ruSt" is not critical; "RUSt" is public; "RuST" is not safe to copy. */
  lemma CaseFlips()
    ensures FromStr(AsciiBytes("ruSt")).Ok? && !IsCritical(FromStr(AsciiBytes("ruSt")).value)
    ensures FromStr(AsciiBytes("RUSt")).Ok? && IsPublic(FromStr(AsciiBytes("RUSt")).value)
    ensures FromStr(AsciiBytes("RuST")).Ok? && !IsSafeToCopy(FromStr(AsciiBytes("RuST")).value)
  {
  }

  /** `from_str` does not look at the reserved bit: "Rust" parses, yet it is
      neither valid nor reserved-bit-valid. A digit is rejected. */
  lemma ReservedBitNotChecked()
    ensures FromStr(AsciiBytes("Rust")).Ok?
    ensures !IsValid(FromStr(AsciiBytes("Rust")).value)
    ensures !IsReservedBitValid(FromStr(AsciiBytes("Rust")).value)
    ensures FromStr(AsciiBytes("Ru1t")) == Err(NotValidString)
  {
  }

  /** The length is checked only after the letters: a letters-only string
      of the wrong length and a short string with a digit fail alike. */
  lemma WrongLengthRejected()
    ensures FromStr(AsciiBytes("RuStX")) == Err(NotValidString)
    ensures FromStr(AsciiBytes("R1")) == Err(NotValidString)
    ensures FromStr([]) == Err(NotValidString)
  {
  }

  /** `try_from` on bytes checks byte 2 only: "11A1" is accepted although
      `from_str` rejects it, and "RuSt" with a lowercase byte 2 is refused. */
  lemma TryFromIgnoresLetters()
    ensures TryFromBytes([49, 49, 65, 49]) == Ok(ChunkType([49, 49, 65, 49]))
    ensures FromStr([49, 49, 65, 49]) == Err(NotValidString)
    ensures TryFromBytes([82, 117, 115, 116]) == Err(InvalidBytes)
  {
  }
}
