/** Well-formed UTF-8, as `str::from_utf8` decides it: the byte sequences of
    Table 3-7 of the Unicode Standard (section 3.9), no overlong forms, no
    surrogates, nothing above U+10FFFF. */
module Utf8 {
  import opened Prelude

  predicate InRange(b: uint8, lo: int, hi: int) {
    lo <= b as int <= hi
  }

  predicate IsContinuation(b: uint8) {
    InRange(b, 0x80, 0xBF)
  }

  /** The length of the well-formed sequence that starts `s`, or 0 when `s`
      does not start with one. */
  function LeadingScalarLength(s: Bytes): (n: nat)
    requires |s| > 0
    ensures n <= 4 && n <= |s|
    ensures s[0] < 0x80 ==> n == 1
    ensures IsContinuation(s[0]) ==> n == 0
  {
    var b := s[0];
    if b < 0x80 then 1
    else if InRange(b, 0xC2, 0xDF) then
      (if |s| >= 2 && IsContinuation(s[1]) then 2 else 0)
    else if b == 0xE0 then
      (if |s| >= 3 && InRange(s[1], 0xA0, 0xBF) && IsContinuation(s[2]) then 3 else 0)
    else if InRange(b, 0xE1, 0xEC) || InRange(b, 0xEE, 0xEF) then
      (if |s| >= 3 && IsContinuation(s[1]) && IsContinuation(s[2]) then 3 else 0)
    else if b == 0xED then
      (if |s| >= 3 && InRange(s[1], 0x80, 0x9F) && IsContinuation(s[2]) then 3 else 0)
    else if b == 0xF0 then
      (if |s| >= 4 && InRange(s[1], 0x90, 0xBF) && IsContinuation(s[2]) && IsContinuation(s[3]) then 4 else 0)
    else if InRange(b, 0xF1, 0xF3) then
      (if |s| >= 4 && IsContinuation(s[1]) && IsContinuation(s[2]) && IsContinuation(s[3]) then 4 else 0)
    else if b == 0xF4 then
      (if |s| >= 4 && InRange(s[1], 0x80, 0x8F) && IsContinuation(s[2]) && IsContinuation(s[3]) then 4 else 0)
    else 0
  }

  /** `s` splits into well-formed UTF-8 sequences. */
  predicate IsUtf8(s: Bytes)
    decreases |s|
  {
    |s| == 0 || (var n := LeadingScalarLength(s); n > 0 && IsUtf8(s[n..]))
  }

  /** ASCII text is valid UTF-8. */
  lemma {:induction false} AsciiIsUtf8(s: Bytes)
    requires IsAsciiBytes(s)
    ensures IsUtf8(s)
    decreases |s|
  {
    if |s| > 0 {
      assert IsAsciiBytes(s[1..]);
      AsciiIsUtf8(s[1..]);
    }
  }
}
