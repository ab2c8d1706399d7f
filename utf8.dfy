/**
 * What the core takes from Rust's standard library about text: the
 * well-formedness check of `str::from_utf8` and the scalar-value count of
 * `chars().count()`, both defined over the UTF-8 byte form of RFC 3629
 * (section 4, the table of well-formed byte sequences).
 */
module Utf8 {
  import opened Types

  predicate IsContinuation(b: uint8) { 0x80 <= b <= 0xBF }

  /** Length of the well-formed encoding of one scalar value at the start of `s`, or 0 if there is none. */
  function SequenceLength(s: seq<uint8>): (n: nat)
    ensures n <= 4 && n <= |s|
    ensures n > 0 ==> (s[0] < 0x80 <==> n == 1)
  {
    if |s| == 0 then 0
    else if s[0] < 0x80 then 1
    else if 0xC2 <= s[0] <= 0xDF then
      if |s| >= 2 && IsContinuation(s[1]) then 2 else 0
    else if s[0] == 0xE0 then
      if |s| >= 3 && 0xA0 <= s[1] <= 0xBF && IsContinuation(s[2]) then 3 else 0
    else if 0xE1 <= s[0] <= 0xEC || 0xEE <= s[0] <= 0xEF then
      if |s| >= 3 && IsContinuation(s[1]) && IsContinuation(s[2]) then 3 else 0
    else if s[0] == 0xED then
      if |s| >= 3 && 0x80 <= s[1] <= 0x9F && IsContinuation(s[2]) then 3 else 0
    else if s[0] == 0xF0 then
      if |s| >= 4 && 0x90 <= s[1] <= 0xBF && IsContinuation(s[2]) && IsContinuation(s[3]) then 4 else 0
    else if 0xF1 <= s[0] <= 0xF3 then
      if |s| >= 4 && IsContinuation(s[1]) && IsContinuation(s[2]) && IsContinuation(s[3]) then 4 else 0
    else if s[0] == 0xF4 then
      if |s| >= 4 && 0x80 <= s[1] <= 0x8F && IsContinuation(s[2]) && IsContinuation(s[3]) then 4 else 0
    else 0
  }

  /** Length of the longest prefix of `s` made of whole well-formed sequences (`Utf8Error::valid_up_to`). */
  function ValidUpTo(s: seq<uint8>): (n: nat)
    ensures n <= |s|
    decreases |s|
  {
    var k := SequenceLength(s);
    if k == 0 then 0 else k + ValidUpTo(s[k..])
  }

  predicate Valid(s: seq<uint8>) {
    ValidUpTo(s) == |s|
  }

  /** Number of Unicode scalar values in the valid prefix of `s` (`chars().count()` on valid text). */
  function CharCount(s: seq<uint8>): nat
    decreases |s|
  {
    var k := SequenceLength(s);
    if k == 0 then 0 else 1 + CharCount(s[k..])
  }

  /** `str::from_utf8`: the same bytes as text, or the position where well-formedness ends. */
  function FromUtf8(bytes: seq<uint8>): (r: Result<seq<uint8>>)
    ensures r.Ok? <==> Valid(bytes)
    ensures r.Ok? ==> r.value == bytes
    ensures r.Err? ==> r.error == Error.Utf8(ValidUpTo(bytes)) && ValidUpTo(bytes) < |bytes|
  {
    if Valid(bytes) then Ok(bytes) else Err(Error.Utf8(ValidUpTo(bytes)))
  }

  /** A scalar value takes one to four bytes, so valid text has between |s|/4 and |s| of them. */
  lemma {:induction false} CharCountBounds(s: seq<uint8>)
    requires Valid(s)
    ensures CharCount(s) <= |s| <= 4 * CharCount(s)
    decreases |s|
  {
    var k := SequenceLength(s);
    if k != 0 {
      CharCountBounds(s[k..]);
    }
  }

  /** Every byte string below 0x80 is valid text with one scalar value per byte. */
  lemma {:induction false} AsciiIsValid(s: seq<uint8>)
    requires forall i :: 0 <= i < |s| ==> s[i] < 0x80
    ensures Valid(s) && CharCount(s) == |s|
    decreases |s|
  {
    if |s| != 0 {
      AsciiIsValid(s[1..]);
    }
  }
}
