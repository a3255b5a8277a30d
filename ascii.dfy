/** ASCII text helpers used by the platform identifier: case folding in the
    manner of `str.lower()` restricted to ASCII letters, a reference
    definition of "equal up to case" against a lower-case pattern, and the
    ASCII encoding of text as bytes. */
module Ascii {

  newtype byte = b: int | 0 <= b < 256

  predicate IsUpper(c: char) { 'A' <= c <= 'Z' }

  predicate IsLower(c: char) { 'a' <= c <= 'z' }

  /** Text without upper-case ASCII letters, such as every key of a table of lower-cased names. */
  predicate IsLowerCase(s: string) {
    forall i :: 0 <= i < |s| ==> !IsUpper(s[i])
  }

  predicate IsAscii(s: string) {
    forall i :: 0 <= i < |s| ==> s[i] as int < 128
  }

  function LowerChar(c: char): char {
    if IsUpper(c) then (c as int + 32) as char else c
  }

  function UpperChar(c: char): char {
    if IsLower(c) then (c as int - 32) as char else c
  }

  /** `s.lower()` on ASCII letters; every other character is kept. */
  function ToLower(s: string): (r: string)
    ensures |r| == |s|
    ensures IsLowerCase(r)
    ensures forall i :: 0 <= i < |s| ==> r[i] == s[i] || (IsUpper(s[i]) && UpperChar(r[i]) == s[i])
  {
    if s == [] then [] else [LowerChar(s[0])] + ToLower(s[1..])
  }

  /** `s` spells the lower-case `pattern` with any mix of cases: each of its
      characters is the pattern's character or that character's upper-case form. */
  predicate MatchesIgnoringCase(s: string, pattern: string) {
    |s| == |pattern| &&
    forall i :: 0 <= i < |s| ==> s[i] == pattern[i] || s[i] == UpperChar(pattern[i])
  }

  /** Lower-casing `s` yields the lower-case `pattern` exactly when `s` is one
      of the spellings of `pattern` that differ only in case. */
  lemma ToLowerMatches(s: string, pattern: string)
    requires IsLowerCase(pattern)
    ensures ToLower(s) == pattern <==> MatchesIgnoringCase(s, pattern)
  {
    var r := ToLower(s);
    if |s| == |pattern| {
      forall i | 0 <= i < |s|
        ensures r[i] == pattern[i] <==> (s[i] == pattern[i] || s[i] == UpperChar(pattern[i]))
      {
        assert !IsUpper(pattern[i]);
      }
      if MatchesIgnoringCase(s, pattern) {
        assert forall i :: 0 <= i < |r| ==> r[i] == pattern[i];
      }
    }
  }

  /** Case folding forgets case only: folding twice is folding once. */
  lemma ToLowerIdempotent(s: string)
    ensures ToLower(ToLower(s)) == ToLower(s)
  {
    var r := ToLower(s);
    assert MatchesIgnoringCase(r, r);
    ToLowerMatches(r, r);
  }

  /** The ASCII encoding of text: one byte per character, holding its code point. */
  function Encode(s: string): (r: seq<byte>)
    requires IsAscii(s)
    ensures |r| == |s|
    ensures forall i :: 0 <= i < |s| ==> r[i] as int == s[i] as int
  {
    if s == [] then [] else [s[0] as int as byte] + Encode(s[1..])
  }

  /** The decoding of bytes as Latin-1 / ASCII text: one character per byte. */
  function Decode(b: seq<byte>): (r: string)
    ensures |r| == |b|
    ensures forall i :: 0 <= i < |b| ==> r[i] as int == b[i] as int
  {
    if b == [] then [] else [b[0] as int as char] + Decode(b[1..])
  }

  lemma DecodeEncode(s: string)
    requires IsAscii(s)
    ensures Decode(Encode(s)) == s
  {
    var r := Decode(Encode(s));
    assert forall i :: 0 <= i < |s| ==> r[i] as int == s[i] as int;
    assert forall i :: 0 <= i < |s| ==> r[i] == s[i];
  }

  lemma EncodeDecode(b: seq<byte>)
    requires forall i :: 0 <= i < |b| ==> b[i] < 128
    ensures IsAscii(Decode(b)) && Encode(Decode(b)) == b
  {
    var s := Decode(b);
    assert IsAscii(s);
    var r := Encode(s);
    assert forall i :: 0 <= i < |b| ==> r[i] == b[i];
  }
}
