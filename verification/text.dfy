/**
 * Character-level operations on Swift strings, modelled as sequences of Unicode
 * scalar values: `lowercased()` (ASCII letters only) and `utf16.count`.
 */
module Text {

  predicate IsUpperChar(c: char)
  {
    'A' <= c <= 'Z'
  }

  /** ASCII case folding of one character; every other character is left alone. */
  function LowerChar(c: char): (d: char)
    ensures !IsUpperChar(d)
    ensures !IsUpperChar(c) ==> d == c
    ensures IsUpperChar(c) ==> d as int == c as int + 32
  {
    if IsUpperChar(c) then (c as int + 32) as char else c
  }

  /** A string with no upper-case letter, i.e. one `lowercased()` leaves unchanged. */
  predicate IsLower(s: string)
  {
    forall i :: 0 <= i < |s| ==> !IsUpperChar(s[i])
  }

  /** `lowercased()`: folds every letter, keeps the length, and fixes lower-case strings. */
  function Lower(s: string): (r: string)
    ensures |r| == |s|
    ensures forall i :: 0 <= i < |s| ==> r[i] == LowerChar(s[i])
    ensures IsLower(r)
    ensures IsLower(s) ==> r == s
  {
    seq(|s|, i requires 0 <= i < |s| => LowerChar(s[i]))
  }

  /** Lower-casing twice is lower-casing once. */
  lemma LowerIdempotent(s: string)
    ensures Lower(Lower(s)) == Lower(s)
  {
  }

  /** A UTF-16 code unit. */
  type CodeUnit = x: int | 0 <= x < 0x1_0000

  /** Number of UTF-16 code units one scalar value takes: two above the Basic Multilingual Plane. */
  function Utf16Width(c: char): nat
  {
    if c as int < 0x1_0000 then 1 else 2
  }

  /** `utf16.count`: the length of the string's UTF-16 encoding. */
  function Utf16Length(s: string): (n: nat)
    ensures |s| <= n <= 2 * |s|
    ensures n == 0 <==> s == []
  {
    if |s| == 0 then 0 else Utf16Width(s[0]) + Utf16Length(s[1..])
  }

  /** The UTF-16 encoding of one scalar value: itself, or a high and a low surrogate. */
  function EncodeChar(c: char): (units: seq<CodeUnit>)
    ensures |units| == Utf16Width(c)
    ensures Utf16Width(c) == 1 ==> units == [c as int]
    ensures Utf16Width(c) == 2 ==>
      && 0xD800 <= units[0] < 0xDC00
      && 0xDC00 <= units[1] < 0xE000
      && (units[0] as int - 0xD800) * 0x400 + (units[1] as int - 0xDC00) + 0x1_0000 == c as int
  {
    var v := c as int;
    if v < 0x1_0000 then [v]
    else
      var w := v - 0x1_0000;
      [0xD800 + w / 0x400, 0xDC00 + w % 0x400]
  }

  /** The UTF-16 encoding of a string. */
  function Utf16Encode(s: string): seq<CodeUnit>
  {
    if |s| == 0 then [] else EncodeChar(s[0]) + Utf16Encode(s[1..])
  }

  /** `Utf16Length` counts exactly the code units of the encoding. */
  lemma {:induction false} Utf16LengthCountsCodeUnits(s: string)
    ensures |Utf16Encode(s)| == Utf16Length(s)
  {
    if |s| > 0 {
      Utf16LengthCountsCodeUnits(s[1..]);
    }
  }

  /** On text inside the Basic Multilingual Plane the UTF-16 length is the character count. */
  lemma {:induction false} Utf16LengthOfBmp(s: string)
    requires forall i :: 0 <= i < |s| ==> s[i] as int < 0x1_0000
    ensures Utf16Length(s) == |s|
  {
    if |s| > 0 {
      Utf16LengthOfBmp(s[1..]);
    }
  }
}
