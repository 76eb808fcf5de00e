/**
  JavaScript strings as the service sees them: sequences of UTF-16 code units.
  A regular expression without the `u` flag and zod's length checks both work
  on code units, so a character outside the Basic Multilingual Plane counts
  twice.
 */
module JsStrings {

  /** One UTF-16 code unit. */
  newtype CodeUnit = u: int | 0 <= u < 0x1_0000

  /** A JavaScript string value. */
  type JsString = seq<CodeUnit>

  /** The UTF-16 encoding of one Unicode scalar value. */
  function EncodeScalar(c: char): (r: JsString)
    ensures 1 <= |r| <= 2
    ensures |r| == 1 <==> (c as int) < 0x1_0000
    ensures |r| == 1 ==> r[0] as int == c as int
    ensures |r| == 2 ==> 0xD800 <= r[0] as int < 0xDC00 <= r[1] as int < 0xE000
  {
    var v := c as int;
    if v < 0x1_0000 then
      [v as CodeUnit]
    else
      var w := v - 0x1_0000;
      [(0xD800 + w / 0x400) as CodeUnit, (0xDC00 + w % 0x400) as CodeUnit]
  }

  /** The JavaScript string holding the text `s`. */
  function Utf16(s: string): (r: JsString)
    ensures |s| <= |r| <= 2 * |s|
  {
    if s == [] then [] else EncodeScalar(s[0]) + Utf16(s[1..])
  }

  /** Text made only of characters inside the Basic Multilingual Plane takes one code unit per character. */
  lemma {:induction false} Utf16BmpLength(s: string)
    requires forall i :: 0 <= i < |s| ==> (s[i] as int) < 0x1_0000
    ensures |Utf16(s)| == |s|
  {
    if s != [] {
      assert forall i :: 0 <= i < |s[1..]| ==> s[1..][i] == s[i + 1];
      Utf16BmpLength(s[1..]);
    }
  }

  /** Text made only of characters outside the Basic Multilingual Plane takes two code units per character. */
  lemma {:induction false} Utf16AstralLength(s: string)
    requires forall i :: 0 <= i < |s| ==> (s[i] as int) >= 0x1_0000
    ensures |Utf16(s)| == 2 * |s|
  {
    if s != [] {
      assert forall i :: 0 <= i < |s[1..]| ==> s[1..][i] == s[i + 1];
      Utf16AstralLength(s[1..]);
    }
  }
}
