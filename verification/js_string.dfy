/**
 JavaScript strings are sequences of UTF-16 code units, and `.length` counts
 code units, not characters. Here a string is a `seq<char>` of Unicode scalar
 values, so `Length` gives back the count JavaScript would report: one unit
 for a character of the Basic Multilingual Plane, two (a surrogate pair) for
 anything above U+FFFF.
 */
module JsString {

  /** Code units one character occupies in UTF-16. */
  function CodeUnits(c: char): nat {
    if c as int >= 0x1_0000 then 2 else 1
  }

  /** `s.length` in JavaScript. */
  function Length(s: string): (n: nat)
    ensures |s| <= n <= 2 * |s|
  {
    if s == [] then 0 else CodeUnits(s[0]) + Length(s[1..])
  }

  /** Every character fits in one code unit. */
  predicate InBasicPlane(s: string) {
    forall i :: 0 <= i < |s| ==> s[i] as int < 0x1_0000
  }

  /** JavaScript's length equals the character count exactly when no
      character needs a surrogate pair. */
  lemma {:induction false} LengthIsCountIffBasicPlane(s: string)
    ensures Length(s) == |s| <==> InBasicPlane(s)
  {
    if s != [] {
      LengthIsCountIffBasicPlane(s[1..]);
      if InBasicPlane(s) {
        assert InBasicPlane(s[1..]) by {
          forall i | 0 <= i < |s[1..]| ensures s[1..][i] as int < 0x1_0000 {
            assert s[1..][i] == s[i + 1];
          }
        }
      }
      if !InBasicPlane(s) && s[0] as int < 0x1_0000 {
        var i :| 0 <= i < |s| && s[i] as int >= 0x1_0000;
        assert s[1..][i - 1] == s[i];
      }
      if InBasicPlane(s[1..]) && s[0] as int < 0x1_0000 {
        forall i | 0 <= i < |s| ensures s[i] as int < 0x1_0000 {
          if i > 0 { assert s[i] == s[1..][i - 1]; }
        }
      }
    }
  }
}
