/** The two string operations the validation rules are written with:
    JavaScript's `String.prototype.trim` and the `length` of a JavaScript
    string, which counts UTF-16 code units. Dafny's `char` is a Unicode
    scalar value, so a character outside the Basic Multilingual Plane is
    one `char` here but two units of `length`. */
module Text {

  /** The code points `trim` removes: ECMAScript's WhiteSpace (tab, vertical
      tab, form feed, the byte order mark and every space separator) and its
      LineTerminator (line feed, carriage return, U+2028, U+2029). */
  predicate IsTrimmable(c: char)
  {
    var n := c as int;
    n == 0x09 || n == 0x0A || n == 0x0B || n == 0x0C || n == 0x0D
    || n == 0x20 || n == 0xA0 || n == 0x1680
    || (0x2000 <= n <= 0x200A)
    || n == 0x2028 || n == 0x2029 || n == 0x202F || n == 0x205F
    || n == 0x3000 || n == 0xFEFF
  }

  /** Every character of `s` is one `trim` removes (the empty string too). */
  predicate IsBlank(s: string)
  {
    forall i :: 0 <= i < |s| ==> IsTrimmable(s[i])
  }

  /** `s` with its leading trimmable characters removed: a suffix of `s`
      whose first character, if any, is kept by `trim`. */
  function TrimStart(s: string): (r: string)
    ensures |r| <= |s| && r == s[|s| - |r|..]
    ensures r != [] ==> !IsTrimmable(r[0])
    ensures forall i :: 0 <= i < |s| - |r| ==> IsTrimmable(s[i])
  {
    if s != [] && IsTrimmable(s[0]) then TrimStart(s[1..]) else s
  }

  /** `s` with its trailing trimmable characters removed: a prefix of `s`
      whose last character, if any, is kept by `trim`. */
  function TrimEnd(s: string): (r: string)
    ensures |r| <= |s| && r == s[..|r|]
    ensures r != [] ==> !IsTrimmable(r[|r| - 1])
    ensures forall i :: |r| <= i < |s| ==> IsTrimmable(s[i])
  {
    if s != [] && IsTrimmable(s[|s| - 1]) then TrimEnd(s[..|s| - 1]) else s
  }

  /** `s.trim()`: empty exactly when every character of `s` is trimmable,
      otherwise the slice of `s` left once its leading and trailing
      trimmable characters are cut off. */
  function Trim(s: string): (r: string)
    ensures |r| <= |s|
    ensures r == [] <==> IsBlank(s)
    ensures r != [] ==> !IsTrimmable(r[0]) && !IsTrimmable(r[|r| - 1])
    ensures exists a, b :: 0 <= a <= b <= |s| && r == s[a..b] && IsBlank(s[..a]) && IsBlank(s[b..])
  {
    var front := TrimStart(s);
    var r := TrimEnd(front);
    var a, b := |s| - |front|, |s| - |front| + |r|;
    assert r == s[a..b];
    assert IsBlank(s[..a]) && IsBlank(s[b..]);
    r
  }

  /** The source's blank test `!s || s.trim().length === 0`. */
  predicate TrimsToEmpty(s: string)
  {
    |Trim(s)| == 0
  }

  /** UTF-16 units of one code point. */
  function Utf16Units(c: char): nat
  {
    if c as int > 0xFFFF then 2 else 1
  }

  /** JavaScript's `s.length`: one unit per code point of the Basic
      Multilingual Plane, two (a surrogate pair) per code point above it. */
  function Utf16Length(s: string): (n: nat)
    ensures |s| <= n <= 2 * |s|
  {
    if s == [] then 0 else Utf16Units(s[0]) + Utf16Length(s[1..])
  }

  /** `length` counts code points exactly when the string has none above
      the Basic Multilingual Plane. */
  lemma {:induction false} Utf16LengthOfBmpText(s: string)
    ensures Utf16Length(s) == |s| <==> forall i :: 0 <= i < |s| ==> s[i] as int <= 0xFFFF
  {
    if s != [] {
      Utf16LengthOfBmpText(s[1..]);
      assert forall i :: 1 <= i < |s| ==> s[i] == s[1..][i - 1];
    }
  }
}
