/** String operations of the two runtimes that the core relies on. */
module Text {

  /** Python's `str.lower()` restricted to ASCII: 'A'..'Z' become 'a'..'z', all else is kept. */
  function LowerChar(c: char): char {
    if 'A' <= c <= 'Z' then (c as int + 32) as char else c
  }

  function Lower(s: string): string {
    seq(|s|, k requires 0 <= k < |s| => LowerChar(s[k]))
  }

  /** Python's `p in t` on strings: `p` occurs in `t` at some position. */
  predicate Contains(t: string, p: string) {
    exists k | 0 <= k <= |t| :: OccursAt(t, p, k)
  }

  predicate OccursAt(t: string, p: string, k: int) {
    0 <= k <= |t| - |p| && t[k..k + |p|] == p
  }

  /** Value of a digit character. */
  function DigitValue(c: char): nat
    requires '0' <= c <= '9'
  {
    c as int - '0' as int
  }

  predicate IsDigits(s: string) {
    forall k :: 0 <= k < |s| ==> '0' <= s[k] <= '9'
  }

  /** The number a string of decimal digits denotes, most significant digit first. */
  function DigitsValue(s: string): nat
    requires IsDigits(s)
  {
    if s == [] then 0 else DigitsValue(s[..|s| - 1]) * 10 + DigitValue(s[|s| - 1])
  }

  /** JavaScript's `String(n)` for a non-negative integer: its decimal numeral, no leading zero. */
  function NatToString(n: nat): (r: string)
    ensures r != [] && IsDigits(r)
    ensures r[0] == '0' ==> n == 0 && |r| == 1
    ensures DigitsValue(r) == n
  {
    if n < 10 then ["0123456789"[n]]
    else
      var r := NatToString(n / 10) + ["0123456789"[n % 10]];
      assert r[..|r| - 1] == NatToString(n / 10);
      r
  }

  /**
   * The characters JavaScript's `String.prototype.trim` removes: the WhiteSpace code points
   * (TAB, VT, FF, ZWNBSP and every space separator of category Zs) and the four LineTerminators
   * of the ECMAScript Language Specification.
   */
  predicate IsSpace(c: char) {
    c == '\t' || c == '\U{000B}' || c == '\U{000C}' || c == ' ' || c == '\U{00A0}' || c == '\U{FEFF}'
    || c == '\n' || c == '\r' || c == '\U{2028}' || c == '\U{2029}'
    || c == '\U{1680}' || ('\U{2000}' <= c <= '\U{200A}') || c == '\U{202F}' || c == '\U{205F}' || c == '\U{3000}'
  }

  predicate AllSpace(s: string) {
    forall k :: 0 <= k < |s| ==> IsSpace(s[k])
  }

  /** The number of white-space characters `s` starts with. */
  function LeadingSpace(s: string): (i: nat)
    ensures i <= |s| && AllSpace(s[..i]) && (i < |s| ==> !IsSpace(s[i]))
  {
    if s != [] && IsSpace(s[0]) then
      var i := 1 + LeadingSpace(s[1..]);
      assert s[..i] == [s[0]] + s[1..][..i - 1];
      i
    else 0
  }

  /** The length of `s` without the white-space characters it ends with. */
  function TrailingSpaceStart(s: string): (j: nat)
    ensures j <= |s| && AllSpace(s[j..]) && (j > 0 ==> !IsSpace(s[j - 1]))
  {
    if s != [] && IsSpace(s[|s| - 1]) then
      var j := TrailingSpaceStart(s[..|s| - 1]);
      assert s[j..] == s[..|s| - 1][j..] + [s[|s| - 1]];
      j
    else |s|
  }

  /**
   * `s.trim()`: the result is a slice of `s` with only white space cut off either end and no
   * white space at either of its own ends.
   */
  function Trim(s: string): (r: string)
    ensures exists i, j :: 0 <= i <= j <= |s| && r == s[i..j] && AllSpace(s[..i]) && AllSpace(s[j..])
    ensures r != [] ==> !IsSpace(r[0]) && !IsSpace(r[|r| - 1])
  {
    var i := LeadingSpace(s);
    var t := s[i..];
    var j := TrailingSpaceStart(t);
    assert t[..j] == s[i..i + j] && s[i + j..] == t[j..];
    t[..j]
  }

  /** A string trims to empty exactly when all of it is white space. */
  lemma TrimEmptyIffAllSpace(s: string)
    ensures Trim(s) == "" <==> AllSpace(s)
  {
    var r := Trim(s);
    var i, j :| 0 <= i <= j <= |s| && r == s[i..j] && AllSpace(s[..i]) && AllSpace(s[j..]);
    if r == "" {
      forall k | 0 <= k < |s| ensures IsSpace(s[k]) {
        if k < i { assert s[..i][k] == s[k]; } else { assert s[j..][k - j] == s[k]; }
      }
    }
  }

  /**
   * `t.replace(/p/g, r)`: every occurrence of `p`, scanning left to right without overlap,
   * replaced by `r`.
   */
  function ReplaceAll(t: string, p: string, r: string): string
    requires p != []
    decreases |t|
  {
    if t == [] then []
    else if |p| <= |t| && t[..|p|] == p then r + ReplaceAll(t[|p|..], p, r)
    else [t[0]] + ReplaceAll(t[1..], p, r)
  }

  /** A prefix that does not contain the pattern's first character passes through unchanged. */
  lemma {:induction false} ReplaceAllSkips(w: string, x: string, p: string, r: string)
    requires p != [] && p[0] !in w
    ensures ReplaceAll(w + x, p, r) == w + ReplaceAll(x, p, r)
    decreases |w|
  {
    if w != [] {
      assert (w + x)[1..] == w[1..] + x;
      assert |p| <= |w + x| ==> (w + x)[..|p|][0] == w[0];
      assert ReplaceAll(w + x, p, r) == [w[0]] + ReplaceAll(w[1..] + x, p, r);
      ReplaceAllSkips(w[1..], x, p, r);
      assert w == [w[0]] + w[1..];
    } else {
      assert w + x == x;
    }
  }
}
