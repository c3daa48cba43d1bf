/** Small string vocabulary shared by the access gate and the form validators:
    prefix and suffix tests, JavaScript's white-space and line-terminator
    classes, a first-match search and the bounds `String.prototype.trim` keeps. */
module Strings {

  /** Whether `prefix` is a prefix of `s`. */
  predicate StartsWith(s: string, prefix: string) {
    |prefix| <= |s| && s[..|prefix|] == prefix
  }

  /** Whether `suffix` is a suffix of `s`. */
  predicate EndsWith(s: string, suffix: string) {
    |suffix| <= |s| && s[|s| - |suffix|..] == suffix
  }

  /** The characters matched by JavaScript's `\s` class; `trim()` strips the same set
      (WhiteSpace and LineTerminator of ECMAScript). */
  predicate IsWhitespace(c: char) {
    var n := c as int;
    || 0x09 <= n <= 0x0D
    || n == 0x20
    || n == 0xA0
    || n == 0x1680
    || 0x2000 <= n <= 0x200A
    || n == 0x2028
    || n == 0x2029
    || n == 0x202F
    || n == 0x205F
    || n == 0x3000
    || n == 0xFEFF
  }

  /** The characters a regular-expression `.` refuses to match. */
  predicate IsLineTerminator(c: char) {
    var n := c as int;
    n == 0x0A || n == 0x0D || n == 0x2028 || n == 0x2029
  }

  predicate AllWhitespace(s: string) {
    forall k :: 0 <= k < |s| ==> IsWhitespace(s[k])
  }

  /** The first index at or after `from` whose character satisfies `f`, or `|s|` if none does. */
  function IndexWhere(s: string, f: char -> bool, from: nat): (k: nat)
    requires from <= |s|
    ensures from <= k <= |s|
    ensures k < |s| ==> f(s[k])
    ensures forall j :: from <= j < k ==> !f(s[j])
    decreases |s| - from
  {
    if from == |s| || f(s[from]) then from else IndexWhere(s, f, from + 1)
  }

  /** Index of the first non-white-space character at or after `i`. */
  function ContentStart(s: string, i: nat): (k: nat)
    requires i <= |s|
    ensures i <= k <= |s|
    ensures forall j :: i <= j < k ==> IsWhitespace(s[j])
    ensures k < |s| ==> !IsWhitespace(s[k])
    decreases |s| - i
  {
    if i == |s| || !IsWhitespace(s[i]) then i else ContentStart(s, i + 1)
  }

  /** One past the last non-white-space character in `s[lo..j]`, or `lo` if there is none. */
  function ContentEnd(s: string, lo: nat, j: nat): (k: nat)
    requires lo <= j <= |s|
    ensures lo <= k <= j
    ensures forall m :: k <= m < j ==> IsWhitespace(s[m])
    ensures lo < k ==> !IsWhitespace(s[k - 1])
    decreases j
  {
    if j == lo || !IsWhitespace(s[j - 1]) then j else ContentEnd(s, lo, j - 1)
  }

  /** `s.trim()`: `s` is white space, then the result, then white space, and the
      result neither begins nor ends with white space. */
  function Trim(s: string): (t: string)
    ensures exists a {:trigger s[..a]} :: 0 <= a <= |s| - |t| && t == s[a..a + |t|]
                         && AllWhitespace(s[..a]) && AllWhitespace(s[a + |t|..])
    ensures |t| > 0 ==> !IsWhitespace(t[0]) && !IsWhitespace(t[|t| - 1])
  {
    var a := ContentStart(s, 0);
    var b := ContentEnd(s, a, |s|);
    assert AllWhitespace(s[..a]);
    assert AllWhitespace(s[b..]);
    s[a..b]
  }
}
