/**
 * Text helpers shared by the three release scripts: an Option type, the ASCII
 * character classes that Python's `\s`, `[0-9]` and `[a-zA-Z0-9]` stand for,
 * a scanner for the longest run of one class, and decimal conversion
 * (Python's `str.isdigit`, `int(s)` and `str(n)` on non-negative numbers).
 */
module Text {

  datatype Option<+T> = None | Some(value: T)

  /** Python's ASCII `\s`: space, tab, line feed, vertical tab, form feed, carriage return. */
  predicate IsSpace(c: char) { c == ' ' || '\t' <= c <= '\r' }

  /** The class `[0-9]`. */
  predicate IsDigit(c: char) { '0' <= c <= '9' }

  /** The class `[a-zA-Z0-9]`. */
  predicate IsAlnum(c: char) { IsDigit(c) || 'a' <= c <= 'z' || 'A' <= c <= 'Z' }

  /** Python's `s.startswith(prefix)`. */
  predicate StartsWith(s: string, prefix: string) { prefix <= s }

  /** The end of the longest run of characters satisfying `p` that starts at `i`. */
  function SkipWhile(s: string, i: nat, p: char -> bool): (j: nat)
    requires i <= |s|
    ensures i <= j <= |s|
    ensures j < |s| ==> !p(s[j])
    decreases |s| - i
  {
    if i < |s| && p(s[i]) then SkipWhile(s, i + 1, p) else i
  }

  /** Every character the run skips satisfies `p`. */
  lemma {:induction false} SkipWhileRun(s: string, i: nat, p: char -> bool)
    requires i <= |s|
    ensures forall k :: i <= k < SkipWhile(s, i, p) ==> p(s[k])
    decreases |s| - i
  {
    if i < |s| && p(s[i]) {
      SkipWhileRun(s, i + 1, p);
    }
  }

  /** The run ends exactly where `p` first fails. */
  lemma SkipWhileEnd(s: string, i: nat, p: char -> bool, j: nat)
    requires i <= j <= |s|
    requires forall k :: i <= k < j ==> p(s[k])
    requires j < |s| ==> !p(s[j])
    ensures SkipWhile(s, i, p) == j
  {
    SkipWhileRun(s, i, p);
  }

  /** Two strings that agree up to a character that stops the run have the same run. */
  lemma SkipWhileSharedPrefix(a: string, b: string, i: nat, p: char -> bool, stop: nat, k: nat)
    requires i <= stop < k <= |a| && k <= |b|
    requires forall x :: 0 <= x < k ==> a[x] == b[x]
    requires !p(a[stop])
    ensures SkipWhile(a, i, p) == SkipWhile(b, i, p) <= stop
  {
    SkipWhileRun(a, i, p);
    SkipWhileRun(b, i, p);
    var ja, jb := SkipWhile(a, i, p), SkipWhile(b, i, p);
    assert ja <= stop;
  }

  /** Python's `str.isdigit` on an ASCII string: non-empty and nothing but digits. */
  predicate IsDigits(s: string) { |s| > 0 && forall k :: 0 <= k < |s| ==> IsDigit(s[k]) }

  function DigitValue(c: char): (d: nat)
    requires IsDigit(c)
    ensures d < 10
  {
    c as int - '0' as int
  }

  function DigitChar(d: nat): (c: char)
    requires d < 10
    ensures IsDigit(c) && DigitValue(c) == d
  {
    ('0' as int + d) as char
  }

  /** Python's `int(s)` on a string of decimal digits (leading zeros allowed). */
  function DecimalValue(s: string): (r: nat)
    requires forall k :: 0 <= k < |s| ==> IsDigit(s[k])
    ensures r == 0 <==> forall k :: 0 <= k < |s| ==> s[k] == '0'
  {
    if s == [] then 0 else 10 * DecimalValue(s[..|s| - 1]) + DigitValue(s[|s| - 1])
  }

  /** Python's `str(n)` on a non-negative integer: its digits, without leading zeros. */
  function NatToString(n: nat): (s: string)
    ensures IsDigits(s)
    ensures (s[0] == '0') == (n == 0)
  {
    if n < 10 then [DigitChar(n)] else NatToString(n / 10) + [DigitChar(n % 10)]
  }

  /** `int(str(n)) == n`. */
  lemma {:induction false} DecimalValueOfNatToString(n: nat)
    ensures DecimalValue(NatToString(n)) == n
  {
    if n >= 10 {
      var s := NatToString(n);
      assert s[..|s| - 1] == NatToString(n / 10);
      DecimalValueOfNatToString(n / 10);
    }
  }
}
