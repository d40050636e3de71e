/**
 * Character classes and string primitives the matcher relies on: the whitespace
 * class of Python's `\s` and `str.split()`, the word class of `\b`, `str.lower()`,
 * the substring test `k in text`, and the word count `len(text.split())`.
 */
module Text {

  /** Python's `str.isspace()` set, which is also what `\s` matches in a str pattern. */
  predicate IsSpace(c: char)
    ensures IsSpace(c) ==> !IsWordChar(c) && c != ',' && c != '.'
  {
    var n := c as int;
    (9 <= n <= 13) || (28 <= n <= 32) || n == 0x85 || n == 0xA0 || n == 0x1680 ||
    (0x2000 <= n <= 0x200A) || n == 0x2028 || n == 0x2029 || n == 0x202F ||
    n == 0x205F || n == 0x3000
  }

  /** The `\w` class, restricted to ASCII letters, digits and underscore. */
  predicate IsWordChar(c: char) {
    ('a' <= c <= 'z') || ('A' <= c <= 'Z') || ('0' <= c <= '9') || c == '_'
  }

  /** The `\d` class, restricted to ASCII digits. */
  predicate IsDigit(c: char) {
    '0' <= c <= '9'
  }

  function DigitValue(c: char): (d: nat)
    requires IsDigit(c)
    ensures d < 10
  {
    c as int - '0' as int
  }

  /** `str.lower()` on one character, for the ASCII upper-case letters. */
  function LowerChar(c: char): (r: char)
    ensures 'A' <= c <= 'Z' ==> 'a' <= r <= 'z' && r as int == c as int + 32
    ensures !('A' <= c <= 'Z') ==> r == c
  {
    if 'A' <= c <= 'Z' then (c as int + 32) as char else c
  }

  /** `str.lower()`: character by character, so it keeps length and positions. */
  function Lower(s: string): (r: string)
    ensures |r| == |s|
    ensures forall i :: 0 <= i < |s| ==> r[i] == LowerChar(s[i])
  {
    seq(|s|, i requires 0 <= i < |s| => LowerChar(s[i]))
  }

  /** `k` occurs in `t` starting at index `i`. */
  predicate OccursAt(t: string, k: string, i: int) {
    0 <= i && i + |k| <= |t| && t[i..i + |k|] == k
  }

  /** Python's substring test `k in t`: the empty string is in every text, nothing longer than `t` is. */
  predicate Contains(t: string, k: string)
    ensures Contains(t, k) ==> |k| <= |t|
    ensures k == [] ==> Contains(t, k)
  {
    assert k == [] ==> OccursAt(t, k, 0);
    exists i | 0 <= i <= |t| - |k| :: OccursAt(t, k, i)
  }

  /** Every character of `t[i..j]` is whitespace. */
  predicate AllSpace(t: string, i: int, j: int)
    requires 0 <= i <= j <= |t|
  {
    forall k {:trigger IsSpace(t[k])} :: i <= k < j ==> IsSpace(t[k])
  }

  /** The index where a greedy `\s*` started at `i` stops: the first non-space at or after `i`. */
  function SkipSpace(t: string, i: nat): (j: nat)
    requires i <= |t|
    ensures i <= j <= |t|
    ensures AllSpace(t, i, j)
    ensures j == |t| || !IsSpace(t[j])
    decreases |t| - i
  {
    if i == |t| || !IsSpace(t[i]) then i else SkipSpace(t, i + 1)
  }

  /** A word of `str.split()` begins at `i`: a non-space at the start or after a space. */
  predicate WordStartsAt(t: string, i: int)
    requires 0 <= i < |t|
  {
    !IsSpace(t[i]) && (i == 0 || IsSpace(t[i - 1]))
  }

  /** `len(t.split())`: the number of maximal runs of non-space characters. */
  function WordCount(t: string): (n: nat)
    ensures n <= |t|
    ensures n == 0 <==> AllSpace(t, 0, |t|)
  {
    if |t| == 0 then 0
    else
      var p := t[..|t| - 1];
      var n := WordCount(p) + (if WordStartsAt(t, |t| - 1) then 1 else 0);
      assert AllSpace(t, 0, |t|) <==> AllSpace(p, 0, |p|) && IsSpace(t[|t| - 1]) by {
        assert forall k :: 0 <= k < |p| ==> p[k] == t[k];
      }
      assert !IsSpace(t[|t| - 1]) && n == 0 ==> false by {
        if !IsSpace(t[|t| - 1]) && |t| > 1 && !IsSpace(t[|t| - 2]) {
          assert p[|p| - 1] == t[|t| - 2];
        }
      }
      n
  }

  /** Lower-casing works piecewise: it commutes with concatenation. */
  lemma LowerAppend(a: string, b: string)
    ensures Lower(a + b) == Lower(a) + Lower(b)
  {
    assert forall i :: 0 <= i < |a + b| ==> Lower(a + b)[i] == (Lower(a) + Lower(b))[i];
  }
}
