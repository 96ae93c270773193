/**
 * String helpers shared by both sheets: `_capitalize`, `String.prototype.trim` and the
 * order used for `localeCompare`, which is taken to be lexicographic order on code points.
 */
module Text {

  /** ECMAScript WhiteSpace and LineTerminator code points: what `trim` removes. */
  predicate IsWhitespace(c: char) {
    c == '\t' || c == '\n' || c == '\U{B}' || c == '\U{C}' || c == '\r' || c == ' '
    || c == '\U{A0}' || c == '\U{1680}' || ('\U{2000}' <= c <= '\U{200A}')
    || c == '\U{2028}' || c == '\U{2029}' || c == '\U{202F}' || c == '\U{205F}'
    || c == '\U{3000}' || c == '\U{FEFF}'
  }

  /** Every character of `s` at an index in `[lo, hi)` is whitespace. */
  predicate WhitespaceBetween(s: string, lo: nat, hi: nat)
    requires lo <= hi <= |s|
  {
    forall k :: lo <= k < hi ==> IsWhitespace(s[k])
  }

  predicate AllWhitespace(s: string) {
    WhitespaceBetween(s, 0, |s|)
  }

  /** The index of the first non-whitespace character at or after `i`, or `|s|`. */
  function TrimFrom(s: string, i: nat): (n: nat)
    requires i <= |s|
    ensures i <= n <= |s| && WhitespaceBetween(s, i, n)
    ensures n == |s| || !IsWhitespace(s[n])
    decreases |s| - i
  {
    if i < |s| && IsWhitespace(s[i]) then TrimFrom(s, i + 1) else i
  }

  /** The index just after the last non-whitespace character in `[lo, hi)`, or `lo`. */
  function TrimTo(s: string, lo: nat, hi: nat): (n: nat)
    requires lo <= hi <= |s|
    ensures lo <= n <= hi && WhitespaceBetween(s, n, hi)
    ensures n == lo || !IsWhitespace(s[n - 1])
  {
    if lo < hi && IsWhitespace(s[hi - 1]) then TrimTo(s, lo, hi - 1) else hi
  }

  /** `s.trim()`: the part of `s` between its leading and its trailing whitespace. */
  function Trim(s: string): (r: string)
    ensures r == [] <==> AllWhitespace(s)
    ensures r != [] ==> !IsWhitespace(r[0]) && !IsWhitespace(r[|r| - 1])
  {
    var lo := TrimFrom(s, 0);
    var hi := TrimTo(s, lo, |s|);
    assert lo < |s| ==> !IsWhitespace(s[lo]) && lo < hi;
    s[lo..hi]
  }

  /** Trimming removes whitespace at the two ends and nothing else. */
  lemma TrimIsInfix(s: string)
    ensures exists i, j :: 0 <= i <= j <= |s| && Trim(s) == s[i..j] && WhitespaceBetween(s, 0, i) && WhitespaceBetween(s, j, |s|)
  {
    var i := TrimFrom(s, 0);
    var j := TrimTo(s, i, |s|);
    assert Trim(s) == s[i..j];
  }

  /** `c.toUpperCase()` for one character; only the ASCII letters are mapped. */
  function ToUpper(c: char): char {
    if 'a' <= c <= 'z' then (c as int - 'a' as int + 'A' as int) as char else c
  }

  /** `_capitalize(value)` on a string: the first character upper-cased, the rest unchanged. */
  function Capitalize(s: string): (r: string)
    ensures |r| == |s|
    ensures s != [] ==> r[0] == ToUpper(s[0]) && r[1..] == s[1..]
  {
    if s == [] then s else [ToUpper(s[0])] + s[1..]
  }

  /** Capitalising twice is capitalising once. */
  lemma CapitalizeIdempotent(s: string)
    ensures Capitalize(Capitalize(s)) == Capitalize(s)
  {
    if s != [] {
      var c := s[0];
      assert ToUpper(ToUpper(c)) == ToUpper(c);
    }
  }

  /** The string order standing in for `a.localeCompare(b) <= 0`. */
  predicate LessEq(a: string, b: string) {
    a == [] || (b != [] && (a[0] < b[0] || (a[0] == b[0] && LessEq(a[1..], b[1..]))))
  }

  lemma {:induction false} LessEqReflexive(a: string)
    ensures LessEq(a, a)
  {
    if a != [] {
      LessEqReflexive(a[1..]);
    }
  }

  lemma {:induction false} LessEqTotal(a: string, b: string)
    ensures LessEq(a, b) || LessEq(b, a)
  {
    if a != [] && b != [] && a[0] == b[0] {
      LessEqTotal(a[1..], b[1..]);
    }
  }

  lemma {:induction false} LessEqAntisymmetric(a: string, b: string)
    requires LessEq(a, b) && LessEq(b, a)
    ensures a == b
  {
    if a != [] && b != [] {
      LessEqAntisymmetric(a[1..], b[1..]);
      assert a == [a[0]] + a[1..];
      assert b == [b[0]] + b[1..];
    }
  }

  lemma {:induction false} LessEqTransitive(a: string, b: string, c: string)
    requires LessEq(a, b) && LessEq(b, c)
    ensures LessEq(a, c)
  {
    if a != [] && b != [] && c != [] && a[0] == b[0] == c[0] {
      LessEqTransitive(a[1..], b[1..], c[1..]);
    }
  }
}
