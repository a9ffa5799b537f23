/** JavaScript string primitives used by the SQL guard, the limit enforcer and
    the chart helpers: the `\s` and `\w` character classes, ASCII case folding
    as the `i` regex flag applies it, `String.prototype.trim`,
    `String.prototype.slice`, and a lexicographic order that stands in for
    `localeCompare`. A JavaScript string is a Dafny `string`, one `char` per
    Unicode code point, so a lone surrogate cannot be represented; only
    `Colors.Utf16` sees the UTF-16 code units of a text. */
module JsText {

  /** The `\s` class of JavaScript regular expressions; `trim` removes exactly
      these characters (WhiteSpace and LineTerminator). */
  predicate IsSpace(c: char) {
    c == '\t' || c == '\n' || c == '\U{000B}' || c == '\U{000C}' || c == '\r' ||
    c == ' ' || c == '\U{00A0}' || c == '\U{1680}' ||
    ('\U{2000}' <= c <= '\U{200A}') ||
    c == '\U{2028}' || c == '\U{2029}' || c == '\U{202F}' || c == '\U{205F}' ||
    c == '\U{3000}' || c == '\U{FEFF}'
  }

  /** The `\w` class without the `u` flag: `[A-Za-z0-9_]`. */
  predicate IsWordChar(c: char) {
    ('a' <= c <= 'z') || ('A' <= c <= 'Z') || ('0' <= c <= '9') || c == '_'
  }

  /** Is there a word character at index `i` (false outside the string)? */
  predicate WordAt(s: string, i: int) {
    0 <= i < |s| && IsWordChar(s[i])
  }

  /** `\b` holds at position `q` (between `s[q-1]` and `s[q]`). */
  predicate BoundaryAt(s: string, q: int) {
    WordAt(s, q - 1) != WordAt(s, q)
  }

  /** Case folding of the `i` flag without `u`: only ASCII letters fold, since a
      non-ASCII character never canonicalises to an ASCII one. */
  function Fold(c: char): (r: char)
    ensures IsWordChar(r) <==> IsWordChar(c)
    ensures ('a' <= c <= 'z' || 'A' <= c <= 'Z') ==> 'a' <= r <= 'z'
    // an upper-case ASCII letter becomes its own lower case; nothing else changes
    ensures 'A' <= c <= 'Z' ==> r as int == c as int + 32
    ensures !('A' <= c <= 'Z') ==> r == c
  {
    if 'A' <= c <= 'Z' then (c as int + 32) as char else c
  }

  /** A character matches the lower-case ASCII letter `w` under the `i` flag
      exactly when it is `w` or the upper case of `w`. */
  lemma FoldMatchesLetter(c: char, w: char)
    requires 'a' <= w <= 'z'
    ensures Fold(c) == w <==> c == w || c as int == w as int - 32
  {
  }

  /** The lower-case literal `w` matches case-insensitively at index `p` of `s`. */
  predicate MatchesAt(s: string, p: int, w: string) {
    0 <= p && p + |w| <= |s| && forall j :: 0 <= j < |w| ==> Fold(s[p + j]) == w[j]
  }

  predicate AllSpace(s: string) {
    forall i :: 0 <= i < |s| ==> IsSpace(s[i])
  }

  /** Number of leading `\s` characters. */
  function LeadingSpace(s: string): (n: nat)
    ensures n <= |s| && AllSpace(s[..n])
    ensures n < |s| ==> !IsSpace(s[n])
  {
    if s == [] || !IsSpace(s[0]) then 0
    else
      var n := 1 + LeadingSpace(s[1..]);
      assert forall i :: 1 <= i < n ==> s[..n][i] == s[1..][..n - 1][i - 1];
      n
  }

  /** Number of trailing `\s` characters. */
  function TrailingSpace(s: string): (n: nat)
    ensures n <= |s| && AllSpace(s[|s| - n..])
    ensures n < |s| ==> !IsSpace(s[|s| - 1 - n])
  {
    if s == [] || !IsSpace(s[|s| - 1]) then 0
    else
      var p := s[..|s| - 1];
      var m := TrailingSpace(p);
      assert s[|s| - 1 - m..] == p[|p| - m..] + [s[|s| - 1]];
      AllSpaceSnoc(p[|p| - m..], s[|s| - 1]);
      assert m < |p| ==> s[|s| - 2 - m] == p[|p| - 1 - m];
      1 + m
  }

  lemma AllSpaceSnoc(a: string, c: char)
    requires AllSpace(a) && IsSpace(c)
    ensures AllSpace(a + [c])
  {
  }

  /** `s` without its leading white space. */
  function TrimStart(s: string): string {
    s[LeadingSpace(s)..]
  }

  /** `String.prototype.trim`. */
  function Trim(s: string): (r: string)
    ensures r == [] || (!IsSpace(r[0]) && !IsSpace(r[|r| - 1]))
    ensures exists i, j :: 0 <= i <= j <= |s| && r == s[i..j] && AllSpace(s[..i]) && AllSpace(s[j..])
  {
    var t := TrimStart(s);
    assert t == s[LeadingSpace(s)..];
    var n := TrailingSpace(t);
    var i, j := LeadingSpace(s), LeadingSpace(s) + |t| - n;
    assert t[..|t| - n] == s[i..j];
    assert s[j..] == t[|t| - n..];
    t[..|t| - n]
  }

  /** `s.slice(start, end)`: negative arguments count from the end, and both are
      clamped into `[0, |s|]`. */
  function Slice(s: string, start: int, end: int): (r: string)
    ensures |r| <= |s|
    ensures 0 <= start <= end <= |s| ==> r == s[start..end]
  {
    var from := Clamp(start, |s|);
    var to := Clamp(end, |s|);
    if from < to then s[from..to] else ""
  }

  /** A relative slice index resolved against length `len`. */
  function Clamp(k: int, len: nat): (r: nat)
    ensures r <= len
  {
    if k < 0 then (if len + k < 0 then 0 else len + k)
    else if k > len then len
    else k
  }

  /** The string order used wherever the source calls `localeCompare`: here
      plain lexicographic order on character codes. */
  predicate StrLe(a: string, b: string) {
    a == [] || (b != [] && (a[0] < b[0] || (a[0] == b[0] && StrLe(a[1..], b[1..]))))
  }

  lemma {:induction false} StrLeTotal(a: string, b: string)
    ensures StrLe(a, b) || StrLe(b, a)
  {
    if a != [] && b != [] && a[0] == b[0] {
      StrLeTotal(a[1..], b[1..]);
    }
  }

  lemma {:induction false} StrLeAntisymmetric(a: string, b: string)
    requires StrLe(a, b) && StrLe(b, a)
    ensures a == b
  {
    if a != [] && b != [] {
      StrLeAntisymmetric(a[1..], b[1..]);
      assert a == [a[0]] + a[1..] && b == [b[0]] + b[1..];
    }
  }

  lemma {:induction false} StrLeTransitive(a: string, b: string, c: string)
    requires StrLe(a, b) && StrLe(b, c)
    ensures StrLe(a, c)
  {
    if a != [] && b != [] && c != [] && a[0] == b[0] && b[0] == c[0] {
      StrLeTransitive(a[1..], b[1..], c[1..]);
    }
  }

  lemma {:induction false} StrLeReflexive(a: string)
    ensures StrLe(a, a)
  {
    if a != [] {
      StrLeReflexive(a[1..]);
    }
  }
}
