/** JSON values as the browser sees them, and the JavaScript conversions the
    result pipeline applies to them: `String(v)` and integer stand-ins for
    `Number(v)`, `parseInt(s, 10)` and `parseFloat(s)`. Numbers are integers
    here; a parse that JavaScript answers with `NaN` answers `None`. */
module JsValue {
  import opened JsText

  datatype Option<T> = None | Some(value: T)

  /** A scalar JSON value; an absent property (`undefined`) is `None` where an
      `Option<Json>` is used. */
  datatype Json = Str(s: string) | Num(n: int) | Bool(b: bool) | Null

  predicate IsDigit(c: char) {
    '0' <= c <= '9'
  }

  function Digit(d: nat): (c: char)
    requires d < 10
    ensures IsDigit(c) && c as int - '0' as int == d
  {
    ('0' as int + d) as char
  }

  /** Decimal text of a natural number, without leading zeros. */
  function NatText(n: nat): (r: string)
    ensures |r| >= 1 && forall i :: 0 <= i < |r| ==> IsDigit(r[i])
    ensures r[0] == '0' ==> n == 0
  {
    if n < 10 then [Digit(n)] else NatText(n / 10) + [Digit(n % 10)]
  }

  /** `String(n)` for an integer. */
  function IntText(n: int): (r: string)
    ensures |r| >= 1
  {
    if n < 0 then "-" + NatText(-n) else NatText(n)
  }

  /** `String(v)`, where `None` is `undefined`. */
  function ToText(v: Option<Json>): string {
    match v
    case None => "undefined"
    case Some(Str(s)) => s
    case Some(Num(n)) => IntText(n)
    case Some(Bool(b)) => if b then "true" else "false"
    case Some(Null) => "null"
  }

  /** JavaScript truthiness, where `None` is `undefined`. */
  predicate Truthy(v: Option<Json>) {
    match v
    case None => false
    case Some(Str(s)) => s != ""
    case Some(Num(n)) => n != 0
    case Some(Bool(b)) => b
    case Some(Null) => false
  }

  /** Number of leading decimal digits. */
  function DigitPrefix(s: string): (k: nat)
    ensures k <= |s| && (forall i :: 0 <= i < k ==> IsDigit(s[i]))
    ensures k < |s| ==> !IsDigit(s[k])
  {
    if s == [] || !IsDigit(s[0]) then 0 else 1 + DigitPrefix(s[1..])
  }

  /** Value of a string of decimal digits. */
  function DigitsValue(s: string): nat
    requires forall i :: 0 <= i < |s| ==> IsDigit(s[i])
  {
    if s == [] then 0
    else
      assert IsDigit(s[|s| - 1]);
      DigitsValue(s[..|s| - 1]) * 10 + (s[|s| - 1] as int - '0' as int)
  }

  /** Reading back the decimal text of `n` gives `n`. */
  lemma {:induction false} DigitsValueOfNatText(n: nat)
    ensures DigitsValue(NatText(n)) == n
  {
    if n >= 10 {
      var t := NatText(n / 10) + [Digit(n % 10)];
      assert t[..|t| - 1] == NatText(n / 10);
      DigitsValueOfNatText(n / 10);
    }
  }

  lemma {:induction false} DigitPrefixAllDigits(s: string)
    requires forall i :: 0 <= i < |s| ==> IsDigit(s[i])
    ensures DigitPrefix(s) == |s|
  {
    if s != [] {
      DigitPrefixAllDigits(s[1..]);
    }
  }

  /** Splits off an optional leading `+` or `-`: the sign and the rest. */
  function SplitSign(t: string): (r: (int, string))
    ensures r.0 == 1 || r.0 == -1
    ensures |r.1| <= |t|
  {
    if t != [] && t[0] == '-' then (-1, t[1..])
    else if t != [] && t[0] == '+' then (1, t[1..])
    else (1, t)
  }

  /** A decimal literal `digits [. digits]` at the start of `u`: the number of
      integer digits and the number of characters the literal spans (0 when
      there is none, that is when no digit occurs before or after the point). */
  function DecimalSpan(u: string): (r: (nat, nat))
    ensures r.0 <= r.1 <= |u|
    ensures forall i :: 0 <= i < r.0 ==> IsDigit(u[i])
    ensures r.1 == 0 || r.0 > 0 || (r.0 < |u| && u[r.0] == '.')
  {
    var k := DigitPrefix(u);
    if k < |u| && u[k] == '.' then
      var f := DigitPrefix(u[k + 1..]);
      if k + f == 0 then (0, 0) else (k, k + 1 + f)
    else (k, k)
  }

  /** `parseInt(s, 10)`: leading white space, an optional sign, then the
      longest run of digits; `None` (NaN) when there is no digit. */
  function ParseInt(s: string): (r: Option<int>)
  {
    var (sign, u) := SplitSign(TrimStart(s));
    var k := DigitPrefix(u);
    if k == 0 then None else Some(sign * DigitsValue(u[..k]))
  }

  /** `parseFloat(s)` over integers: the longest decimal literal after leading
      white space and an optional sign, its fraction dropped (truncation
      toward zero); `None` (NaN) when there is no literal. */
  function ParseFloat(s: string): (r: Option<int>)
  {
    var (sign, u) := SplitSign(TrimStart(s));
    var (k, len) := DecimalSpan(u);
    if len == 0 then None else Some(sign * DigitsValue(u[..k]))
  }

  /** `Number(s)` for a string over integers: the trimmed text must be empty
      (giving 0) or consist entirely of a signed decimal literal. */
  function StringToNumber(s: string): (r: Option<int>)
    ensures Trim(s) == "" ==> r == Some(0)
  {
    var t := Trim(s);
    if t == "" then Some(0)
    else
      var (sign, u) := SplitSign(t);
      var (k, len) := DecimalSpan(u);
      if len == 0 || len != |u| then None else Some(sign * DigitsValue(u[..k]))
  }

  /** `Number(v) || 0`: the number, with NaN (and -0) replaced by 0. */
  function NumberOrZero(v: Option<Json>): int {
    match v
    case None => 0
    case Some(Str(s)) => (match StringToNumber(s) case Some(n) => n case None => 0)
    case Some(Num(n)) => n
    case Some(Bool(b)) => if b then 1 else 0
    case Some(Null) => 0
  }

  /** `String(n)` is a sign for a negative `n`, then the digits of `|n|`; it
      neither starts nor ends with white space. */
  lemma IntTextShape(n: int)
    ensures var t, m := IntText(n), if n < 0 then -n else n;
      && SplitSign(t) == (if n < 0 then -1 else 1, NatText(m))
      && !IsSpace(t[0]) && !IsSpace(t[|t| - 1])
  {
    var m := if n < 0 then -n else n;
    NatTextNoSpace(m);
  }

  /** A run of digits is one integer literal. */
  lemma DigitsSpan(u: string)
    requires |u| >= 1 && forall i :: 0 <= i < |u| ==> IsDigit(u[i])
    ensures DigitPrefix(u) == |u| && DecimalSpan(u) == (|u|, |u|) && u[..|u|] == u
  {
    DigitPrefixAllDigits(u);
  }

  /** `parseInt` reads back the text `String(n)` of any integer. */
  lemma ParseIntOfIntText(n: int)
    ensures ParseInt(IntText(n)) == Some(n)
  {
    var m := if n < 0 then -n else n;
    IntTextShape(n);
    assert LeadingSpace(IntText(n)) == 0;
    assert TrimStart(IntText(n)) == IntText(n);
    DigitsSpan(NatText(m));
    DigitsValueOfNatText(m);
  }

  /** `Number` reads a trimmed text made of a sign and a run of digits as
      that signed number. */
  lemma StringToNumberOfDigits(t: string, sign: int, u: string)
    requires t != "" && Trim(t) == t && SplitSign(t) == (sign, u)
    requires |u| >= 1 && forall i :: 0 <= i < |u| ==> IsDigit(u[i])
    ensures StringToNumber(t) == Some(sign * DigitsValue(u))
  {
    DigitsSpan(u);
  }

  /** `Number` reads back the text `String(n)` of any integer. */
  lemma StringToNumberOfIntText(n: int)
    ensures StringToNumber(IntText(n)) == Some(n)
  {
    var m := if n < 0 then -n else n;
    var t := IntText(n);
    IntTextShape(n);
    TrimNoSpaceEnds(t);
    var sign := if n < 0 then -1 else 1;
    StringToNumberOfDigits(t, sign, NatText(m));
    DigitsValueOfNatText(m);
    assert sign * m == n;
  }

  /** `Number(String(n)) || 0 == n`: a number that went through its text comes
      back unchanged. */
  lemma NumberOrZeroOfText(n: int)
    ensures NumberOrZero(Some(Str(IntText(n)))) == n
  {
    StringToNumberOfIntText(n);
  }

  /** `Number(d) || 0 == d` for the text of one decimal digit. */
  lemma NumberOrZeroOfDigit(d: nat)
    requires d < 10
    ensures NumberOrZero(Some(Str([Digit(d)]))) == d
  {
    assert IntText(d) == [Digit(d)];
    NumberOrZeroOfText(d);
  }

  lemma NatTextNoSpace(m: nat)
    ensures forall i :: 0 <= i < |NatText(m)| ==> !IsSpace(NatText(m)[i]) && NatText(m)[i] != '-' && NatText(m)[i] != '+'
  {
  }

  lemma TrimNoSpaceEnds(t: string)
    requires t != [] && !IsSpace(t[0]) && !IsSpace(t[|t| - 1])
    ensures Trim(t) == t
  {
    assert LeadingSpace(t) == 0;
    assert t[0..] == t;
    assert TrailingSpace(t) == 0;
    assert t[..|t| - 0] == t;
  }
}
