/** Stable per-label colours (`colorFor`) and the positional palette of the
    chart panel. */
module Colors {

  /** `PALETTE` of lib/ui.ts. */
  const PALETTE: seq<string> := ["#22d3ee", "#22c55e", "#eab308", "#f97316", "#ef4444",
    "#6366f1", "#06b6d4", "#10b981", "#f59e0b", "#3b82f6"]

  const TWO_32: nat := 0x1_0000_0000

  /** A UTF-16 code unit. */
  type CodeUnit = u: int | 0 <= u < 0x1_0000

  /** The UTF-16 code units of a string, the units `charCodeAt` reads: one for a
      character of the Basic Multilingual Plane, a surrogate pair otherwise. */
  function Utf16(s: string): (units: seq<CodeUnit>)
    ensures |units| >= |s|
  {
    if s == [] then []
    else
      var c := s[0] as int;
      (if c < 0x1_0000 then [c] else [0xD800 + (c - 0x1_0000) / 0x400, 0xDC00 + (c - 0x1_0000) % 0x400])
        + Utf16(s[1..])
  }

  /** A string of Basic Multilingual Plane characters has one unit per character. */
  lemma {:induction false} Utf16Bmp(s: string)
    requires forall i | 0 <= i < |s| :: s[i] as int < 0x1_0000
    ensures |Utf16(s)| == |s| && forall i | 0 <= i < |s| :: Utf16(s)[i] == s[i] as int
  {
    if s != [] {
      Utf16Bmp(s[1..]);
      assert forall i | 1 <= i < |s| :: Utf16(s)[i] == Utf16(s[1..])[i - 1];
    }
  }

  /** The hash after the units `u`: each step is `(h * 31 + unit) >>> 0`. The
      product stays below 2^53, so the double arithmetic is exact and `>>> 0`
      is reduction modulo 2^32. */
  function Hash(u: seq<CodeUnit>): (h: nat)
    ensures h < TWO_32
  {
    if u == [] then 0 else (Hash(u[..|u| - 1]) * 31 + u[|u| - 1]) % TWO_32
  }

  /** The textbook polynomial `sum u[i] * 31^(n-1-i)`, without any reduction. */
  function Poly(u: seq<CodeUnit>): nat {
    if u == [] then 0 else Poly(u[..|u| - 1]) * 31 + u[|u| - 1]
  }

  lemma ModStep(a: nat, c: nat)
    ensures ((a % TWO_32) * 31 + c) % TWO_32 == (a * 31 + c) % TWO_32
  {
    var q := a / TWO_32;
    assert a == q * TWO_32 + a % TWO_32;
    assert a * 31 + c == (q * 31) * TWO_32 + ((a % TWO_32) * 31 + c);
  }

  /** The 32-bit hash is the polynomial hash reduced modulo 2^32. */
  lemma {:induction false} HashIsPolyMod(u: seq<CodeUnit>)
    ensures Hash(u) == Poly(u) % TWO_32
  {
    if u != [] {
      HashIsPolyMod(u[..|u| - 1]);
      ModStep(Poly(u[..|u| - 1]), u[|u| - 1]);
    }
  }

  /** Appending a unit advances the hash by one step. */
  lemma HashAppend(u: seq<CodeUnit>, c: CodeUnit)
    ensures Hash(u + [c]) == (Hash(u) * 31 + c) % TWO_32
  {
    assert (u + [c])[..|u|] == u;
  }

  /** `colorFor(label)`, with the label named `text`. */
  method ColorFor(text: string) returns (color: string)
    ensures color == PALETTE[Hash(Utf16(text)) % |PALETTE|]
    ensures color in PALETTE
    ensures text == "" ==> color == "#22d3ee"
  {
    var units := Utf16(text);
    var h := 0;
    var i := 0;
    while i < |units|
      invariant 0 <= i <= |units|
      invariant 0 <= h < TWO_32
      invariant h == Hash(units[..i])
    {
      assert units[..i + 1] == units[..i] + [units[i]];
      HashAppend(units[..i], units[i]);
      h := (h * 31 + units[i]) % TWO_32;
      i := i + 1;
    }
    assert units[..i] == units;
    color := PALETTE[h % |PALETTE|];
  }

  /** `PALETTE` of components/chart-panel.tsx. */
  const CHART_PALETTE: seq<string> := ["#2563eb", "#16a34a", "#f59e0b", "#ef4444", "#10b981",
    "#8b5cf6", "#e11d48", "#14b8a6", "#f97316", "#3b82f6", "#84cc16", "#06b6d4",
    "#a855f7", "#f43f5e", "#0ea5e9"]

  /** `PALETTE[i % PALETTE.length]`: the colour of the `i`-th series, slice or
      cell, cycling through the fifteen entries. */
  function PositionalColor(i: nat): (color: string)
    ensures color in CHART_PALETTE
    ensures i < |CHART_PALETTE| ==> color == CHART_PALETTE[i]
  {
    var k := i % 15;
    assert |CHART_PALETTE| == 15 && k < 15 && (i < 15 ==> k == i);
    CHART_PALETTE[k]
  }

  /** The positional colours repeat with the palette's length, so with the
      first fifteen they fix the colour of every index. */
  lemma PositionalCycles(i: nat)
    ensures PositionalColor(i + |CHART_PALETTE|) == PositionalColor(i)
  {
    assert |CHART_PALETTE| == 15;
    assert (i + 15) % 15 == i % 15;
  }
}
