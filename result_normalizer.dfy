/** The row normaliser of the ask endpoint: a narrow, name-keyed coercion of
    the rows the database driver returns. It rewrites `revenue`, `order_count`
    and `avg_hours` when the driver delivered them as text, reduces a `month`
    date to its `YYYY-MM` text, and drops a `month` that is neither. Each row is
    an object updated in place. */
module ResultNormalizer {
  import opened JsValue

  /** A range of years that covers every valid JavaScript `Date` (whose range
      is -271821-04-20 to 275760-09-13); the first months of -271821 and the
      last months of 275760 are admitted although no valid `Date` falls in
      them. */
  type Year = y: int | -271821 <= y <= 275760
  type MonthOfYear = m: int | 1 <= m <= 12 witness 1

  /** A date as far as the normaliser looks at it: its UTC year and month. */
  datatype Date = Date(year: Year, month: MonthOfYear)

  /** A column value as the database driver delivers it. */
  datatype SqlValue = SStr(s: string) | SNum(n: int) | SNaN | SBool(b: bool) | SDate(d: Date) | SNull

  function Pow10(w: nat): (p: nat)
    ensures p >= 1
  {
    if w == 0 then 1 else 10 * Pow10(w - 1)
  }

  /** The last `w` decimal digits of `n`, zero-padded to exactly `w` characters. */
  function Digits(n: nat, w: nat): (r: string)
    ensures |r| == w && forall i :: 0 <= i < w ==> IsDigit(r[i])
  {
    if w == 0 then "" else Digits(n / 10, w - 1) + [Digit(n % 10)]
  }

  /** A number below `10^w` is read back from its padded digits. */
  lemma {:induction false} DigitsRoundTrip(n: nat, w: nat)
    requires n < Pow10(w)
    ensures DigitsValue(Digits(n, w)) == n
  {
    if w > 0 {
      var d := Digits(n, w);
      assert d[..w - 1] == Digits(n / 10, w - 1) && d[w - 1] == Digit(n % 10);
      assert n / 10 < Pow10(w - 1);
      DigitsRoundTrip(n / 10, w - 1);
      assert DigitsValue(d) == DigitsValue(d[..w - 1]) * 10 + n % 10;
    }
  }

  /** The year field of `toISOString`: four digits for years 0 to 9999, a sign
      and six digits otherwise. */
  function IsoYear(y: Year): string {
    if 0 <= y <= 9999 then Digits(y, 4)
    else (if y < 0 then "-" else "+") + Digits(if y < 0 then -y else y, 6)
  }

  /** `d.toISOString().slice(0, 7)`: the year field and `-MM` begin the ISO
      text, so seven characters are taken from them. */
  function IsoMonth(d: Date): (r: string)
    ensures |r| == 7
    ensures 0 <= d.year <= 9999 ==> r == Digits(d.year, 4) + "-" + Digits(d.month, 2)
    ensures !(0 <= d.year <= 9999) ==> r[0] == (if d.year < 0 then '-' else '+')
    ensures !(0 <= d.year <= 9999) ==> r[1..] == Digits(if d.year < 0 then -d.year else d.year, 6)
  {
    (IsoYear(d.year) + "-" + Digits(d.month, 2))[..7]
  }

  /** For the years a database normally holds, the text is `YYYY-MM` and
      reads back the year and the month. */
  lemma IsoMonthRoundTrip(d: Date)
    requires 0 <= d.year <= 9999
    ensures var r := IsoMonth(d);
      r[4] == '-' && DigitsValue(r[..4]) == d.year && DigitsValue(r[5..]) == d.month
  {
    var r := IsoMonth(d);
    assert r[..4] == Digits(d.year, 4);
    assert r[5..] == Digits(d.month, 2);
    assert Pow10(4) == 10000 && Pow10(2) == 100;
    DigitsRoundTrip(d.year, 4);
    DigitsRoundTrip(d.month, 2);
  }

  /** `parseFloat(text)` as a stored value. */
  function ParseFloatValue(s: string): SqlValue {
    match ParseFloat(s)
    case Some(n) => SNum(n)
    case None => SNaN
  }

  /** `parseInt(text, 10)` as a stored value. */
  function ParseIntValue(s: string): SqlValue {
    match ParseInt(s)
    case Some(n) => SNum(n)
    case None => SNaN
  }

  /** The column names the normaliser knows. */
  const NORMALIZED_KEYS: set<string> := {"revenue", "order_count", "avg_hours", "month"}

  predicate IsText(f: map<string, SqlValue>, k: string) {
    k in f && f[k].SStr?
  }

  /** Replaces the text at `k` by its parse when `k` holds text. */
  function CoerceText(f: map<string, SqlValue>, k: string, integer: bool): map<string, SqlValue> {
    if IsText(f, k) then f[k := if integer then ParseIntValue(f[k].s) else ParseFloatValue(f[k].s)] else f
  }

  /** Coercing column `k` touches no other column and leaves no text in `k`. */
  lemma CoerceTextColumns(f: map<string, SqlValue>, k: string, integer: bool)
    ensures var r := CoerceText(f, k, integer);
      && (forall j :: j != k ==> (j in r <==> j in f) && (j in f ==> r[j] == f[j]))
      && (IsText(f, k) ==> k in r && r[k] == if integer then ParseIntValue(f[k].s) else ParseFloatValue(f[k].s))
      && (!IsText(f, k) ==> r == f)
      && (k in r ==> !r[k].SStr?)
  {
  }

  function NormalizeMonth(f: map<string, SqlValue>): map<string, SqlValue> {
    if "month" !in f then f
    else if f["month"].SDate? then f["month" := SStr(IsoMonth(f["month"].d))]
    else if !f["month"].SStr? then f - {"month"}
    else f
  }

  /** Normalising `month` touches no other column. */
  lemma NormalizeMonthColumns(f: map<string, SqlValue>)
    ensures var r := NormalizeMonth(f);
      forall j :: j != "month" ==> (j in r <==> j in f) && (j in f ==> r[j] == f[j])
  {
  }

  /** The effect of the `rows.map` callback on one row's properties. */
  function NormalizeFields(f: map<string, SqlValue>): (r: map<string, SqlValue>)
    // every other column is passed through untouched
    ensures forall k :: k !in NORMALIZED_KEYS ==> (k in r <==> k in f) && (k in f ==> r[k] == f[k])
    // no numeric column ends up as text, and a month left in the row is text
    ensures forall k :: k in {"revenue", "order_count", "avg_hours"} && k in r ==> !r[k].SStr?
    ensures "month" in r ==> r["month"].SStr?
  {
    var f1 := CoerceText(f, "revenue", false);
    var f2 := CoerceText(f1, "order_count", true);
    var f3 := CoerceText(f2, "avg_hours", false);
    CoerceTextColumns(f, "revenue", false);
    CoerceTextColumns(f1, "order_count", true);
    CoerceTextColumns(f2, "avg_hours", false);
    NormalizeMonthColumns(f3);
    NormalizeMonth(f3)
  }

  /** What `NormalizeFields` does to each of the four named columns. */
  lemma NormalizeFieldsColumns(f: map<string, SqlValue>)
    // the three numeric columns are parsed only when they hold text
    ensures var r := NormalizeFields(f);
      && (IsText(f, "revenue") ==> "revenue" in r && r["revenue"] == ParseFloatValue(f["revenue"].s))
      && (IsText(f, "order_count") ==> "order_count" in r && r["order_count"] == ParseIntValue(f["order_count"].s))
      && (IsText(f, "avg_hours") ==> "avg_hours" in r && r["avg_hours"] == ParseFloatValue(f["avg_hours"].s))
      && (forall k :: k in {"revenue", "order_count", "avg_hours"} && !IsText(f, k) ==> (k in r <==> k in f) && (k in f ==> r[k] == f[k]))
    // month: a date becomes its seven-character month text, text stays, anything else goes
    ensures var r := NormalizeFields(f);
      && ("month" in f && f["month"].SDate? ==> "month" in r && r["month"] == SStr(IsoMonth(f["month"].d)))
      && ("month" in f && f["month"].SStr? ==> "month" in r && r["month"] == f["month"])
      && ("month" in f && !f["month"].SDate? && !f["month"].SStr? ==> "month" !in r)
      && ("month" !in f ==> "month" !in r)
  {
    var f1 := CoerceText(f, "revenue", false);
    var f2 := CoerceText(f1, "order_count", true);
    var f3 := CoerceText(f2, "avg_hours", false);
    CoerceTextColumns(f, "revenue", false);
    CoerceTextColumns(f1, "order_count", true);
    CoerceTextColumns(f2, "avg_hours", false);
    assert NormalizeFields(f) == NormalizeMonth(f3);
  }

  /** Normalising a normalised row changes nothing, so a row object met twice
      ends up as if met once. */
  lemma NormalizeIdempotent(f: map<string, SqlValue>)
    ensures NormalizeFields(NormalizeFields(f)) == NormalizeFields(f)
  {
    var r := NormalizeFields(f);
    var rr := NormalizeFields(r);
    NormalizeFieldsColumns(f);
    NormalizeFieldsColumns(r);
    assert rr.Keys == r.Keys;
  }

  /** One row object as the database driver returns it. */
  class DbRow {
    var fields: map<string, SqlValue>

    constructor (fields: map<string, SqlValue>)
      ensures this.fields == fields
    {
      this.fields := fields;
    }

    /** The body of the `rows.map` callback, applied to this row. */
    method Normalize()
      modifies this
      ensures fields == NormalizeFields(old(fields))
    {
      var row := fields;
      if "revenue" in row && row["revenue"].SStr? {
        row := row["revenue" := ParseFloatValue(row["revenue"].s)];
      }
      assert row == CoerceText(old(fields), "revenue", false);
      ghost var f1 := row;
      if "order_count" in row && row["order_count"].SStr? {
        row := row["order_count" := ParseIntValue(row["order_count"].s)];
      }
      assert row == CoerceText(f1, "order_count", true);
      ghost var f2 := row;
      if "avg_hours" in row && row["avg_hours"].SStr? {
        row := row["avg_hours" := ParseFloatValue(row["avg_hours"].s)];
      }
      assert row == CoerceText(f2, "avg_hours", false);
      ghost var f3 := row;
      if "month" in row {
        if row["month"].SDate? {
          row := row["month" := SStr(IsoMonth(row["month"].d))];
        } else if !row["month"].SStr? {
          row := row - {"month"};
        }
      }
      assert row == NormalizeMonth(f3);
      fields := row;
    }
  }

  /** `rows.map(...)`: every row is normalised in place and the same row
      objects, in the same order, are the result. A row object that occurs
      twice is normalised twice, which `NormalizeIdempotent` makes harmless. */
  method NormalizeRows(rows: seq<DbRow>) returns (normalized: seq<DbRow>)
    modifies set r | r in rows
    ensures normalized == rows
    ensures forall i | 0 <= i < |rows| :: rows[i].fields == NormalizeFields(old(rows[i].fields))
  {
    var i := 0;
    while i < |rows|
      invariant 0 <= i <= |rows|
      invariant forall k | 0 <= k < |rows| ::
        if rows[k] in rows[..i] then rows[k].fields == NormalizeFields(old(rows[k].fields))
        else rows[k].fields == old(rows[k].fields)
    {
      var row := rows[i];
      NormalizeIdempotent(old(row.fields));
      row.Normalize();
      assert rows[..i + 1] == rows[..i] + [row];
      i := i + 1;
    }
    assert rows[..i] == rows;
    normalized := rows;
  }
}
