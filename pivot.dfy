/** `pivotLongToWide`: reshapes long rows (one per observation) into wide
    rows (one per x category, one column per series). Without a series field
    it only coerces y and sorts; with one it groups the rows by the text of x
    in a map, summing y into the column named by the text of the series
    field. */
module Pivot {
  import opened JsText
  import opened JsValue
  import opened Sorting

  /** A row as the browser holds it: property name to value. */
  type Row = map<string, Json>

  /** `r[k]`, `None` being `undefined`. */
  function Lookup(r: Row, k: string): Option<Json> {
    if k in r then Some(r[k]) else None
  }

  /** `String(r[k])`. */
  function FieldText(r: Row, k: string): string {
    ToText(Lookup(r, k))
  }

  /** The sort key of both branches: `String(row[xField])`. */
  function XKey(xField: string): Row -> string {
    (r: Row) => FieldText(r, xField)
  }

  /** `{ ...r, [yField]: Number(r[yField]) || 0 }`. */
  function CoerceY(r: Row, yField: string): (o: Row)
    ensures yField in o && o[yField] == Num(NumberOrZero(Lookup(r, yField)))
    ensures forall k :: k != yField ==> (k in o <==> k in r) && (k in r ==> o[k] == r[k])
  {
    r[yField := Num(NumberOrZero(Lookup(r, yField)))]
  }

  function CoerceAll(rows: seq<Row>, yField: string): (out: seq<Row>)
    ensures |out| == |rows| && forall i | 0 <= i < |rows| :: out[i] == CoerceY(rows[i], yField)
  {
    seq(|rows|, i requires 0 <= i < |rows| => CoerceY(rows[i], yField))
  }

  /** The branch without a series field. */
  function PivotFlat(rows: seq<Row>, xField: string, yField: string): seq<Row> {
    SortBy(CoerceAll(rows, yField), XKey(xField))
  }

  // ---------------------------------------------------------------------
  // The series list: `Array.from(new Set(rows.map(r => String(r[sf]))))`

  /** `Array.from(new Set(s))`: the distinct elements in first-seen order. */
  function Distinct(s: seq<string>): (d: seq<string>)
    ensures forall x :: x in d <==> x in s
  {
    if s == [] then []
    else
      var d := Distinct(s[..|s| - 1]);
      assert forall x :: x in s <==> x in s[..|s| - 1] || x == s[|s| - 1];
      if s[|s| - 1] in d then d else d + [s[|s| - 1]]
  }

  predicate NoDuplicates(d: seq<string>) {
    forall i, j | 0 <= i < j < |d| :: d[i] != d[j]
  }

  /** The index where `x` first occurs in `s`. */
  function FirstIndex(s: seq<string>, x: string): (i: nat)
    requires x in s
    ensures i < |s| && s[i] == x && x !in s[..i]
  {
    if x in s[..|s| - 1] then FirstIndex(s[..|s| - 1], x) else |s| - 1
  }

  /** The distinct list has no repetition and lists the elements in the order
      of their first occurrence. */
  lemma {:induction false} DistinctOrdered(s: seq<string>)
    ensures NoDuplicates(Distinct(s))
    ensures forall i, j | 0 <= i < j < |Distinct(s)| :: FirstIndex(s, Distinct(s)[i]) < FirstIndex(s, Distinct(s)[j])
  {
    if s != [] {
      var p, last := s[..|s| - 1], s[|s| - 1];
      DistinctOrdered(p);
      var d := Distinct(p);
      forall x | x in p ensures FirstIndex(s, x) == FirstIndex(p, x) {
        assert s[..|s| - 1] == p;
      }
    }
  }

  /** `rows.map(r => String(r[field]))`, for the x field or the series field. */
  function FieldTexts(rows: seq<Row>, field: string): (t: seq<string>)
    ensures |t| == |rows| && forall i | 0 <= i < |rows| :: t[i] == FieldText(rows[i], field)
  {
    seq(|rows|, i requires 0 <= i < |rows| => FieldText(rows[i], field))
  }

  /** The `series` result of the series branch. */
  function SeriesList(rows: seq<Row>, seriesField: string): seq<string> {
    Distinct(FieldTexts(rows, seriesField))
  }

  // ---------------------------------------------------------------------
  // The grouping loop

  /** `(v || 0)`. */
  function OrZero(v: Option<Json>): Json {
    if Truthy(v) then v.value else Num(0)
  }

  /** `v + y` for a number `y`: numbers add, text concatenates, `true` and
      `false` count as 1 and 0, `null` as 0. */
  function Add(v: Json, y: int): Json {
    match v
    case Num(n) => Num(n + y)
    case Str(t) => Str(t + IntText(y))
    case Bool(b) => Num((if b then 1 else 0) + y)
    case Null => Num(y)
  }

  /** The `byX` map and the order its keys were inserted in. */
  datatype Groups = Groups(keys: seq<string>, byX: map<string, Row>)

  /** One pass of the loop body for row `r`. */
  function AddRow(g: Groups, r: Row, xField: string, yField: string, seriesField: string): Groups {
    var x := FieldText(r, xField);
    var s := FieldText(r, seriesField);
    var y := NumberOrZero(Lookup(r, yField));
    var g1 := if x in g.byX then g else Groups(g.keys + [x], g.byX[x := map[xField := Str(x)]]);
    var obj := g1.byX[x];
    Groups(g1.keys, g1.byX[x := obj[s := Add(OrZero(Lookup(obj, s)), y)]])
  }

  /** The state after the loop has run over `rows`. */
  function Group(rows: seq<Row>, xField: string, yField: string, seriesField: string): (g: Groups)
    ensures forall k :: k in g.keys <==> k in g.byX
  {
    if rows == [] then Groups([], map[])
    else AddRow(Group(rows[..|rows| - 1], xField, yField, seriesField), rows[|rows| - 1], xField, yField, seriesField)
  }

  /** `Array.from(byX.values())`: the grouped rows in key insertion order. */
  function ValuesOf(keys: seq<string>, byX: map<string, Row>): (vs: seq<Row>)
    requires forall k | k in keys :: k in byX
    ensures |vs| == |keys| && forall i | 0 <= i < |keys| :: vs[i] == byX[keys[i]]
  {
    seq(|keys|, i requires 0 <= i < |keys| => byX[keys[i]])
  }

  /** The `data` result of the series branch. */
  function PivotSeriesData(rows: seq<Row>, xField: string, yField: string, seriesField: string): seq<Row> {
    var g := Group(rows, xField, yField, seriesField);
    SortBy(ValuesOf(g.keys, g.byX), XKey(xField))
  }

  /** `!seriesField`: absent, `null` or empty means the flat branch. */
  predicate NoSeries(seriesField: Option<string>) {
    seriesField.None? || seriesField.value == ""
  }

  /** The whole function, both branches. */
  function PivotSpec(rows: seq<Row>, xField: string, yField: string, seriesField: Option<string>): (seq<Row>, seq<string>) {
    if NoSeries(seriesField) then (PivotFlat(rows, xField, yField), [])
    else (PivotSeriesData(rows, xField, yField, seriesField.value), SeriesList(rows, seriesField.value))
  }

  /** The series branch as the source runs it: a loop over the rows that
      inserts into `byX` and adds into the row object for `x`. */
  method PivotWithSeries(rows: seq<Row>, xField: string, yField: string, seriesField: string)
    returns (data: seq<Row>, series: seq<string>)
    ensures data == PivotSeriesData(rows, xField, yField, seriesField)
    ensures series == SeriesList(rows, seriesField)
  {
    series := Distinct(FieldTexts(rows, seriesField));
    var keys: seq<string> := [];
    var byX: map<string, Row> := map[];
    var i := 0;
    while i < |rows|
      invariant 0 <= i <= |rows|
      invariant Groups(keys, byX) == Group(rows[..i], xField, yField, seriesField)
    {
      var r := rows[i];
      var x := FieldText(r, xField);
      var s := FieldText(r, seriesField);
      var y := NumberOrZero(Lookup(r, yField));
      if x !in byX {
        keys := keys + [x];
        byX := byX[x := map[xField := Str(x)]];
      }
      var obj := byX[x];
      obj := obj[s := Add(OrZero(Lookup(obj, s)), y)];
      byX := byX[x := obj];
      assert rows[..i + 1][..i] == rows[..i];
      i := i + 1;
    }
    assert rows[..i] == rows;
    data := SortBy(ValuesOf(keys, byX), XKey(xField));
  }

  /** `pivotLongToWide(rows, xField, yField, seriesField)`. */
  method PivotLongToWide(rows: seq<Row>, xField: string, yField: string, seriesField: Option<string>)
    returns (data: seq<Row>, series: seq<string>)
    ensures (data, series) == PivotSpec(rows, xField, yField, seriesField)
  {
    if NoSeries(seriesField) {
      data := SortBy(CoerceAll(rows, yField), XKey(xField));
      series := [];
    } else {
      data, series := PivotWithSeries(rows, xField, yField, seriesField.value);
    }
  }

  // ---------------------------------------------------------------------
  // What the grouping computes

  /** The (x text, series text) pair of every row. */
  function Pairs(rows: seq<Row>, xField: string, seriesField: string): (ps: seq<(string, string)>)
    ensures |ps| == |rows|
    ensures forall i | 0 <= i < |rows| :: ps[i] == (FieldText(rows[i], xField), FieldText(rows[i], seriesField))
  {
    seq(|rows|, i requires 0 <= i < |rows| => (FieldText(rows[i], xField), FieldText(rows[i], seriesField)))
  }

  /** The sum of `Number(y) || 0` over the rows whose x text is `k` and whose
      series text is `s`. */
  function SumY(rows: seq<Row>, xField: string, yField: string, seriesField: string, k: string, s: string): int {
    if rows == [] then 0
    else
      var r := rows[|rows| - 1];
      SumY(rows[..|rows| - 1], xField, yField, seriesField, k, s) +
        (if FieldText(r, xField) == k && FieldText(r, seriesField) == s then NumberOrZero(Lookup(r, yField)) else 0)
  }

  /** No row's series text is the name of the x field, so no sum lands on the
      x column. */
  predicate SeriesAvoidsX(rows: seq<Row>, xField: string, seriesField: string) {
    forall i | 0 <= i < |rows| :: FieldText(rows[i], seriesField) != xField
  }

  lemma {:induction false} SumYNoPair(rows: seq<Row>, xField: string, yField: string, seriesField: string, k: string, s: string)
    requires (k, s) !in Pairs(rows, xField, seriesField)
    ensures SumY(rows, xField, yField, seriesField, k, s) == 0
  {
    if rows != [] {
      var p := rows[..|rows| - 1];
      assert Pairs(rows, xField, seriesField) == Pairs(p, xField, seriesField) + [Pairs(rows, xField, seriesField)[|rows| - 1]];
      SumYNoPair(p, xField, yField, seriesField, k, s);
    }
  }

  /** The loop keeps one object per x text seen so far. */
  lemma {:induction false} GroupDomain(rows: seq<Row>, xField: string, yField: string, seriesField: string)
    ensures forall k :: k in Group(rows, xField, yField, seriesField).byX <==> k in FieldTexts(rows, xField)
  {
    if rows != [] {
      var p := rows[..|rows| - 1];
      GroupDomain(p, xField, yField, seriesField);
      assert FieldTexts(rows, xField) == FieldTexts(p, xField) + [FieldText(rows[|rows| - 1], xField)];
    }
  }

  /** The step of the loop for the last row, spelled out. */
  lemma GroupStep(rows: seq<Row>, xField: string, yField: string, seriesField: string)
    requires rows != []
    ensures var p, r := rows[..|rows| - 1], rows[|rows| - 1];
      var g0 := Group(p, xField, yField, seriesField);
      var x, sr := FieldText(r, xField), FieldText(r, seriesField);
      var obj := if x in g0.byX then g0.byX[x] else map[xField := Str(x)];
      Group(rows, xField, yField, seriesField).byX ==
        g0.byX[x := obj[sr := Add(OrZero(Lookup(obj, sr)), NumberOrZero(Lookup(r, yField)))]]
  {
  }

  /** Each object's x column is its key, as long as no series text names the
      x field. */
  lemma {:induction false} GroupXColumn(rows: seq<Row>, xField: string, yField: string, seriesField: string, k: string)
    requires SeriesAvoidsX(rows, xField, seriesField)
    requires k in Group(rows, xField, yField, seriesField).byX
    ensures var obj := Group(rows, xField, yField, seriesField).byX[k];
      xField in obj && obj[xField] == Str(k)
  {
    var p, r := rows[..|rows| - 1], rows[|rows| - 1];
    assert SeriesAvoidsX(p, xField, seriesField);
    assert FieldText(r, seriesField) != xField;
    GroupStep(rows, xField, yField, seriesField);
    if k in Group(p, xField, yField, seriesField).byX {
      GroupXColumn(p, xField, yField, seriesField, k);
    }
  }

  /** The last row adds its own pair to the pairs of the rows before it. */
  lemma PairsStep(rows: seq<Row>, xField: string, seriesField: string, k: string, s: string)
    requires rows != []
    ensures var r := rows[|rows| - 1];
      (k, s) in Pairs(rows, xField, seriesField) <==>
        (k, s) in Pairs(rows[..|rows| - 1], xField, seriesField) || (k == FieldText(r, xField) && s == FieldText(r, seriesField))
  {
    assert Pairs(rows, xField, seriesField) == Pairs(rows[..|rows| - 1], xField, seriesField) + [Pairs(rows, xField, seriesField)[|rows| - 1]];
  }

  /** The x text of every pair is one of the x texts. */
  lemma PairedXSeen(rows: seq<Row>, xField: string, seriesField: string, k: string, s: string)
    ensures (k, s) in Pairs(rows, xField, seriesField) ==> k in FieldTexts(rows, xField)
  {
    if (k, s) in Pairs(rows, xField, seriesField) {
      var j :| 0 <= j < |rows| && Pairs(rows, xField, seriesField)[j] == (k, s);
      assert FieldTexts(rows, xField)[j] == k;
    }
  }

  /** Column `s` of `obj` is present exactly when `present`, and then holds
      `sum`; an absent column stands for a zero sum. */
  predicate ColumnIs(obj: Row, s: string, present: bool, sum: int) {
    && (s in obj <==> present)
    && (s in obj ==> obj[s] == Num(sum))
    && (!present ==> sum == 0)
  }

  /** `obj[s] = (obj[s] || 0) + y` adds `y` to the column it names and leaves
      the others alone. */
  lemma AddToColumn(obj: Row, s: string, sr: string, y: int, present: bool, sum: int)
    requires ColumnIs(obj, s, present, sum)
    ensures ColumnIs(obj[sr := Add(OrZero(Lookup(obj, sr)), y)], s, present || s == sr, sum + (if s == sr then y else 0))
  {
  }

  /** One loop pass, on column `s` of the object for `k`: the column gains `y`
      when the row pairs `k` with `s`, and is otherwise as it was; an object the
      pass creates starts without the column. */
  lemma ColumnStep(g0: map<string, Row>, x: string, sr: string, y: int, xField: string, k: string, s: string,
                    present: bool, sum: int, o: Row, present': bool, sum': int)
    requires (k == x || k in g0) && s != xField
    requires k in g0 ==> ColumnIs(g0[k], s, present, sum)
    requires k !in g0 ==> !present && sum == 0
    requires var obj := if x in g0 then g0[x] else map[xField := Str(x)];
      o == g0[x := obj[sr := Add(OrZero(Lookup(obj, sr)), y)]][k]
    requires present' == (present || (k == x && s == sr))
    requires sum' == sum + (if k == x && s == sr then y else 0)
    ensures ColumnIs(o, s, present', sum')
  {
    if k == x {
      var obj := if x in g0 then g0[x] else map[xField := Str(x)];
      AddToColumn(obj, s, sr, y, present, sum);
    }
  }

  /** Column `s` (not the x column) of the object for `k` is present exactly
      when some row pairs x text `k` with series text `s`, and then holds the
      sum of those rows' y values. */
  lemma {:induction false} GroupColumn(rows: seq<Row>, xField: string, yField: string, seriesField: string, k: string, s: string)
    requires SeriesAvoidsX(rows, xField, seriesField)
    requires k in Group(rows, xField, yField, seriesField).byX && s != xField
    ensures ColumnIs(Group(rows, xField, yField, seriesField).byX[k], s,
      (k, s) in Pairs(rows, xField, seriesField), SumY(rows, xField, yField, seriesField, k, s))
  {
    var p, r := rows[..|rows| - 1], rows[|rows| - 1];
    var g0 := Group(p, xField, yField, seriesField).byX;
    var x, sr, y := FieldText(r, xField), FieldText(r, seriesField), NumberOrZero(Lookup(r, yField));
    var ps := Pairs(p, xField, seriesField);
    var sum0 := SumY(p, xField, yField, seriesField, k, s);
    var hit := k == x && s == sr;
    PairsStep(rows, xField, seriesField, k, s);
    var obj := if x in g0 then g0[x] else map[xField := Str(x)];
    assert Group(rows, xField, yField, seriesField).byX[k] == g0[x := obj[sr := Add(OrZero(Lookup(obj, sr)), y)]][k] by {
      GroupStep(rows, xField, yField, seriesField);
    }
    if k in g0 {
      assert SeriesAvoidsX(p, xField, seriesField);
      GroupColumn(p, xField, yField, seriesField, k, s);
    } else {
      assert (k, s) !in ps && sum0 == 0 by {
        GroupDomain(p, xField, yField, seriesField);
        PairedXSeen(p, xField, seriesField, k, s);
        SumYNoPair(p, xField, yField, seriesField, k, s);
      }
    }
    ColumnStep(g0, x, sr, y, xField, k, s, (k, s) in ps, sum0, Group(rows, xField, yField, seriesField).byX[k],
      (k, s) in Pairs(rows, xField, seriesField), SumY(rows, xField, yField, seriesField, k, s));
  }

  /** The keys are the distinct x texts in first-seen order. */
  lemma {:induction false} GroupKeys(rows: seq<Row>, xField: string, yField: string, seriesField: string)
    ensures Group(rows, xField, yField, seriesField).keys == Distinct(FieldTexts(rows, xField))
  {
    if rows != [] {
      var p := rows[..|rows| - 1];
      GroupKeys(p, xField, yField, seriesField);
      assert FieldTexts(rows, xField)[..|rows| - 1] == FieldTexts(p, xField);
    }
  }

  // ---------------------------------------------------------------------
  // The properties of both branches

  /** Without a series field the result is the coerced rows, reordered: a
      permutation of them, sorted by the text of x, and stable, so rows with
      equal x texts keep their input order. */
  lemma PivotFlatProperties(rows: seq<Row>, xField: string, yField: string)
    ensures multiset(PivotFlat(rows, xField, yField)) == multiset(CoerceAll(rows, yField))
    ensures SortedBy(PivotFlat(rows, xField, yField), XKey(xField))
    ensures forall k :: WithKey(PivotFlat(rows, xField, yField), k, XKey(xField)) == WithKey(CoerceAll(rows, yField), k, XKey(xField))
  {
    SortPermutes(CoerceAll(rows, yField), XKey(xField));
    SortSorted(CoerceAll(rows, yField), XKey(xField));
    forall k {
      SortStable(CoerceAll(rows, yField), k, XKey(xField));
    }
  }

  /** The series list names every row's series text once, in the order of
      first occurrence. */
  lemma SeriesListProperties(rows: seq<Row>, seriesField: string)
    ensures NoDuplicates(SeriesList(rows, seriesField))
    ensures forall t :: t in SeriesList(rows, seriesField) <==> exists i | 0 <= i < |rows| :: FieldText(rows[i], seriesField) == t
    ensures var series, texts := SeriesList(rows, seriesField), FieldTexts(rows, seriesField);
      forall i, j | 0 <= i < j < |series| :: FirstIndex(texts, series[i]) < FirstIndex(texts, series[j])
  {
    var texts := FieldTexts(rows, seriesField);
    DistinctOrdered(texts);
    forall t ensures t in texts <==> exists i | 0 <= i < |rows| :: FieldText(rows[i], seriesField) == t {
      if t in texts {
        var i :| 0 <= i < |texts| && texts[i] == t;
        assert FieldText(rows[i], seriesField) == t;
      }
    }
  }

  /** With distinct keys, each key picks out at most one element. */
  lemma {:induction false} WithDistinctKeys(s: seq<Row>, ks: seq<string>, k: string, key: Row -> string)
    requires |s| == |ks| && NoDuplicates(ks)
    requires forall i | 0 <= i < |s| :: key(s[i]) == ks[i]
    ensures |WithKey(s, k, key)| == if k in ks then 1 else 0
  {
    if s != [] {
      var n := |s| - 1;
      assert ks[..n] + [ks[n]] == ks;
      WithDistinctKeys(s[..n], ks[..n], k, key);
      if ks[n] == k {
        assert k !in ks[..n];
      }
    }
  }

  /** The grouped rows in insertion order carry their keys in the x column. */
  lemma GroupValuesKeyed(rows: seq<Row>, xField: string, yField: string, seriesField: string)
    requires SeriesAvoidsX(rows, xField, seriesField)
    ensures var g := Group(rows, xField, yField, seriesField);
      forall i | 0 <= i < |g.keys| :: XKey(xField)(ValuesOf(g.keys, g.byX)[i]) == g.keys[i]
  {
    var g := Group(rows, xField, yField, seriesField);
    forall i | 0 <= i < |g.keys| ensures XKey(xField)(ValuesOf(g.keys, g.byX)[i]) == g.keys[i] {
      GroupXColumn(rows, xField, yField, seriesField, g.keys[i]);
    }
  }

  /** With a series field, `data` is sorted by the text of x and holds exactly
      one row for each distinct x text. */
  lemma SeriesDataOnePerX(rows: seq<Row>, xField: string, yField: string, seriesField: string)
    requires SeriesAvoidsX(rows, xField, seriesField)
    ensures SortedBy(PivotSeriesData(rows, xField, yField, seriesField), XKey(xField))
    ensures |PivotSeriesData(rows, xField, yField, seriesField)| == |Distinct(FieldTexts(rows, xField))|
    ensures forall k ::
      |WithKey(PivotSeriesData(rows, xField, yField, seriesField), k, XKey(xField))| == (if k in FieldTexts(rows, xField) then 1 else 0)
  {
    var g := Group(rows, xField, yField, seriesField);
    var vs := ValuesOf(g.keys, g.byX);
    SortSorted(vs, XKey(xField));
    GroupKeys(rows, xField, yField, seriesField);
    DistinctOrdered(FieldTexts(rows, xField));
    GroupValuesKeyed(rows, xField, yField, seriesField);
    forall k ensures |WithKey(PivotSeriesData(rows, xField, yField, seriesField), k, XKey(xField))| ==
      if k in FieldTexts(rows, xField) then 1 else 0
    {
      SortStable(vs, k, XKey(xField));
      WithDistinctKeys(vs, g.keys, k, XKey(xField));
    }
  }

  /** With a series field, every row of `data` has an x text seen in the
      input as its x column; each other column `s` is present exactly when
      some input row pairs that x text with series text `s`, and holds the sum
      of those rows' `Number(y) || 0`. */
  lemma SeriesDataColumns(rows: seq<Row>, xField: string, yField: string, seriesField: string)
    requires SeriesAvoidsX(rows, xField, seriesField)
    ensures forall d: Row | d in PivotSeriesData(rows, xField, yField, seriesField) ::
      && xField in d && d[xField].Str? && d[xField].s in FieldTexts(rows, xField)
      && forall s | s != xField ::
        ColumnIs(d, s, (d[xField].s, s) in Pairs(rows, xField, seriesField), SumY(rows, xField, yField, seriesField, d[xField].s, s))
  {
    var g := Group(rows, xField, yField, seriesField);
    var vs := ValuesOf(g.keys, g.byX);
    SortPermutes(vs, XKey(xField));
    GroupDomain(rows, xField, yField, seriesField);
    forall d: Row | d in PivotSeriesData(rows, xField, yField, seriesField)
      ensures && xField in d && d[xField].Str? && d[xField].s in FieldTexts(rows, xField)
        && forall s | s != xField ::
          ColumnIs(d, s, (d[xField].s, s) in Pairs(rows, xField, seriesField), SumY(rows, xField, yField, seriesField, d[xField].s, s))
    {
      assert d in multiset(vs);
      var i :| 0 <= i < |vs| && vs[i] == d;
      var k := g.keys[i];
      GroupXColumn(rows, xField, yField, seriesField, k);
      forall s | s != xField
        ensures ColumnIs(d, s, (k, s) in Pairs(rows, xField, seriesField), SumY(rows, xField, yField, seriesField, k, s))
      {
        GroupColumn(rows, xField, yField, seriesField, k, s);
      }
    }
  }

  // ---------------------------------------------------------------------
  // Two worked examples

  /** A row of the flat example: x text `x`, y value `y`. */
  function FlatRow(x: string, y: Json): Row {
    map["x" := Str(x), "y" := y]
  }

  /** The coercion of a flat example row replaces its y by `Number(y) || 0`. */
  lemma FlatRowCoerce(x: string, y: Json)
    ensures CoerceY(FlatRow(x, y), "y") == FlatRow(x, Num(NumberOrZero(Some(y))))
  {
    assert Lookup(FlatRow(x, y), "y") == Some(y);
  }

  /** The flat example's coercion: the text y values become their numbers. */
  lemma FlatExampleCoerce()
    ensures CoerceAll([FlatRow("b", Str("3")), FlatRow("a", Str("5"))], "y") == [FlatRow("b", Num(3)), FlatRow("a", Num(5))]
  {
    var b, a := FlatRow("b", Str("3")), FlatRow("a", Str("5"));
    assert CoerceY(b, "y") == FlatRow("b", Num(3)) by {
      NumberOrZeroOfDigit(3);
      assert [Digit(3)] == "3";
      FlatRowCoerce("b", Str("3"));
    }
    assert CoerceY(a, "y") == FlatRow("a", Num(5)) by {
      NumberOrZeroOfDigit(5);
      assert [Digit(5)] == "5";
      FlatRowCoerce("a", Str("5"));
    }
    assert CoerceAll([b, a], "y") == [CoerceY(b, "y"), CoerceY(a, "y")];
  }

  /** The flat example's sort: `a` goes before `b`. */
  lemma FlatExampleSort()
    ensures SortBy([FlatRow("b", Num(3)), FlatRow("a", Num(5))], XKey("x")) == [FlatRow("a", Num(5)), FlatRow("b", Num(3))]
  {
    var ca, cb := FlatRow("a", Num(5)), FlatRow("b", Num(3));
    assert FieldText(ca, "x") == "a" && FieldText(cb, "x") == "b";
    assert !StrLe("b", "a");
    assert [cb, ca][..1] == [cb] && [cb][..0] == [];
    assert Insert([cb], ca, XKey("x")) == [ca, cb];
  }

  /** Without a series field, text y values become numbers and the rows are
      ordered by x. */
  lemma FlatExample()
    ensures PivotSpec([FlatRow("b", Str("3")), FlatRow("a", Str("5"))], "x", "y", None)
      == ([FlatRow("a", Num(5)), FlatRow("b", Num(3))], [])
  {
    FlatExampleCoerce();
    FlatExampleSort();
  }

  /** A row of the series example: month `Jan`, series `s`, value `y`. */
  function ExampleRow(s: string, y: int): Row {
    map["x" := Str("Jan"), "s" := Str(s), "y" := Num(y)]
  }

  const EXAMPLE_ROWS: seq<Row> := [ExampleRow("A", 1), ExampleRow("A", 2), ExampleRow("B", 5)]

  const EXAMPLE_WIDE: Row := map["x" := Str("Jan"), "A" := Num(3), "B" := Num(5)]

  /** What the loop body reads from an example row. */
  lemma ExampleRowRead(s: string, y: int)
    ensures FieldText(ExampleRow(s, y), "x") == "Jan" && FieldText(ExampleRow(s, y), "s") == s
    ensures NumberOrZero(Lookup(ExampleRow(s, y), "y")) == y
  {
  }

  /** The first row opens an object holding its x text and its value under
      its series. */
  lemma AddRowFirst(x: string, r: Row, xField: string, yField: string, seriesField: string)
    requires FieldText(r, xField) == x && FieldText(r, seriesField) != xField
    ensures AddRow(Groups([], map[]), r, xField, yField, seriesField)
      == Groups([x], map[x := map[xField := Str(x), FieldText(r, seriesField) := Num(NumberOrZero(Lookup(r, yField)))]])
  {
    assert Lookup(map[xField := Str(x)], FieldText(r, seriesField)) == None;
  }

  /** A row whose x text is already the only key adds into that key's object. */
  lemma AddRowSingle(x: string, o: Row, r: Row, xField: string, yField: string, seriesField: string)
    requires FieldText(r, xField) == x
    ensures var s := FieldText(r, seriesField);
      AddRow(Groups([x], map[x := o]), r, xField, yField, seriesField)
        == Groups([x], map[x := o[s := Add(OrZero(Lookup(o, s)), NumberOrZero(Lookup(r, yField)))]])
  {
    var s := FieldText(r, seriesField);
    assert map[x := o][x := o[s := Add(OrZero(Lookup(o, s)), NumberOrZero(Lookup(r, yField)))]]
      == map[x := o[s := Add(OrZero(Lookup(o, s)), NumberOrZero(Lookup(r, yField)))]];
  }

  /** The state after the first two example rows: one object for `Jan`
      whose `A` column holds 1 + 2. */
  lemma SeriesExampleFirstTwo()
    ensures Group(EXAMPLE_ROWS[..2], "x", "y", "s") == Groups(["Jan"], map["Jan" := map["x" := Str("Jan"), "A" := Num(3)]])
  {
    var r1, r2 := ExampleRow("A", 1), ExampleRow("A", 2);
    var o1 := map["x" := Str("Jan"), "A" := Num(1)];
    assert Group([r1], "x", "y", "s") == Groups(["Jan"], map["Jan" := o1]) by {
      assert [r1][..0] == [];
      ExampleRowRead("A", 1);
      AddRowFirst("Jan", r1, "x", "y", "s");
    }
    assert Group(EXAMPLE_ROWS[..2], "x", "y", "s") == AddRow(Groups(["Jan"], map["Jan" := o1]), r2, "x", "y", "s") by {
      assert EXAMPLE_ROWS[..2] == [r1, r2] && [r1, r2][..1] == [r1];
    }
    assert AddRow(Groups(["Jan"], map["Jan" := o1]), r2, "x", "y", "s")
      == Groups(["Jan"], map["Jan" := map["x" := Str("Jan"), "A" := Num(3)]]) by {
      ExampleRowRead("A", 2);
      AddRowSingle("Jan", o1, r2, "x", "y", "s");
      assert Lookup(o1, "A") == Some(Num(1));
      assert o1["A" := Num(3)] == map["x" := Str("Jan"), "A" := Num(3)];
    }
  }

  /** The third example row adds a `B` column to the object for `Jan`. */
  lemma SeriesExampleThird()
    ensures AddRow(Groups(["Jan"], map["Jan" := map["x" := Str("Jan"), "A" := Num(3)]]), ExampleRow("B", 5), "x", "y", "s")
      == Groups(["Jan"], map["Jan" := EXAMPLE_WIDE])
  {
    var o2 := map["x" := Str("Jan"), "A" := Num(3)];
    ExampleRowRead("B", 5);
    AddRowSingle("Jan", o2, ExampleRow("B", 5), "x", "y", "s");
    assert Lookup(o2, "B") == None;
    assert o2["B" := Num(5)] == EXAMPLE_WIDE;
  }

  lemma SeriesExampleGroup()
    ensures Group(EXAMPLE_ROWS, "x", "y", "s") == Groups(["Jan"], map["Jan" := EXAMPLE_WIDE])
  {
    SeriesExampleFirstTwo();
    SeriesExampleThird();
    assert EXAMPLE_ROWS[..|EXAMPLE_ROWS| - 1] == EXAMPLE_ROWS[..2];
  }

  lemma SeriesExampleList()
    ensures SeriesList(EXAMPLE_ROWS, "s") == ["A", "B"]
  {
    assert FieldTexts(EXAMPLE_ROWS, "s") == ["A", "A", "B"] by {
      ExampleRowRead("A", 1);
      ExampleRowRead("A", 2);
      ExampleRowRead("B", 5);
    }
    assert ["A", "A", "B"][..2] == ["A", "A"] && ["A", "A"][..1] == ["A"];
    assert Distinct(["A"]) == ["A"];
    assert Distinct(["A", "A"]) == ["A"];
  }

  /** Rows that all share one x text give one data object. */
  lemma SingleGroupData(rows: seq<Row>, xField: string, yField: string, seriesField: string, x: string, o: Row)
    requires Group(rows, xField, yField, seriesField) == Groups([x], map[x := o])
    ensures PivotSeriesData(rows, xField, yField, seriesField) == [o]
  {
    assert ValuesOf([x], map[x := o]) == [o];
    assert [o][..0] == [];
  }

  /** The example's data: the one merged object. */
  lemma SeriesExampleData()
    ensures PivotSeriesData(EXAMPLE_ROWS, "x", "y", "s") == [EXAMPLE_WIDE]
  {
    SeriesExampleGroup();
    SingleGroupData(EXAMPLE_ROWS, "x", "y", "s", "Jan", EXAMPLE_WIDE);
  }

  /** With a series field, the rows of one x text merge into one object whose
      series columns hold the sums, and the series are listed in first-seen
      order. */
  lemma SeriesExample()
    ensures PivotSpec(EXAMPLE_ROWS, "x", "y", Some("s")) == ([EXAMPLE_WIDE], ["A", "B"])
  {
    assert !NoSeries(Some("s"));
    SeriesExampleList();
    SeriesExampleData();
  }
}
