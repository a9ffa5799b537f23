/** The pure helpers of the chart panel: tick label truncation, the y-field
    coercion of the rows it is given, and the sorted copy of the series
    list. The positional palette is `Colors.PositionalColor`. */
module ChartPanel {
  import opened JsText
  import opened JsValue
  import opened Sorting
  import opened Pivot

  /** The default maximum tick label length. */
  const MAX_TICK: int := 12

  /** The ellipsis appended to a cut label. */
  const ELLIPSIS: char := '…'

  /** `String(v ?? "")`: `null` and `undefined` become the empty text. */
  function LabelText(v: Option<Json>): (s: string)
    ensures v.None? || v == Some(Null) ==> s == ""
    ensures v.Some? && v.value.Str? ==> s == v.value.s
  {
    if v.None? || v == Some(Null) then "" else ToText(v)
  }

  /** `truncateLabel(v, max)`. */
  function TruncateLabel(v: Option<Json>, max: int): (r: string)
    // null and undefined give the empty label (a negative maximum turns even that into `…`)
    ensures 0 <= max && (v.None? || v == Some(Null)) ==> r == ""
    // a label that fits is kept as it is
    ensures |LabelText(v)| <= max ==> r == LabelText(v)
    // a label that does not fit keeps its first max - 1 characters and ends in the ellipsis
    ensures 1 <= max < |LabelText(v)| ==> r == LabelText(v)[..max - 1] + [ELLIPSIS] && |r| == max
    // for any positive maximum, the label never grows past it
    ensures 1 <= max ==> |r| <= max
  {
    var s := LabelText(v);
    if |s| > max then
      Slice(s, 0, max - 1) + [ELLIPSIS]
    else s
  }

  /** Tick labels of the x axis are at most twelve characters long. */
  lemma TickLabelBound(v: Option<Json>)
    ensures |TruncateLabel(v, MAX_TICK)| <= 12
    ensures |LabelText(v)| > 12 ==> TruncateLabel(v, MAX_TICK)[11] == ELLIPSIS
  {
  }

  /** One element of `normalized`: a copy of the row whose y value, when it is
      text, is replaced by `Number(text) || 0`. */
  function NormalizeRow(r: Row, yField: string): (o: Row)
    // a text y becomes its number; nothing else changes
    ensures yField in r && r[yField].Str? ==> yField in o && o[yField] == Num(NumberOrZero(Some(r[yField])))
    ensures !(yField in r && r[yField].Str?) ==> o == r
    ensures forall k :: k != yField ==> (k in o <==> k in r) && (k in r ==> o[k] == r[k])
    // no y value is left as text
    ensures yField in o ==> !o[yField].Str?
    ensures o.Keys == r.Keys
  {
    if yField in r && r[yField].Str? then r[yField := Num(NumberOrZero(Some(r[yField])))] else r
  }

  /** `normalized`: the rows, one fresh copy each, in the same order. */
  function NormalizeY(rows: seq<Row>, yField: string): (out: seq<Row>)
    ensures |out| == |rows|
    ensures forall i | 0 <= i < |rows| :: out[i] == NormalizeRow(rows[i], yField)
  {
    seq(|rows|, i requires 0 <= i < |rows| => NormalizeRow(rows[i], yField))
  }

  /** Normalising twice is normalising once. */
  lemma NormalizeYIdempotent(rows: seq<Row>, yField: string)
    ensures NormalizeY(NormalizeY(rows, yField), yField) == NormalizeY(rows, yField)
  {
  }

  /** The pivot's own coercion `Number(y) || 0` absorbs the panel's: a row
      coerced by the pivot is the same whether or not the panel normalised it
      first. */
  lemma CoerceAfterNormalize(r: Row, yField: string)
    ensures CoerceY(NormalizeRow(r, yField), yField) == CoerceY(r, yField)
  {
    if yField in r && r[yField].Str? {
      var n := NumberOrZero(Some(r[yField]));
      assert NumberOrZero(Lookup(NormalizeRow(r, yField), yField)) == n;
    }
  }

  /** Without a series field, the pivot of the normalised rows is the pivot of
      the rows. */
  lemma {:induction false} FlatPivotOfNormalized(rows: seq<Row>, xField: string, yField: string)
    ensures PivotFlat(NormalizeY(rows, yField), xField, yField) == PivotFlat(rows, xField, yField)
  {
    forall i | 0 <= i < |rows| ensures CoerceAll(NormalizeY(rows, yField), yField)[i] == CoerceAll(rows, yField)[i] {
      CoerceAfterNormalize(rows[i], yField);
    }
    assert CoerceAll(NormalizeY(rows, yField), yField) == CoerceAll(rows, yField);
  }

  /** The text itself, the key `String(a)` of the series sort. */
  function TextKey(): string -> string {
    (t: string) => t
  }

  /** `series.slice().sort(...)`: a sorted copy; the series list itself is a
      value and stays as it was. */
  function SeriesSorted(series: seq<string>): (r: seq<string>)
    ensures multiset(r) == multiset(series)
    ensures forall i, j | 0 <= i < j < |r| :: StrLe(r[i], r[j])
  {
    SortPermutes(series, TextKey());
    SortSorted(series, TextKey());
    SortBy(series, TextKey())
  }

  /** A list without repetition sorts into a strictly increasing one, so each
      line of the chart gets its own key and colour. */
  lemma SeriesSortedDistinct(series: seq<string>)
    requires NoDuplicates(series)
    ensures NoDuplicates(SeriesSorted(series))
  {
    var r := SeriesSorted(series);
    forall i, j | 0 <= i < j < |r| ensures r[i] != r[j] {
      if r[i] == r[j] {
        MultisetTwice(r, i, j);
        NoDuplicatesOnce(series, r[i]);
      }
    }
  }

  /** An element at two positions occurs at least twice. */
  lemma {:induction false} MultisetTwice(s: seq<string>, i: nat, j: nat)
    requires i < j < |s| && s[i] == s[j]
    ensures multiset(s)[s[i]] >= 2
  {
    assert s == s[..i] + [s[i]] + s[i + 1..j] + [s[j]] + s[j + 1..];
  }

  /** In a list without repetition every element occurs at most once. */
  lemma {:induction false} NoDuplicatesOnce(s: seq<string>, x: string)
    requires NoDuplicates(s)
    ensures multiset(s)[x] <= 1
  {
    if s != [] {
      var p := s[..|s| - 1];
      assert s == p + [s[|s| - 1]];
      NoDuplicatesOnce(p, x);
      if s[|s| - 1] == x {
        assert x !in p;
      }
    }
  }
}
