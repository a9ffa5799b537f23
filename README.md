# Ask-a-question analytics: the query and chart-data pipeline in Dafny

The application turns a natural-language question into a chart. A language
model returns a plan: an SQL text and a chart description. The server
guards the SQL, caps it with a row limit, runs it and normalises the rows it
gets back. The browser then reshapes the rows for the chart and picks
colours. This project models that pipeline and proves what each step
guarantees:

- `SqlGuard`: `guardSql` and `ensureLimit`. Each regular expression is written
  out as the predicate it decides.
- `ResultNormalizer`: the in-place `rows.map` that coerces the `revenue`,
  `order_count`, `avg_hours` and `month` columns. It is a `DbRow` class whose
  `Normalize` method updates the row's fields.
- `AskRoute`: the handler from the plan's `sql` onward. The guard runs
  first, a rejection sends nothing to the database, and the database only
  ever receives `ensureLimit(sql)`. Everything it is given carries a
  `LIMIT` word.
- `Colors`: `colorFor`, a loop computing a 32-bit polynomial hash over the
  label's UTF-16 code units, with the label palette. Also the chart panel's
  positional palette, `PALETTE[i % 15]`.
- `Pivot`: `pivotLongToWide`, both branches.
  - The series branch is the source's loop that fills the `byX` map.
  - That loop is proved equal to a recursive specification.
  - Proved properties: the series list, one row per x text, column sums, and sorting.
- `ChartPanel`, the pure helpers of the chart panel:
  - `truncateLabel`;
  - the `normalized` y coercion;
  - the sorted copy of the series list.
- Supporting modules:
  - `JsText`: the `\s`/`\w`/`\b` classes, case folding, `trim`, `slice`, and the string order.
  - `JsValue`: JSON values, `String(v)`, truthiness, and integer versions of `Number`, `parseInt` and `parseFloat`.
  - `Sorting`: `Array.prototype.sort` with a key comparator, as a stable insertion sort proved to be a sorted permutation.

JavaScript strings are Dafny strings with one `char` per Unicode code point.
`colorFor` encodes the label to UTF-16 before hashing (`Colors.Utf16`), but
lengths, slices and the string order elsewhere count code points, and a lone
surrogate cannot be represented.
JavaScript numbers are integers, and a parse that yields `NaN` yields `None`
(or `SNaN` in a database row). Database values (`SqlValue`) and browser
values (`Json`) are separate types, because the server sees dates and `NaN`
and the browser sees only JSON.

The guard is modelled as the code is written. This is looser and stricter
in places than a whole-word, statement-aware description of it would be:

- The keyword regex has no `\b` in front of the keyword, so a word that only
  ends in a banned keyword is rejected: `SELECT recall FROM t` gives
  `Only SELECT is allowed`.
- `/;[\s\S]*;/` rejects any text with two semicolons, even `SELECT 1;;` or two
  semicolons inside a string literal. One semicolon, trailing or not, passes.
- `ensureLimit` trims the text before removing one final `;` and appending
  ` LIMIT 200;`. A text that already mentions the word `limit` anywhere, even
  in a comment or a string, is returned unchanged.
- What the model proves about the text sent to the database is that it
  contains a `limit` word, not that the query is capped. Two accepted texts
  show the difference. `SELECT * FROM orders -- all` is sent as
  `SELECT * FROM orders -- all LIMIT 200;`, where the appended clause is part
  of the `--` comment. `SELECT * FROM a; SELECT * FROM b` has one semicolon,
  so it passes, and the appended clause applies only to its second
  statement.

## Model

| member | source | states |
|---|---|---|
| SqlGuard.GuardNotSelectIff | app/api/ask/route.ts:10 | The guard answers "Query must start with SELECT" exactly when the text, after leading `\s` characters, does not begin with `select` in any letter case. |
| SqlGuard.SelectIffTrimmedPrefix | app/api/ask/route.ts:10 | `/^\s*select/i` holds exactly when the text with leading white space removed starts with `select`, case-insensitively. |
| SqlGuard.GuardKeywordFirst | app/api/ask/route.ts:11-16 | Once the SELECT test passes, a banned keyword at any position that is not followed by a word character gives "Only SELECT is allowed", whatever semicolons the text also holds. |
| SqlGuard.GuardRejectsKeywordSuffix | app/api/ask/route.ts:12 | `SELECT recall FROM t` is rejected as a disallowed keyword, because the keyword regex has no word boundary in front. |
| SqlGuard.NoKeywordInSelectOne | app/api/ask/route.ts:12 | Neither `SELECT 1;` nor `SELECT 1;;` contains a banned keyword. |
| SqlGuard.SemicolonCountPositive | app/api/ask/route.ts:17 | The text has at least one `;` exactly when some index holds one. |
| SqlGuard.TwoSemicolonsIffCount | app/api/ask/route.ts:17 | `/;[\s\S]*;/` matches exactly when the text holds two or more semicolons. |
| SqlGuard.GuardMultipleIff | app/api/ask/route.ts:17 | When the first two tests pass, the answer is "Multiple statements not allowed" exactly when there are at least two semicolons. |
| SqlGuard.GuardSemicolonExamples | app/api/ask/route.ts:17-18 | `SELECT 1;` is accepted, and `SELECT 1;;` is rejected as multiple statements. |
| SqlGuard.GuardAcceptsIff | app/api/ask/route.ts:9-19 | The guard accepts (null) exactly when the text starts with `select` after white space, holds no banned keyword before a boundary, and has at most one semicolon. |
| SqlGuard.DropFinalSemicolon | app/api/ask/route.ts:24 | `.replace(/;?$/, "")` leaves the text as it is or removes exactly one final `;`. |
| SqlGuard.LimitClauseHasLimitWord | app/api/ask/route.ts:24 | Whatever precedes it, the appended ` LIMIT 200;` makes `/\blimit\b/i` match. |
| SqlGuard.EnsureLimit | app/api/ask/route.ts:21-25 | The result always matches `/\blimit\b/i`, and a text that already matches comes back unchanged. |
| SqlGuard.EnsureLimitAppends | app/api/ask/route.ts:22-24 | Without a `limit` word, the result ends in ` LIMIT 200;`. Before that clause it holds the trimmed text, minus its final `;` when it ends in one. |
| SqlGuard.EnsureLimitIdempotent | app/api/ask/route.ts:21-25 | Capping a capped text changes nothing. |
| SqlGuard.NoLimitInSelectOne | app/api/ask/route.ts:22 | `SELECT 1` holds no `limit` word. |
| SqlGuard.EnsureLimitAddsExample | app/api/ask/route.ts:24 | `SELECT 1` becomes `SELECT 1 LIMIT 200;`. |
| SqlGuard.EnsureLimitKeepsExample | app/api/ask/route.ts:22-23 | `select 1 limit 5` is returned unchanged. |
| ResultNormalizer.Digits | app/api/ask/route.ts:101 | The zero-padded field of an ISO date has exactly the requested width and only digits. |
| ResultNormalizer.DigitsRoundTrip | app/api/ask/route.ts:101 | A number below 10^w is read back from its w padded digits. |
| ResultNormalizer.IsoMonth | app/api/ask/route.ts:101 | `toISOString().slice(0, 7)` is always seven characters. For years 0-9999 it is the four year digits, `-`, and the two month digits. For other years it is the sign followed by six year digits. |
| ResultNormalizer.IsoMonthRoundTrip | app/api/ask/route.ts:101 | For years 0-9999 the month text has `-` at index 4, and the year and month read back from it. |
| ResultNormalizer.CoerceTextColumns | app/api/ask/route.ts:92-97 | One `typeof row.k === "string"` test and assignment touches no other column. It replaces text in k by its parse, keeps any other value, and leaves no text in k. |
| ResultNormalizer.NormalizeMonthColumns | app/api/ask/route.ts:99-103 | The `month` step touches no other column. |
| ResultNormalizer.NormalizeFields | app/api/ask/route.ts:92-103 | Columns other than the four named ones are untouched. None of `revenue`, `order_count` and `avg_hours` is left as text, and a `month` left in the row is text. |
| ResultNormalizer.NormalizeFieldsColumns | app/api/ask/route.ts:92-103 | `revenue` and `avg_hours` become `parseFloat` of their text, and `order_count` becomes `parseInt`, only when they hold text; otherwise each is kept as it is, or stays absent. A `month` date becomes its `YYYY-MM` text, a text `month` stays, any other `month` is deleted, and a missing `month` stays missing. |
| ResultNormalizer.NormalizeIdempotent | app/api/ask/route.ts:91-106 | Normalising a normalised row changes nothing. |
| ResultNormalizer.DbRow.constructor | app/api/ask/route.ts:89 | A row object holds the fields the driver delivered. |
| ResultNormalizer.DbRow.Normalize | app/api/ask/route.ts:92-105 | The callback's assignments and `delete` leave the row's fields as `NormalizeFields` of their old value. |
| ResultNormalizer.NormalizeRows | app/api/ask/route.ts:91-106 | `rows.map` returns the same row objects in the same order, and every row ends up normalised once, even a row object that occurs twice. |
| AskRoute.Database.constructor | app/api/ask/route.ts:89 | The database starts with nothing sent and a fixed answer. |
| AskRoute.Database.Query | app/api/ask/route.ts:89 | `db.query(sql)` records `sql` as sent and answers its rows. |
| AskRoute.PlanSql | app/api/ask/route.ts:83 | `String(plan.sql \|\| "")` is empty for a falsy `sql`, and is the text itself for a text `sql`. |
| AskRoute.Ask | app/api/ask/route.ts:83-106 | A rejection answers the guard's message, sends nothing and changes no row. An acceptance sends exactly `EnsureLimit(sql)` once, answers that text with the normalised rows, and normalises every answered row in place. If every statement sent so far contained a `limit` word, they still all do. |
| AskRoute.MissingSqlRejected | app/api/ask/route.ts:83-86 | A missing or empty plan `sql` is rejected as not starting with SELECT. |
| Colors.Utf16 | lib/ui.ts:17 | The code units `charCodeAt` reads are at least as many as the characters. |
| Colors.Utf16Bmp | lib/ui.ts:17 | For characters of the Basic Multilingual Plane, there is one code unit per character, equal to its code. |
| Colors.Hash | lib/ui.ts:15-17 | The accumulator after `>>> 0` is always below 2^32. |
| Colors.HashIsPolyMod | lib/ui.ts:15-17 | The 32-bit hash equals the unreduced polynomial `sum u[i] * 31^(n-1-i)` modulo 2^32. |
| Colors.HashAppend | lib/ui.ts:16-17 | Appending one code unit advances the hash by `(h * 31 + unit) mod 2^32`, so the colour depends on the label alone. |
| Colors.ColorFor | lib/ui.ts:14-19 | The loop computes `PALETTE[Hash(units) % 10]`, keeping `0 <= h < 2^32` and `h` equal to the hash of the units read so far. The result is an entry of `PALETTE`, and the empty label gets `#22d3ee`. |
| Colors.PositionalColor | components/chart-panel.tsx:28-44 | `PALETTE[i % PALETTE.length]`, used at lines 90, 123 and 163, is always a palette entry, and is the i-th entry for i below fifteen. |
| Colors.PositionalCycles | components/chart-panel.tsx:90 | The colour of index i + 15 is the colour of index i, so with the first fifteen entries the colour of every index is fixed. |
| JsText.Fold | app/api/ask/route.ts:10-12 | The `i` flag's folding turns an upper-case ASCII letter into its own lower case and leaves every other character as it is, so word characters stay word characters. |
| JsText.FoldMatchesLetter | app/api/ask/route.ts:10-12 | A character matches a lower-case ASCII letter of a pattern exactly when it is that letter or its upper case. |
| JsText.LeadingSpace | app/api/ask/route.ts:10 | The count of leading `\s` characters covers only white space and stops at a non-space. |
| JsText.TrailingSpace | app/api/ask/route.ts:24 | The count of trailing `\s` characters covers only white space and stops at a non-space. |
| JsText.Trim | app/api/ask/route.ts:24 | `sql.trim()` is a contiguous slice of the text, with only white space outside it and no white space at either end. |
| JsText.Slice | components/chart-panel.tsx:25 | `slice` never returns more than the text, and for `0 <= start <= end <= length` it returns exactly the characters from `start` up to `end`. |
| JsText.StrLeTotal | lib/ui.ts:30 | Any two keys are comparable under the string order that stands in for `localeCompare`. |
| JsText.StrLeAntisymmetric | lib/ui.ts:30 | Keys ordered both ways are equal. |
| JsText.StrLeTransitive | lib/ui.ts:30 | The string order is transitive. |
| JsText.StrLeReflexive | lib/ui.ts:30 | Every key is ordered before itself. |
| JsValue.NatText | lib/ui.ts:30 | `String(n)` of a natural number is a non-empty run of digits without a leading zero. |
| JsValue.IntText | lib/ui.ts:30 | `String(n)` of an integer is never empty. |
| JsValue.DigitsValueOfNatText | lib/ui.ts:29 | The digits of `String(n)` read back as `n`. |
| JsValue.IntTextShape | lib/ui.ts:30 | `String(n)` is a `-` for a negative n, then the digits of its magnitude, and has no white space at either end. |
| JsValue.DigitsSpan | app/api/ask/route.ts:93-95 | A run of digits is read as one integer literal spanning the whole run. |
| JsValue.ParseIntOfIntText | app/api/ask/route.ts:95 | `parseInt(String(n), 10)` is `n`. |
| JsValue.StringToNumberOfDigits | lib/ui.ts:29 | `Number` of a trimmed text made of a sign and a run of digits is that signed number. |
| JsValue.StringToNumberOfIntText | lib/ui.ts:29 | `Number(String(n))` is `n`. |
| JsValue.NumberOrZeroOfText | lib/ui.ts:29 | `Number(String(n)) \|\| 0` is `n`. |
| JsValue.NumberOrZeroOfDigit | lib/ui.ts:29 | `Number(d) \|\| 0` of the text of one decimal digit is that digit. |
| JsValue.StringToNumber | lib/ui.ts:29 | `Number` of white space alone is 0. |
| Sorting.Insert | lib/ui.ts:29-30 | Inserting one element lengthens the sequence by one. |
| Sorting.SortBy | lib/ui.ts:29-30 | Sorting keeps the length. |
| Sorting.InsertPermutes | lib/ui.ts:29-30 | Insertion adds exactly the inserted element to the multiset. |
| Sorting.InsertAtMost | lib/ui.ts:29-30 | Inserting an element whose key is at most k into a sequence whose keys are all at most k keeps every key at most k. |
| Sorting.InsertSorted | lib/ui.ts:29-30 | Insertion into a sorted sequence keeps it sorted. |
| Sorting.SortPermutes | lib/ui.ts:29-30 | The sort returns a permutation of its input. |
| Sorting.SortSorted | lib/ui.ts:29-30 | The sort's result is ordered by the key. |
| Sorting.InsertStable | lib/ui.ts:29-30 | Insertion places the new element after every element with an equal key. |
| Sorting.SortStable | lib/ui.ts:29-30 | The sort is stable: the elements with any given key keep their input order. |
| Pivot.CoerceY | lib/ui.ts:29 | The y column becomes `Number(y) \|\| 0`, and every other column is kept. |
| Pivot.CoerceAll | lib/ui.ts:28-29 | `rows.map` coerces every row, keeping the count and the order. |
| Pivot.PivotFlatProperties | lib/ui.ts:27-31 | Without a series field, `data` is a permutation of the coerced rows, ascending by `String(x)`, and stable for equal x texts. |
| Pivot.Distinct | lib/ui.ts:34 | `Array.from(new Set(s))` holds exactly the elements of `s`. |
| Pivot.FirstIndex | lib/ui.ts:34 | The first index where a text occurs. |
| Pivot.DistinctOrdered | lib/ui.ts:34 | The distinct list has no repetition, and lists elements in the order of their first occurrence. |
| Pivot.SeriesListProperties | lib/ui.ts:34 | `series` has no duplicates, holds exactly the `String(r[seriesField])` texts of the rows, and is in first-occurrence order. |
| Pivot.Group | lib/ui.ts:36-44 | After any number of rows, the list of inserted keys and the domain of `byX` hold the same texts. |
| Pivot.PivotWithSeries | lib/ui.ts:34-50 | The loop over the rows, with its `byX.has`/`set`/`get` and `obj[s] = (obj[s] \|\| 0) + y`, leaves `byX` as the recursive specification `Group` describes. `data` is its sorted values, and `series` is the distinct series texts. |
| Pivot.PivotLongToWide | lib/ui.ts:21-51 | A missing, null or empty series field takes the flat branch with an empty series list, and any other takes the series branch. |
| Pivot.SumYNoPair | lib/ui.ts:40-43 | A sum over no matching row is zero. |
| Pivot.GroupDomain | lib/ui.ts:41 | `byX` has one entry for exactly the x texts seen. |
| Pivot.GroupXColumn | lib/ui.ts:41 | Each grouped object's x column is its key, when no series text names the x field. |
| Pivot.PairedXSeen | lib/ui.ts:38-41 | Every row's x text is among the x texts. |
| Pivot.AddToColumn | lib/ui.ts:43 | `obj[s] = (obj[s] \|\| 0) + y` adds y to column s, starting from 0 when absent, and leaves every other column alone. |
| Pivot.GroupColumn | lib/ui.ts:37-44 | Column s (other than the x column) of the object for x text k is present exactly when some row pairs k with series text s. It then holds the sum of those rows' `Number(y) \|\| 0`, and an absent column stands for a zero sum. |
| Pivot.GroupKeys | lib/ui.ts:35-46 | The keys of `byX` are inserted in the first-seen order of the distinct x texts. |
| Pivot.WithDistinctKeys | lib/ui.ts:46-48 | In a sequence whose keys are distinct, each key picks out one element if it occurs and none otherwise. |
| Pivot.GroupValuesKeyed | lib/ui.ts:41-46 | When no series text names the x field, each value of `byX`, in insertion order, has its own key as x text. |
| Pivot.SeriesDataOnePerX | lib/ui.ts:35-48 | With a series field, `data` is ascending by `String(x)`, has as many rows as there are distinct x texts, and holds exactly one row for each x text that occurs and none for any other. |
| Pivot.SeriesDataColumns | lib/ui.ts:37-48 | Every row of `data` has, as its x column, an x text that occurs in the input. Each other column s is present exactly when some input row pairs that x text with s, and then holds their summed `Number(y) \|\| 0`. |
| Pivot.FlatRowCoerce | lib/ui.ts:29 | Coercing a two-column row replaces its y by `Number(y) \|\| 0`. |
| Pivot.FlatExampleCoerce | lib/ui.ts:29 | The y texts `"3"` and `"5"` of the flat example become the numbers 3 and 5. |
| Pivot.FlatExampleSort | lib/ui.ts:30 | The coerced rows are ordered `a` before `b`. |
| Pivot.FlatExample | lib/ui.ts:27-31 | Rows `{x:"b",y:"3"}` and `{x:"a",y:"5"}` pivot to `{x:"a",y:5}`, `{x:"b",y:3}` with no series. |
| Pivot.ExampleRowRead | lib/ui.ts:38-40 | The loop reads `Jan`, the row's series and its y from an example row. |
| Pivot.AddRowFirst | lib/ui.ts:41-43 | When its series text does not name the x field, the first row creates `{[xField]: x}` for its x text and sets its series column to its y. |
| Pivot.AddRowSingle | lib/ui.ts:41-43 | A row whose x text is already the only key adds its y into that key's object at its series column. |
| Pivot.SeriesExampleFirstTwo | lib/ui.ts:37-44 | After the first two January rows (A 1, A 2) there is one object `{x:"Jan",A:3}`. |
| Pivot.SeriesExampleThird | lib/ui.ts:41-43 | The third row (B 5) adds `B:5` to that object. |
| Pivot.SeriesExampleGroup | lib/ui.ts:37-44 | Three January rows (A 1, A 2, B 5) group into one object `{x:"Jan",A:3,B:5}`. |
| Pivot.SeriesExampleList | lib/ui.ts:34 | Their series list is `["A","B"]`. |
| Pivot.SingleGroupData | lib/ui.ts:46-48 | Rows with a single x text give `data` holding that text's one object. |
| Pivot.SeriesExampleData | lib/ui.ts:46-48 | The example's `data` is `[{x:"Jan",A:3,B:5}]`. |
| Pivot.SeriesExample | lib/ui.ts:34-50 | The whole series-branch result for those rows is `{data:[{x:"Jan",A:3,B:5}], series:["A","B"]}`. |
| ChartPanel.LabelText | components/chart-panel.tsx:24 | `String(v ?? "")` is empty for null and undefined, and is the text itself for a text. |
| ChartPanel.TruncateLabel | components/chart-panel.tsx:23-26 | For a non-negative maximum, null and undefined give "". A label within the maximum is kept. A longer one, for a maximum of at least 1, is its first max-1 characters followed by `…`, exactly max long. A positive maximum is never exceeded. |
| ChartPanel.TickLabelBound | components/chart-panel.tsx:22-25 | With the default maximum of 12, a tick label is at most twelve characters, and a cut one ends in the ellipsis at index 11. |
| ChartPanel.NormalizeRow | components/chart-panel.tsx:57-61 | A text y becomes `Number(y) \|\| 0`, any other row is returned as it is, and no other column changes. No y is left as text, and the column names are kept. |
| ChartPanel.NormalizeY | components/chart-panel.tsx:55-64 | `normalized` has the same length as the rows and normalises each row in place of it. |
| ChartPanel.NormalizeYIdempotent | components/chart-panel.tsx:55-64 | Normalising twice equals normalising once. |
| ChartPanel.CoerceAfterNormalize | components/chart-panel.tsx:60 | The pivot's `Number(y) \|\| 0` gives the same row whether or not the panel normalised it first. |
| ChartPanel.FlatPivotOfNormalized | components/chart-panel.tsx:66-69 | Without a series field, the pivot of the normalised rows equals the pivot of the raw rows. |
| ChartPanel.SeriesSorted | components/chart-panel.tsx:71-75 | The sorted copy is a permutation of the series list and ascending in the string order. The list itself is a value and is not changed. |
| ChartPanel.SeriesSortedDistinct | components/chart-panel.tsx:71-75 | A series list without repetition sorts into one without repetition, strictly ascending, so every line or bar has its own key. |
| ChartPanel.MultisetTwice | components/chart-panel.tsx:71-75 | An element at two positions occurs at least twice in the multiset. |
| ChartPanel.NoDuplicatesOnce | components/chart-panel.tsx:71-75 | In a list without repetition, every element occurs at most once. |

## Left out

- The language-model call, `JSON.parse` of its answer, the question check, latency, and the HTTP responses and status codes (route.ts:42-82, 107-122). These are network and foreign-library calls. The handler is modelled from the plan's `sql` onward, with the plan's `sql` as a parameter.
- `db.query` is an abstract database that records what it is sent and answers a fixed row set given at construction. What a real database does with the text is not modelled.
- The serialisation of the normalised rows to JSON for the browser is not modelled: `Date` to ISO text, `NaN` to `null`. The browser side starts from `Json` rows.
- JsValue.ParseFloat: numbers are integers. `parseFloat` reads the decimal literal and drops its fraction, and exponents, `Infinity` and hexadecimal forms of `Number` are not modelled.
- JsText.StrLe: `localeCompare` is replaced by plain lexicographic order on character codes, a total order. Locale-specific collation is not modelled.
- ResultNormalizer.DbRow.Normalize: an Invalid Date is not modelled. In the source its `toISOString` throws a `RangeError`, which leaves the normaliser loop (route.ts:101) and is answered with status 500 by the handler's catch (route.ts:116-120); every `Date` of the model is a valid one.
- ResultNormalizer.IsoMonth: a date is its UTC year and month. The time zone conversion inside `toISOString` is not modelled.
- ChartPanel.TruncateLabel: lengths count `char`s. A label with characters outside the Basic Multilingual Plane, whose length JavaScript counts in UTF-16 units, is not treated separately. For a maximum below 1 the result is the body's slice arithmetic (for 0 and a non-empty label, all but the last character followed by `…`), and no further property is stated.
- Pivot.GroupColumn, Pivot.AddToColumn, Pivot.GroupXColumn, Pivot.GroupValuesKeyed, Pivot.AddRowFirst, Pivot.SeriesDataColumns and Pivot.SeriesDataOnePerX require that no row's series text is the name of the x field. When one is, the source adds into the x column itself.
- Pivot.Lookup, Pivot.FieldText, Pivot.AddRow: a row is a map, so a property name that a JavaScript object inherits from `Object.prototype` (`constructor`, `toString`, `__proto__` and the rest) reads as absent. In the source, `obj["constructor"] || 0` reads the inherited function and `obj["__proto__"] = …` sets the prototype instead of a column, and `String(r[f])` of such a name is not `"undefined"`. The column contracts (Pivot.AddToColumn, Pivot.GroupColumn, Pivot.SeriesDataColumns) hold only for x, series and field names that are not inherited ones.
- JSON arrays and objects as values (`Json` holds only scalars) are not modelled, for example a plan whose `sql` is an array, which `String` would join into a text.
- Pivot.PivotWithSeries: `byX`, its objects and the result rows are values (maps), not shared objects. Aliasing between the returned rows and later mutation is not modelled.
- Array.prototype.sort: modelled as one particular stable algorithm, insertion sort. Every stable sort with the same comparator returns the same sequence.
- The rendering of the chart panel (Recharts components, `useMemo`, the pie, line and bar layouts) and the per-bar `colorFor(String(d[xField]))` call, apart from the palette indexing and the helpers above.
