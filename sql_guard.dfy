/** The SQL guard and the row-cap enforcer of the ask endpoint. Both are
    regular-expression tests over the query text; each regex is written out
    below as the predicate it decides, matching the code as written (which is
    looser and stricter in places than a whole-word, statement-aware check). */
module SqlGuard {
  import opened JsText
  import opened JsValue

  /** The three rejections, in the order the guard tries them. */
  datatype GuardError = NotSelect | DisallowedKeyword | MultipleStatements {
    /** The error text the endpoint returns. */
    function Message(): string {
      match this
      case NotSelect => "Query must start with SELECT"
      case DisallowedKeyword => "Only SELECT is allowed"
      case MultipleStatements => "Multiple statements not allowed"
    }
  }

  /** The alternatives of the keyword regex, in lower case. */
  const BANNED: seq<string> := ["insert", "update", "delete", "drop", "alter", "create",
    "grant", "revoke", "copy", "call", "do", "truncate", "comment"]

  /** `/^\s*select/i`. */
  predicate StartsWithSelect(s: string) {
    exists k | 0 <= k <= |s| :: AllSpace(s[..k]) && MatchesAt(s, k, "select")
  }

  /** `/(insert|...|comment)\b/i`: a keyword followed by a word boundary. There
      is no boundary test in front, so a word that merely ends in a keyword
      (`recall`, `undo`) matches too. */
  predicate HasBannedKeyword(s: string) {
    exists p, w | 0 <= p <= |s| && w in BANNED :: MatchesAt(s, p, w) && BoundaryAt(s, p + |w|)
  }

  /** `/;[\s\S]*;/`: two semicolons anywhere, whatever lies between them. */
  predicate HasTwoSemicolons(s: string) {
    exists i, j | 0 <= i < j < |s| :: s[i] == ';' && s[j] == ';'
  }

  /** `guardSql`: `None` when the query is accepted, otherwise the first test
      that fails. */
  function GuardSql(s: string): Option<GuardError> {
    if !StartsWithSelect(s) then Some(NotSelect)
    else if HasBannedKeyword(s) then Some(DisallowedKeyword)
    else if HasTwoSemicolons(s) then Some(MultipleStatements)
    else None
  }

  /** Number of `;` characters. */
  function SemicolonCount(s: string): nat {
    if s == [] then 0 else (if s[0] == ';' then 1 else 0) + SemicolonCount(s[1..])
  }

  lemma {:induction false} SemicolonCountPositive(s: string)
    ensures SemicolonCount(s) >= 1 <==> exists j | 0 <= j < |s| :: s[j] == ';'
  {
    if s != [] {
      SemicolonCountPositive(s[1..]);
      if s[0] != ';' {
        assert forall j | 1 <= j < |s| :: s[j] == s[1..][j - 1];
      }
    }
  }

  /** The two-semicolon regex matches exactly when there are at least two `;`. */
  lemma {:induction false} TwoSemicolonsIffCount(s: string)
    ensures HasTwoSemicolons(s) <==> SemicolonCount(s) >= 2
  {
    if s != [] {
      var t := s[1..];
      assert forall j | 1 <= j < |s| :: s[j] == t[j - 1];
      if s[0] == ';' {
        SemicolonCountPositive(t);
        if SemicolonCount(t) >= 1 {
          var j :| 0 <= j < |t| && t[j] == ';';
          assert s[0] == ';' && s[j + 1] == ';';
        }
      } else {
        TwoSemicolonsIffCount(t);
        if HasTwoSemicolons(s) {
          var i, j :| 0 <= i < j < |s| && s[i] == ';' && s[j] == ';';
          assert t[i - 1] == ';' && t[j - 1] == ';';
        }
        if HasTwoSemicolons(t) {
          var i, j :| 0 <= i < j < |t| && t[i] == ';' && t[j] == ';';
          assert s[i + 1] == ';' && s[j + 1] == ';';
        }
      }
    }
  }

  /** The SELECT regex matches exactly when the text, with its leading white
      space removed, begins with `select` in any letter case. */
  lemma SelectIffTrimmedPrefix(s: string)
    ensures StartsWithSelect(s) <==> MatchesAt(TrimStart(s), 0, "select")
  {
    var n := LeadingSpace(s);
    if StartsWithSelect(s) {
      var k :| 0 <= k <= |s| && AllSpace(s[..k]) && MatchesAt(s, k, "select");
      assert Fold(s[k + 0]) == "select"[0] == 's';
      assert !IsSpace(s[k]);
      assert n == k;
      assert forall j | 0 <= j < 6 :: TrimStart(s)[j] == s[k + j];
    }
    if MatchesAt(TrimStart(s), 0, "select") {
      assert forall j | 0 <= j < 6 :: TrimStart(s)[j] == s[n + j];
      assert MatchesAt(s, n, "select");
    }
  }

  /** The first test decides alone: the guard reports `NotSelect` exactly when
      the trimmed text does not begin with `select`. */
  lemma GuardNotSelectIff(s: string)
    ensures GuardSql(s) == Some(NotSelect) <==> !MatchesAt(TrimStart(s), 0, "select")
  {
    SelectIffTrimmedPrefix(s);
  }

  /** Once the SELECT test passes, a banned keyword before a word boundary is
      reported, however many semicolons the text has. */
  lemma GuardKeywordFirst(s: string, p: nat, w: string)
    requires MatchesAt(TrimStart(s), 0, "select")
    requires w in BANNED && MatchesAt(s, p, w) && !WordAt(s, p + |w|)
    ensures GuardSql(s) == Some(DisallowedKeyword)
  {
    SelectIffTrimmedPrefix(s);
    assert Fold(s[p + |w| - 1]) == w[|w| - 1];
    assert BoundaryAt(s, p + |w|);
  }

  /** With the first two tests passed, `MultipleStatements` is reported exactly
      when the text holds two or more semicolons. */
  lemma GuardMultipleIff(s: string)
    requires StartsWithSelect(s) && !HasBannedKeyword(s)
    ensures GuardSql(s) == Some(MultipleStatements) <==> SemicolonCount(s) >= 2
  {
    TwoSemicolonsIffCount(s);
  }

  /** The guard accepts exactly the texts that pass all three tests. */
  lemma GuardAcceptsIff(s: string)
    ensures GuardSql(s) == None <==>
      MatchesAt(TrimStart(s), 0, "select") && !HasBannedKeyword(s) && SemicolonCount(s) <= 1
  {
    SelectIffTrimmedPrefix(s);
    TwoSemicolonsIffCount(s);
  }

  /** `/\blimit\b/i`. */
  predicate HasLimitWord(s: string) {
    exists p | 0 <= p <= |s| :: BoundaryAt(s, p) && MatchesAt(s, p, "limit") && BoundaryAt(s, p + 5)
  }

  /** `.replace(/;?$/, "")`: without the `m` flag `$` is the end of the text,
      so at most one final semicolon goes. */
  function DropFinalSemicolon(t: string): (r: string)
    ensures r == t || r + ";" == t
  {
    if t != [] && t[|t| - 1] == ';' then t[..|t| - 1] else t
  }

  const LIMIT_CLAUSE: string := " LIMIT 200;"

  /** The appended clause supplies a `LIMIT` word whatever precedes it. */
  lemma LimitClauseHasLimitWord(q: string)
    ensures HasLimitWord(q + LIMIT_CLAUSE)
  {
    var r := q + LIMIT_CLAUSE;
    var p := |q| + 1;
    assert forall j | 0 <= j < |LIMIT_CLAUSE| :: r[|q| + j] == LIMIT_CLAUSE[j];
    assert r[p - 1] == ' ' && r[p + 5] == ' ';
    assert r[p] == 'L' && r[p + 1] == 'I' && r[p + 2] == 'M' && r[p + 3] == 'I' && r[p + 4] == 'T';
    assert MatchesAt(r, p, "limit");
    assert BoundaryAt(r, p) && BoundaryAt(r, p + 5);
  }

  /** `ensureLimit`. Whatever it returns carries the word `LIMIT`. */
  function EnsureLimit(s: string): (r: string)
    ensures HasLimitWord(r)
    ensures HasLimitWord(s) ==> r == s
  {
    if HasLimitWord(s) then s
    else
      var q := DropFinalSemicolon(Trim(s));
      LimitClauseHasLimitWord(q);
      q + LIMIT_CLAUSE
  }

  /** Without a `LIMIT` word the text is trimmed, loses one final semicolon,
      and gets ` LIMIT 200;` appended. */
  lemma EnsureLimitAppends(s: string)
    requires !HasLimitWord(s)
    ensures var r, t := EnsureLimit(s), Trim(s);
      && |r| >= 11 && r[|r| - 11..] == " LIMIT 200;"
      && (t != [] && t[|t| - 1] == ';' ==> r[..|r| - 11] + ";" == t)
      && (!(t != [] && t[|t| - 1] == ';') ==> r[..|r| - 11] == t)
  {
    var r := EnsureLimit(s);
    var q := DropFinalSemicolon(Trim(s));
    assert r == q + LIMIT_CLAUSE;
    assert r[..|r| - 11] == q;
  }

  /** Applying the enforcer twice changes nothing more. */
  lemma EnsureLimitIdempotent(s: string)
    ensures EnsureLimit(EnsureLimit(s)) == EnsureLimit(s)
  {
  }

  /** A column whose name only ends in a banned keyword is rejected: there is
      no word boundary in front of the keyword in the regex. */
  lemma GuardRejectsKeywordSuffix()
    ensures GuardSql("SELECT recall FROM t") == Some(DisallowedKeyword)
  {
    var s := "SELECT recall FROM t";
    assert !IsSpace(s[0]);
    assert TrimStart(s) == s;
    assert s[0] == 'S' && s[1] == 'E' && s[2] == 'L' && s[3] == 'E' && s[4] == 'C' && s[5] == 'T';
    assert MatchesAt(s, 0, "select");
    assert BANNED[9] == "call";
    assert s[9] == 'c' && s[10] == 'a' && s[11] == 'l' && s[12] == 'l' && s[13] == ' ';
    assert MatchesAt(s, 9, "call");
    GuardKeywordFirst(s, 9, "call");
  }

  /** One trailing semicolon is accepted; a doubled one is rejected although
      nothing stands between the two. */
  lemma GuardSemicolonExamples()
    ensures GuardSql("SELECT 1;") == None
    ensures GuardSql("SELECT 1;;") == Some(MultipleStatements)
  {
    var a, b := "SELECT 1;", "SELECT 1;;";
    assert LeadingSpace(a) == 0 && LeadingSpace(b) == 0;
    assert MatchesAt(a, 0, "select") && MatchesAt(b, 0, "select");
    assert StartsWithSelect(a) && StartsWithSelect(b);
    NoKeywordInSelectOne(a);
    NoKeywordInSelectOne(b);
    assert b[8] == ';' && b[9] == ';';
    assert !HasTwoSemicolons(a);
  }

  /** Neither a nor b holds a banned keyword: no keyword starts with a letter
      of `select` at the place it occurs. */
  lemma NoKeywordInSelectOne(s: string)
    requires s == "SELECT 1;" || s == "SELECT 1;;"
    ensures !HasBannedKeyword(s)
  {
    forall p, i | 0 <= p <= |s| && 0 <= i < |BANNED|
      ensures !MatchesAt(s, p, BANNED[i])
    {
      var w := BANNED[i];
      assert |w| >= 2;
      if p + 2 <= |s| {
        assert Fold(s[p]) != w[0] || Fold(s[p + 1]) != w[1];
      }
    }
    forall p, w | 0 <= p <= |s| && w in BANNED
      ensures !MatchesAt(s, p, w)
    {
      var i :| 0 <= i < |BANNED| && BANNED[i] == w;
    }
  }

  lemma NoLimitInSelectOne()
    ensures !HasLimitWord("SELECT 1")
  {
    var a := "SELECT 1";
    forall p | 0 <= p <= |a|
      ensures !(BoundaryAt(a, p) && MatchesAt(a, p, "limit") && BoundaryAt(a, p + 5))
    {
      if p + 5 <= |a| {
        if p == 2 {
          assert WordAt(a, 1) && WordAt(a, 2);
        } else {
          assert Fold(a[p + 0]) != "limit"[0];
        }
      }
    }
  }

  /** A query without a limit gets one. */
  lemma EnsureLimitAddsExample()
    ensures EnsureLimit("SELECT 1") == "SELECT 1" + " LIMIT 200;"
  {
    var a := "SELECT 1";
    NoLimitInSelectOne();
    assert !IsSpace(a[0]) && !IsSpace(a[|a| - 1]);
    TrimNoSpaceEnds(a);
    assert a[|a| - 1] == '1';
    assert DropFinalSemicolon(Trim(a)) == a;
    assert EnsureLimit(a) == a + LIMIT_CLAUSE;
  }

  /** A query that has a limit, in any letter case, is left alone. */
  lemma EnsureLimitKeepsExample()
    ensures EnsureLimit("select 1 limit 5") == "select 1 limit 5"
  {
    var b := "select 1 limit 5";
    assert b[8] == ' ' && b[9] == 'l' && b[10] == 'i' && b[11] == 'm' && b[12] == 'i' && b[13] == 't' && b[14] == ' ';
    assert BoundaryAt(b, 9) && BoundaryAt(b, 14);
    assert MatchesAt(b, 9, "limit");
  }
}
