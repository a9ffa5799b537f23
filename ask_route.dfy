/** The server side of the ask endpoint from the moment the model's plan has
    been parsed: take the plan's SQL, guard it, cap it, hand it to the
    database, and normalise the rows that come back. The database is an
    abstract sink that records every statement it is given. */
module AskRoute {
  import opened JsText
  import opened JsValue
  import opened SqlGuard
  import opened ResultNormalizer

  /** `db.query`: records the statement and answers with a fixed result set. */
  class Database {
    var sent: seq<string>
    const answer: seq<DbRow>

    constructor (answer: seq<DbRow>)
      ensures sent == [] && this.answer == answer
    {
      sent := [];
      this.answer := answer;
    }

    method Query(sql: string) returns (rows: seq<DbRow>)
      modifies this
      ensures sent == old(sent) + [sql] && rows == answer
    {
      sent := sent + [sql];
      rows := answer;
    }
  }

  /** What the endpoint answers: the guard's error text, or the statement it
      ran with the normalised rows. */
  datatype AskResponse = Rejected(error: string) | Answered(sql: string, rows: seq<DbRow>)

  /** `String(plan.sql || "")`. */
  function PlanSql(v: Option<Json>): (sql: string)
    ensures !Truthy(v) ==> sql == ""
    ensures v.Some? && v.value.Str? ==> sql == v.value.s
  {
    if Truthy(v) then ToText(v) else ""
  }

  /** Every statement the database has seen contains a `limit` word. This is
      not a row cap: the word may sit in a comment or a string, or cap only
      one of two statements. */
  ghost predicate AllCapped(sent: seq<string>) {
    forall i | 0 <= i < |sent| :: HasLimitWord(sent[i])
  }

  /** Lines 83-106 of the handler. A rejected plan sends nothing to the
      database and leaves every row alone; an accepted one sends exactly
      `ensureLimit(sql)`, once, and normalises the answer in place. */
  method Ask(planSql: Option<Json>, db: Database) returns (resp: AskResponse)
    modifies db, set r | r in db.answer
    ensures var sql := PlanSql(planSql);
      match GuardSql(sql)
      case Some(e) =>
        resp == Rejected(e.Message()) && db.sent == old(db.sent) &&
        forall i | 0 <= i < |db.answer| :: db.answer[i].fields == old(db.answer[i].fields)
      case None =>
        resp == Answered(EnsureLimit(sql), db.answer) && db.sent == old(db.sent) + [EnsureLimit(sql)] &&
        forall i | 0 <= i < |db.answer| :: db.answer[i].fields == NormalizeFields(old(db.answer[i].fields))
    ensures AllCapped(old(db.sent)) ==> AllCapped(db.sent)
  {
    var sql := PlanSql(planSql);
    var guardErr := GuardSql(sql);
    if guardErr.Some? {
      return Rejected(guardErr.value.Message());
    }
    sql := EnsureLimit(sql);
    var rows := db.Query(sql);
    var normalized := NormalizeRows(rows);
    resp := Answered(sql, normalized);
  }

  /** An empty or missing `sql` never reaches the database. */
  lemma MissingSqlRejected(v: Option<Json>)
    requires !Truthy(v)
    ensures GuardSql(PlanSql(v)) == Some(NotSelect)
  {
    assert !MatchesAt("", 0, "select");
  }
}
