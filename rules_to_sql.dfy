/** The query compiler: a rule-set document becomes one parameterised SQL `SELECT`
    over the `emails` table, with one bound parameter per condition. */
module RulesToSql {
  import opened Wrappers
  import opened Strings
  import opened RuleSet

  const StringFields: set<string> := {"sender", "recipient", "subject", "body", "snippet"}

  /** The exceptions `rules_to_sql_query` raises. */
  datatype CompileError =
    | MissingKey(key: string)               // KeyError on `cond["field"]`, `cond["predicate"]`, `cond["value"]`
    | UnknownStringPredicate(pred: string)  // ValueError "Unknown string predicate"
    | UnknownDatePredicate(pred: string)    // ValueError "Unknown date predicate"
    | UnknownField(field: string)           // ValueError "Unknown field"
    | TemporalValueShape(words: nat)        // ValueError: `number, unit = value.split()` got other than two words
    | TemporalValueNumber(literal: string)  // ValueError: `int(number)` rejected the first word

  /** One condition's SQL text and the parameter it binds. */
  datatype Clause = Clause(sql: string, param: string)

  /** The query text with `?` placeholders, and the parameters in placeholder order. */
  datatype SqlQuery = SqlQuery(text: string, params: seq<string>)

  /** The day count of a temporal value `"<int> <unit>"`: a unit whose lower-case form
      starts with "month" counts 30 days per unit, any other unit one day. */
  function DayOffset(value: string): (r: Result<int, CompileError>)
    ensures r.Ok? <==> |Words(value)| == 2 && ParseInt(Words(value)[0]).Some?
    ensures |Words(value)| != 2 ==> r == Err(TemporalValueShape(|Words(value)|))
    ensures |Words(value)| == 2 && ParseInt(Words(value)[0]).None? ==> r == Err(TemporalValueNumber(Words(value)[0]))
    ensures r.Ok? && "month" <= Lower(Words(value)[1]) ==> r.value == 30 * ParseInt(Words(value)[0]).value
    ensures r.Ok? && !("month" <= Lower(Words(value)[1])) ==> r.value == ParseInt(Words(value)[0]).value
  {
    var words := Words(value);
    if |words| != 2 then Err(TemporalValueShape(|words|))
    else match ParseInt(words[0])
      case None => Err(TemporalValueNumber(words[0]))
      case Some(n) => Ok(if "month" <= Lower(words[1]) then n * 30 else n)
  }

  /** The `datetime('now', ?)` modifier for a day count: `f"-{delta_days} days"`. */
  function DaysParam(days: int): string {
    "-" + IntToString(days) + " days"
  }

  /** The body of the condition loop: one condition's clause and parameter. */
  function CompileCondition(cond: RawRule): (r: Result<Clause, CompileError>)
    ensures cond.field.None? ==> r == Err(MissingKey("field"))
    ensures cond.field.Some? && cond.pred.None? ==> r == Err(MissingKey("predicate"))
    ensures cond.field.Some? && cond.pred.Some? && cond.value.None? ==> r == Err(MissingKey("value"))
    ensures r.Ok? ==> Lower(cond.field.value) in StringFields || Lower(cond.field.value) == "received_at"
    ensures r.Ok? ==> Lower(cond.field.value) <= r.value.sql
    ensures r.Ok? && Lower(cond.field.value) in StringFields ==>
      r.value.param == cond.value.value || r.value.param == "%" + cond.value.value + "%"
    ensures r.Err? && cond.field.Some? && cond.pred.Some? && cond.value.Some? ==>
      if Lower(cond.field.value) in StringFields then r == Err(UnknownStringPredicate(Lower(cond.pred.value)))
      else if Lower(cond.field.value) == "received_at" then
        r == (if DayOffset(cond.value.value).Err? then Err(DayOffset(cond.value.value).error)
              else Err(UnknownDatePredicate(Lower(cond.pred.value))))
      else r == Err(UnknownField(Lower(cond.field.value)))
  {
    if cond.field.None? then Err(MissingKey("field"))
    else if cond.pred.None? then Err(MissingKey("predicate"))
    else if cond.value.None? then Err(MissingKey("value"))
    else
      var field := Lower(cond.field.value);
      var pred := Lower(cond.pred.value);
      var value := cond.value.value;
      if field in StringFields then
        if pred == "contains" then Ok(Clause(field + " LIKE ?", "%" + value + "%"))
        else if pred == "does_not_contain" then Ok(Clause(field + " NOT LIKE ?", "%" + value + "%"))
        else if pred == "equals" then Ok(Clause(field + " = ?", value))
        else if pred == "does_not_equal" then Ok(Clause(field + " != ?", value))
        else Err(UnknownStringPredicate(pred))
      else if field == "received_at" then
        match DayOffset(value)
        case Err(e) => Err(e)
        case Ok(days) =>
          if pred == "less_than" then Ok(Clause(field + " >= datetime('now', ?)", DaysParam(days)))
          else if pred == "greater_than" then Ok(Clause(field + " <= datetime('now', ?)", DaysParam(days)))
          else Err(UnknownDatePredicate(pred))
      else Err(UnknownField(field))
  }

  /** All conditions in declared order; the first condition that raises decides the error. */
  function CompileAll(conds: seq<RawRule>): (r: Result<seq<Clause>, CompileError>)
    ensures r.Ok? <==> forall i :: 0 <= i < |conds| ==> CompileCondition(conds[i]).Ok?
    ensures r.Ok? ==> |r.value| == |conds|
    ensures r.Ok? ==> forall i :: 0 <= i < |conds| ==> CompileCondition(conds[i]) == Ok(r.value[i])
  {
    if conds == [] then Ok([])
    else
      var init := conds[..|conds| - 1];
      assert forall i :: 0 <= i < |init| ==> init[i] == conds[i];
      match CompileAll(init)
      case Err(e) => Err(e)
      case Ok(clauses) =>
        match CompileCondition(conds[|conds| - 1])
        case Err(e) => Err(e)
        case Ok(c) => Ok(clauses + [c])
  }

  function Sqls(clauses: seq<Clause>): (r: seq<string>)
    ensures |r| == |clauses|
  {
    seq(|clauses|, i requires 0 <= i < |clauses| => clauses[i].sql)
  }

  function Params(clauses: seq<Clause>): (r: seq<string>)
    ensures |r| == |clauses|
  {
    seq(|clauses|, i requires 0 <= i < |clauses| => clauses[i].param)
  }

  /** `" AND "` exactly when the lower-cased combinator, `"all"` when absent, is `"all"`. */
  function Connector(rulesPredicate: Option<string>): (c: string)
    ensures c == " AND " <==> Lower(GetOr(rulesPredicate, "all")) == "all"
    ensures c != " AND " ==> c == " OR "
  {
    if Lower(GetOr(rulesPredicate, "all")) == "all" then " AND " else " OR "
  }

  function WhereClause(connector: string, sqls: seq<string>): string {
    if sqls == [] then "1=1" else Join(connector, sqls)
  }

  /** What `rules_to_sql_query` returns or raises. */
  function Compile(d: Document): (r: Result<SqlQuery, CompileError>)
    ensures r.Ok? <==> forall i :: 0 <= i < |GetOr(d.rules, [])| ==> CompileCondition(GetOr(d.rules, [])[i]).Ok?
    ensures r.Ok? ==> |r.value.params| == |GetOr(d.rules, [])|
    ensures r.Ok? ==> "SELECT * FROM emails WHERE " <= r.value.text
  {
    match CompileAll(GetOr(d.rules, []))
    case Err(e) => Err(e)
    case Ok(clauses) =>
      Ok(SqlQuery("SELECT * FROM emails WHERE " + WhereClause(Connector(d.rulesPredicate), Sqls(clauses)) + ";",
                  Params(clauses)))
  }

  /** A prefix of the conditions that raises makes the whole list raise the same error. */
  lemma {:induction false} CompileAllPrefixError(conds: seq<RawRule>, i: nat)
    requires i <= |conds| && CompileAll(conds[..i]).Err?
    ensures CompileAll(conds) == CompileAll(conds[..i])
    decreases |conds|
  {
    if i == |conds| {
      assert conds[..i] == conds;
    } else {
      var init := conds[..|conds| - 1];
      assert init[..i] == conds[..i];
      CompileAllPrefixError(init, i);
    }
  }

  /** The error of a failing condition list is the error of its first failing condition. */
  lemma {:induction false} CompileAllFirstError(conds: seq<RawRule>)
    requires CompileAll(conds).Err?
    ensures exists i :: 0 <= i < |conds| && CompileCondition(conds[i]) == Err(CompileAll(conds).error)
                        && forall j :: 0 <= j < i ==> CompileCondition(conds[j]).Ok?
  {
    var init := conds[..|conds| - 1];
    assert forall i :: 0 <= i < |init| ==> init[i] == conds[i];
    if CompileAll(init).Err? {
      CompileAllFirstError(init);
      var i :| 0 <= i < |init| && CompileCondition(init[i]) == Err(CompileAll(init).error)
               && forall j :: 0 <= j < i ==> CompileCondition(init[j]).Ok?;
      assert CompileCondition(conds[i]) == Err(CompileAll(conds).error);
    } else {
      assert CompileCondition(conds[|conds| - 1]) == Err(CompileAll(conds).error);
    }
  }

  /** `rules_to_sql_query`: the condition loop appends each clause and parameter in turn. */
  method RulesToSqlQuery(d: Document) returns (r: Result<SqlQuery, CompileError>)
    ensures r == Compile(d)
  {
    var rulesPredicate := Lower(GetOr(d.rulesPredicate, "all"));
    var conditions := GetOr(d.rules, []);
    var sqlClauses: seq<string> := [];
    var params: seq<string> := [];
    for i := 0 to |conditions|
      invariant CompileAll(conditions[..i]).Ok?
      invariant sqlClauses == Sqls(CompileAll(conditions[..i]).value)
      invariant params == Params(CompileAll(conditions[..i]).value)
    {
      assert conditions[..i + 1][..i] == conditions[..i];
      match CompileCondition(conditions[i])
      case Err(e) =>
        CompileAllPrefixError(conditions, i + 1);
        return Err(e);
      case Ok(clause) =>
        sqlClauses := sqlClauses + [clause.sql];
        params := params + [clause.param];
    }
    assert conditions[..|conditions|] == conditions;
    var connector := if rulesPredicate == "all" then " AND " else " OR ";
    var whereClause := if sqlClauses != [] then Join(connector, sqlClauses) else "1=1";
    return Ok(SqlQuery("SELECT * FROM emails WHERE " + whereClause + ";", params));
  }

  // ---------------------------------------------------------------------------
  // Properties of the compiler

  /** String fields: `LIKE`/`NOT LIKE` bind the value between two `%` wildcards,
      `=`/`!=` bind it unchanged; the predicate is lower-cased first. */
  lemma StringConditions(f: string, p: string, v: string)
    requires Lower(f) in {"sender", "recipient", "subject", "body", "snippet"}
    ensures var r := CompileCondition(RawRule(Some(f), Some(p), Some(v)));
      && (Lower(p) == "contains" ==> r == Ok(Clause(Lower(f) + " LIKE ?", "%" + v + "%")))
      && (Lower(p) == "does_not_contain" ==> r == Ok(Clause(Lower(f) + " NOT LIKE ?", "%" + v + "%")))
      && (Lower(p) == "equals" ==> r == Ok(Clause(Lower(f) + " = ?", v)))
      && (Lower(p) == "does_not_equal" ==> r == Ok(Clause(Lower(f) + " != ?", v)))
      && (Lower(p) !in {"contains", "does_not_contain", "equals", "does_not_equal"} ==>
            r == Err(UnknownStringPredicate(Lower(p))))
  {
  }

  /** The date field: `less_than` keeps mail received at or after now minus N days,
      `greater_than` mail received at or before it; the value is parsed before the
      predicate is looked at. */
  lemma DateConditions(f: string, p: string, v: string)
    requires Lower(f) == "received_at"
    ensures var r := CompileCondition(RawRule(Some(f), Some(p), Some(v)));
      && (DayOffset(v).Err? ==> r == Err(DayOffset(v).error))
      && (DayOffset(v).Ok? && Lower(p) == "less_than" ==>
            r == Ok(Clause(Lower(f) + " >= datetime('now', ?)", "-" + IntToString(DayOffset(v).value) + " days")))
      && (DayOffset(v).Ok? && Lower(p) == "greater_than" ==>
            r == Ok(Clause(Lower(f) + " <= datetime('now', ?)", "-" + IntToString(DayOffset(v).value) + " days")))
      && (DayOffset(v).Ok? && Lower(p) !in {"less_than", "greater_than"} ==> r == Err(UnknownDatePredicate(Lower(p))))
  {
    ReceivedAtNotString();
  }

  lemma ReceivedAtNotString()
    ensures "received_at" !in StringFields
  {
  }

  /** A field outside the six known names raises "Unknown field" with the lower-cased name. */
  lemma UnknownFieldCondition(f: string, p: string, v: string)
    requires Lower(f) !in {"sender", "recipient", "subject", "body", "snippet", "received_at"}
    ensures CompileCondition(RawRule(Some(f), Some(p), Some(v))) == Err(UnknownField(Lower(f)))
  {
  }

  /** `"N months"` (any unit spelled from "month") is the same offset as `"30*N days"`. */
  lemma MonthsAreThirtyDays(n: int, unit: string)
    requires IsWord(unit) && "month" <= Lower(unit)
    ensures DayOffset(IntToString(n) + " " + unit) == Ok(30 * n)
    ensures DayOffset(IntToString(30 * n) + " days") == Ok(30 * n)
  {
    IntToStringIsWord(n);
    WordsOfPair(IntToString(n), unit);
    ParseIntToString(n);
    DaysUnit(30 * n);
  }

  /** The unit "days" counts one day per unit. */
  lemma DaysUnit(n: int)
    ensures DayOffset(IntToString(n) + " days") == Ok(n)
  {
    var days := "days";
    assert IsWord(days) && !("month" <= Lower(days));
    OtherUnitsAreDays(n, days);
    assert IntToString(n) + " " + days == IntToString(n) + " days";
  }

  /** Any other unit, "weeks" or "years" included, counts as days. */
  lemma OtherUnitsAreDays(n: int, unit: string)
    requires IsWord(unit) && !("month" <= Lower(unit))
    ensures DayOffset(IntToString(n) + " " + unit) == Ok(n)
  {
    IntToStringIsWord(n);
    WordsOfPair(IntToString(n), unit);
    ParseIntToString(n);
  }

  /** No conditions (or no "rules" key) compile to the query that matches every row. */
  lemma NoConditionsMatchAll(d: Document)
    requires GetOr(d.rules, []) == []
    ensures Compile(d) == Ok(SqlQuery("SELECT * FROM emails WHERE 1=1;", []))
  {
    assert "SELECT * FROM emails WHERE " + "1=1" + ";" == "SELECT * FROM emails WHERE 1=1;";
  }

  /** A single condition needs no connector: its clause is the whole `WHERE` clause. */
  lemma SingleCondition(d: Document, c: Clause)
    requires |GetOr(d.rules, [])| == 1 && CompileCondition(GetOr(d.rules, [])[0]) == Ok(c)
    ensures Compile(d) == Ok(SqlQuery("SELECT * FROM emails WHERE " + c.sql + ";", [c.param]))
  {
    var rules := GetOr(d.rules, []);
    var r := CompileAll(rules);
    assert CompileCondition(rules[0]).Ok?;
    assert r.Ok? && |r.value| == 1 && r.value[0] == c;
    assert r.value == [c];
    assert Sqls([c]) == [c.sql];
    assert Params([c]) == [c.param];
  }

  /** Two conditions are joined by the connector, their parameters kept in declared order. */
  lemma TwoConditions(d: Document, r1: RawRule, r2: RawRule, c1: Clause, c2: Clause)
    requires GetOr(d.rules, []) == [r1, r2]
    requires CompileCondition(r1) == Ok(c1) && CompileCondition(r2) == Ok(c2)
    ensures Compile(d) ==
      Ok(SqlQuery("SELECT * FROM emails WHERE " + c1.sql + Connector(d.rulesPredicate) + c2.sql + ";", [c1.param, c2.param]))
  {
    CompileAllTwo(r1, r2, c1, c2);
    TwoClausesText(d, c1, c2);
  }

  lemma TwoClausesText(d: Document, c1: Clause, c2: Clause)
    requires CompileAll(GetOr(d.rules, [])) == Ok([c1, c2])
    ensures Compile(d) ==
      Ok(SqlQuery("SELECT * FROM emails WHERE " + c1.sql + Connector(d.rulesPredicate) + c2.sql + ";", [c1.param, c2.param]))
  {
    var conn := Connector(d.rulesPredicate);
    assert Sqls([c1, c2]) == [c1.sql, c2.sql];
    assert Params([c1, c2]) == [c1.param, c2.param];
    JoinTwo(conn, c1.sql, c2.sql);
    CompiledText(d, [c1, c2]);
    RegroupJoined("SELECT * FROM emails WHERE ", c1.sql, conn, c2.sql, ";");
  }

  lemma RegroupJoined(pre: string, a: string, sep: string, b: string, post: string)
    ensures pre + (a + sep + b) + post == pre + a + sep + b + post
  {
  }

  lemma CompileAllOne(r1: RawRule, c1: Clause)
    requires CompileCondition(r1) == Ok(c1)
    ensures CompileAll([r1]) == Ok([c1])
  {
    assert [r1][..0] == [];
    assert CompileAll([]) == Ok([]);
    assert [r1][|[r1]| - 1] == r1;
    var none: seq<Clause> := [];
    assert none + [c1] == [c1];
  }

  lemma CompileAllTwo(r1: RawRule, r2: RawRule, c1: Clause, c2: Clause)
    requires CompileCondition(r1) == Ok(c1) && CompileCondition(r2) == Ok(c2)
    ensures CompileAll([r1, r2]) == Ok([c1, c2])
  {
    CompileAllOne(r1, c1);
    var rs := [r1, r2];
    assert rs[..1] == [r1];
    assert rs[|rs| - 1] == r2;
    assert [c1] + [c2] == [c1, c2];
  }

  lemma JoinTwo(sep: string, a: string, b: string)
    ensures WhereClause(sep, [a, b]) == a + sep + b
  {
    assert [a, b][1..] == [b];
  }

  /** The query text of compiled clauses. */
  lemma CompiledText(d: Document, clauses: seq<Clause>)
    requires CompileAll(GetOr(d.rules, [])) == Ok(clauses)
    ensures Compile(d) == Ok(SqlQuery("SELECT * FROM emails WHERE " + WhereClause(Connector(d.rulesPredicate), Sqls(clauses)) + ";",
                                      Params(clauses)))
  {
  }

  /** One parameter per condition, in declared order. */
  lemma ParamsInDeclaredOrder(d: Document)
    requires Compile(d).Ok?
    ensures |Compile(d).value.params| == |GetOr(d.rules, [])|
    ensures forall i :: 0 <= i < |GetOr(d.rules, [])| ==>
      CompileCondition(GetOr(d.rules, [])[i]).Ok? &&
      Compile(d).value.params[i] == CompileCondition(GetOr(d.rules, [])[i]).value.param
  {
  }

  /** Injection safety: the query text does not depend on the condition values, so two
      documents that differ only in their values compile to the same text. */
  lemma ValuesOnlyInParams(d1: Document, d2: Document)
    requires d1.rulesPredicate == d2.rulesPredicate
    requires |GetOr(d1.rules, [])| == |GetOr(d2.rules, [])|
    requires forall i :: 0 <= i < |GetOr(d1.rules, [])| ==>
      GetOr(d1.rules, [])[i].field == GetOr(d2.rules, [])[i].field &&
      GetOr(d1.rules, [])[i].pred == GetOr(d2.rules, [])[i].pred
    requires Compile(d1).Ok? && Compile(d2).Ok?
    ensures Compile(d1).value.text == Compile(d2).value.text
  {
    var rs1, rs2 := GetOr(d1.rules, []), GetOr(d2.rules, []);
    var cs1, cs2 := CompileAll(rs1).value, CompileAll(rs2).value;
    forall i | 0 <= i < |rs1| ensures cs1[i].sql == cs2[i].sql {
      SqlOfShape(rs1[i], rs2[i]);
    }
    assert Sqls(cs1) == Sqls(cs2);
    var connector := Connector(d1.rulesPredicate);
    assert Compile(d1).value.text == "SELECT * FROM emails WHERE " + WhereClause(connector, Sqls(cs1)) + ";";
    assert Compile(d2).value.text == "SELECT * FROM emails WHERE " + WhereClause(connector, Sqls(cs2)) + ";";
  }

  /** A clause's text depends on the field and the predicate alone. */
  lemma SqlOfShape(r1: RawRule, r2: RawRule)
    requires r1.field == r2.field && r1.pred == r2.pred
    requires CompileCondition(r1).Ok? && CompileCondition(r2).Ok?
    ensures CompileCondition(r1).value.sql == CompileCondition(r2).value.sql
  {
  }

  /** The combinator's absence means `"all"`, and its case does not matter. */
  lemma CombinatorDefaultAndCase(d: Document, c: string)
    ensures Compile(d.(rulesPredicate := None)) == Compile(d.(rulesPredicate := Some("all")))
    ensures Compile(d.(rulesPredicate := Some(c))) == Compile(d.(rulesPredicate := Some(Lower(c))))
  {
    LowerIdempotent(c);
  }
}
