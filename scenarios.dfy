/** Worked examples: the cases the repository's tests exercise, stated on the model. */
module Scenarios {
  import opened Wrappers
  import opened Strings
  import opened RuleSet
  import Validator
  import RulesToSql
  import Engine

  const InvoiceRule := RawRule(Some("Subject"), Some("contains"), Some("invoice"))
  const InvoiceDoc := Document(Some("all"), Some([InvoiceRule]), Some(["mark_as_read"]))
  const InvoiceQuery := RulesToSql.SqlQuery("SELECT * FROM emails WHERE subject LIKE ?;", ["%invoice%"])

  lemma LowerSubject() ensures Lower("Subject") == "subject" { }
  lemma LowerReceivedAt() ensures Lower("Received_At") == "received_at" && Lower("received_at") == "received_at" { }

  /** A contains rule on any spelling of `subject` compiles, whatever the combinator, to one
      `LIKE` with the value between two wildcards as its only parameter. */
  lemma ContainsCompiles(d: Document, f: string, v: string)
    requires d.rules == Some([RawRule(Some(f), Some("contains"), Some(v))]) && Lower(f) == "subject"
    ensures RulesToSql.Compile(d) ==
      Ok(RulesToSql.SqlQuery("SELECT * FROM emails WHERE subject LIKE ?;", ["%" + v + "%"]))
  {
    var clause := RulesToSql.Clause("subject LIKE ?", "%" + v + "%");
    ContainsClause(f, v);
    RulesToSql.SingleCondition(d, clause);
    assert "SELECT * FROM emails WHERE " + "subject LIKE ?" + ";" == "SELECT * FROM emails WHERE subject LIKE ?;";
  }

  lemma ContainsClause(f: string, v: string)
    requires Lower(f) == "subject"
    ensures RulesToSql.CompileCondition(RawRule(Some(f), Some("contains"), Some(v))) ==
      Ok(RulesToSql.Clause("subject LIKE ?", "%" + v + "%"))
  {
    Engine.VocabularyIsLowerCase("contains");
    RulesToSql.StringConditions(f, "contains", v);
    assert "subject" + " LIKE ?" == "subject LIKE ?";
  }

  /** The invoice rule set of the repository's tests compiles to its expected query. */
  lemma InvoiceCompiles()
    ensures RulesToSql.Compile(InvoiceDoc) == Ok(InvoiceQuery)
  {
    LowerSubject();
    ContainsCompiles(InvoiceDoc, "Subject", "invoice");
    assert "%" + "invoice" + "%" == "%invoice%";
  }

  /** Under `any`, a contains rule on `subject` and an equals rule on `sender` are joined
      by `OR`, binding `%v1%` and then `v2`. */
  lemma AnyOfTwoCompiles(d: Document, f1: string, v1: string, f2: string, v2: string)
    requires d.rulesPredicate == Some("any")
    requires d.rules == Some([RawRule(Some(f1), Some("contains"), Some(v1)), RawRule(Some(f2), Some("equals"), Some(v2))])
    requires Lower(f1) == "subject" && Lower(f2) == "sender"
    ensures RulesToSql.Compile(d) ==
      Ok(RulesToSql.SqlQuery("SELECT * FROM emails WHERE subject LIKE ? OR sender = ?;", ["%" + v1 + "%", v2]))
  {
    ContainsClause(f1, v1);
    EqualsClause(f2, v2);
    AnyConnector(d.rulesPredicate);
    RulesToSql.TwoConditions(d, RawRule(Some(f1), Some("contains"), Some(v1)), RawRule(Some(f2), Some("equals"), Some(v2)),
      RulesToSql.Clause("subject LIKE ?", "%" + v1 + "%"), RulesToSql.Clause("sender = ?", v2));
    AnyOfTwoText();
  }

  lemma AnyOfTwoText()
    ensures "SELECT * FROM emails WHERE " + "subject LIKE ?" + " OR " + "sender = ?" + ";" ==
      "SELECT * FROM emails WHERE subject LIKE ? OR sender = ?;"
  {
  }

  lemma EqualsClause(f: string, v: string)
    requires Lower(f) == "sender"
    ensures RulesToSql.CompileCondition(RawRule(Some(f), Some("equals"), Some(v))) == Ok(RulesToSql.Clause("sender = ?", v))
  {
    Engine.VocabularyIsLowerCase("equals");
    RulesToSql.StringConditions(f, "equals", v);
    assert "sender" + " = ?" == "sender = ?";
  }

  lemma AnyConnector(c: Option<string>)
    requires c == Some("any")
    ensures RulesToSql.Connector(c) == " OR "
  {
    Engine.VocabularyIsLowerCase("any");
  }

  /** The two-rule `any` case of the repository's tests. */
  lemma InvoiceOrAccountsCompiles()
    ensures RulesToSql.Compile(Document(Some("any"), Some([InvoiceRule, RawRule(Some("Sender"), Some("equals"), Some("accounts@example.com"))]), None)) ==
      Ok(RulesToSql.SqlQuery("SELECT * FROM emails WHERE subject LIKE ? OR sender = ?;", ["%invoice%", "accounts@example.com"]))
  {
    LowerSubject();
    assert Lower("Sender") == "sender";
    AnyOfTwoCompiles(Document(Some("any"), Some([InvoiceRule, RawRule(Some("Sender"), Some("equals"), Some("accounts@example.com"))]), None),
      "Subject", "invoice", "Sender", "accounts@example.com");
    assert "%" + "invoice" + "%" == "%invoice%";
  }

  /** Two of any unit spelled from "month" is sixty days back: `"2 months"` on
      `greater_than` binds `"-60 days"`. */
  lemma TwoMonthsCompile(f: string, p: string, unit: string)
    requires Lower(f) == "received_at" && Lower(p) == "greater_than"
    requires IsWord(unit) && "month" <= Lower(unit)
    ensures RulesToSql.CompileCondition(RawRule(Some(f), Some(p), Some("2 " + unit))) ==
      Ok(RulesToSql.Clause("received_at <= datetime('now', ?)", "-60 days"))
  {
    TwoUnits(unit);
    GreaterThanClause(f, p, "2 " + unit, 60);
    SixtyDays();
  }

  lemma GreaterThanClause(f: string, p: string, v: string, n: int)
    requires Lower(f) == "received_at" && Lower(p) == "greater_than" && RulesToSql.DayOffset(v) == Ok(n)
    ensures RulesToSql.CompileCondition(RawRule(Some(f), Some(p), Some(v))) ==
      Ok(RulesToSql.Clause("received_at <= datetime('now', ?)", "-" + IntToString(n) + " days"))
  {
    RulesToSql.DateConditions(f, p, v);
    GreaterThanText();
  }

  lemma GreaterThanText()
    ensures "received_at" + " <= datetime('now', ?)" == "received_at <= datetime('now', ?)"
  {
  }

  lemma TwoUnits(unit: string)
    requires IsWord(unit) && "month" <= Lower(unit)
    ensures RulesToSql.DayOffset("2 " + unit) == Ok(60)
  {
    RulesToSql.MonthsAreThirtyDays(2, unit);
    assert IntToString(2) == "2";
    assert IntToString(2) + " " + unit == "2 " + unit;
  }

  lemma SixtyDays()
    ensures "-" + IntToString(60) + " days" == "-60 days"
  {
    assert IntToString(60) == "60";
  }

  /** A date field in any case accepts a date predicate. */
  lemma DateRuleAccepted()
    ensures Validator.ValidateRule(RawRule(Some("Received_At"), Some("less_than"), Some("10 days"))) == Pass
  {
    LowerReceivedAt();
  }

  /** A rule without a value is rejected for its missing keys. */
  lemma MissingValueRejected()
    ensures Validator.ValidateRule(RawRule(Some("Subject"), Some("contains"), None)) ==
      Fail(Validator.MissingRuleKeys(RawRule(Some("Subject"), Some("contains"), None)))
  {
  }

  /** A date predicate on a string field, and a string predicate on the date field, are
      rejected with the lower-cased field name. */
  lemma WrongPredicateRejected()
    ensures Validator.ValidateRule(RawRule(Some("Subject"), Some("less_than"), Some("test"))) ==
      Fail(Validator.InvalidStringPredicate("less_than", "subject"))
    ensures Validator.ValidateRule(RawRule(Some("Received_At"), Some("contains"), Some("test"))) ==
      Fail(Validator.InvalidDatePredicate("contains", "received_at"))
  {
    LowerSubject();
    LowerReceivedAt();
  }

  /** An action name outside the three is rejected. */
  lemma UnknownActionRejected()
    ensures Validator.ValidateAction("delete_message") == Fail(Validator.InvalidAction("delete_message"))
  {
    NoColon("delete_message");
  }

  lemma NoColon(s: string)
    requires s == "delete_message"
    ensures ':' !in s
  {
  }

  /** A move to a folder outside the allowed set is rejected with that folder, once
      trimmed; `INVALID_FOLDER` is one such folder. */
  lemma UnknownFolderRejected(folder: string)
    requires Strip(folder) !in Validator.AllowedFolders
    ensures Validator.ValidateAction("move_message:" + folder) == Fail(Validator.InvalidFolder(Strip(folder)))
  {
    var name := "move_message";
    NameFacts(name);
    assert "move_message:" + folder == name + ":" + folder;
    Validator.ActionWithTarget(name + ":" + folder, name, folder);
  }

  lemma NameFacts(name: string)
    requires name == "move_message"
    ensures ':' !in name && Strip(name) == name
  {
    StripUnpadded(name);
  }

  /** One call per known action, in declared order, each in the form its string asks for. */
  lemma DispatchInOrder(id: string, first: string, second: string, folder: string)
    requires first in Engine.ActionsMap && second in Engine.ActionsMap && folder != ""
    ensures Engine.Plan(id, [first, second + ":" + folder]) ==
      [Engine.Call(Engine.ActionsMap[first], id, None), Engine.Call(Engine.ActionsMap[second], id, Some(folder))]
  {
    Engine.BareNameOneArgument(id, first);
    Engine.KnownNameHasNoColon(second);
    Engine.DispatchAsWritten(id, second, folder);
    TwoActions(id, first, second + ":" + folder);
  }

  lemma TwoActions(id: string, a: string, b: string)
    ensures Engine.Plan(id, [a, b]) == Engine.Plan(id, [a]) + Engine.Plan(id, [b])
  {
    Engine.PlanAppend(id, [a], [b]);
    assert [a] + [b] == [a, b];
  }

  /** An unknown action makes no call. */
  lemma UnknownActionNoCall()
    ensures Engine.Plan("999", ["unknown_action"]) == []
  {
    Engine.PlanOfOne("999", "unknown_action");
  }

  lemma ValidInvoiceDoc()
    ensures Validator.DocumentValid(InvoiceDoc)
  {
    InvoiceRuleValid();
    MarkAsReadValid("mark_as_read");
  }

  lemma InvoiceRuleValid()
    ensures Validator.ValidateRule(InvoiceRule) == Pass
  {
    LowerSubject();
  }

  lemma MarkAsReadValid(a: string)
    requires a == "mark_as_read"
    ensures Validator.ValidateAction(a) == Pass
  {
    assert ':' !in a;
  }

  /** The whole run on the invoice rule set, with one matching email and a backend that
      never raises: one query, then one mark-as-read call. */
  lemma InvoiceRun(store: (string, seq<string>) -> seq<Engine.Email>, fails: Engine.Call -> bool)
    requires store(InvoiceQuery.text, InvoiceQuery.params) == [Engine.Email("1")]
    requires !fails(Engine.Call(Engine.MarkAsRead, "1", None))
    ensures Engine.RunEvents(InvoiceDoc, store, fails) ==
      [Engine.Query(InvoiceQuery.text, InvoiceQuery.params), Engine.Invoke(Engine.Call(Engine.MarkAsRead, "1", None))]
    ensures Engine.RunResult(InvoiceDoc, store, fails) == Engine.Completed
  {
    ValidInvoiceDoc();
    InvoiceCompiles();
    OneEmailPlan();
    Engine.AllSucceedDispatchesEverything(InvoiceDoc, store, fails);
  }

  lemma OneEmailPlan()
    ensures Engine.PlanAll([Engine.Email("1")], ["mark_as_read"]) == [Engine.Call(Engine.MarkAsRead, "1", None)]
  {
    Engine.PlanAllOne(Engine.Email("1"), ["mark_as_read"]);
    Engine.BareNameOneArgument("1", "mark_as_read");
  }

  /** A rule on an unknown field stops the run before the store is queried. */
  lemma UnknownFieldRun(store: (string, seq<string>) -> seq<Engine.Email>, fails: Engine.Call -> bool)
    ensures var doc := Document(Some("all"), Some([RawRule(Some("priority"), Some("equals"), Some("high"))]), Some(["mark_as_read"]));
      Engine.RunResult(doc, store, fails) == Engine.Rejected(Validator.UnknownField("priority"))
      && Engine.RunEvents(doc, store, fails) == []
  {
    var rule := RawRule(Some("priority"), Some("equals"), Some("high"));
    assert Lower("priority") == "priority";
    assert Validator.ValidateRule(rule) == Fail(Validator.UnknownField("priority"));
    assert [rule][1..] == [];
  }
}
