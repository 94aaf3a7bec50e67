/** The rule validator: closed-vocabulary checks of a rule-set document, in a fixed
    order, the first failure being the error raised. */
module Validator {
  import opened Wrappers
  import opened Strings
  import opened RuleSet

  const RulesPredicateValues: set<string> := {"all", "any"}
  const StringFieldPredicates: set<string> := {"contains", "does_not_contain", "equals", "does_not_equal"}
  const DateFieldPredicates: set<string> := {"less_than", "greater_than"}
  const AllowedActions: set<string> := {"mark_as_read", "mark_as_unread", "move_message"}
  const SystemAllowedFolders: set<string> := {"INBOX", "SPAM", "TRASH", "IMPORTANT", "DRAFT", "STARRED"}
  /** Empty in the source (written `{}`, an empty dict, whose union adds no names). */
  const CustomAllowedFolders: set<string> := {}
  const AllowedFolders: set<string> := SystemAllowedFolders + CustomAllowedFolders

  datatype FieldType = StringType | DateType

  /** The closed field table, keyed by lower-case field name. */
  const FieldTypes: map<string, FieldType> := map[
    "sender" := StringType,
    "recipient" := StringType,
    "subject" := StringType,
    "body" := StringType,
    "snippet" := StringType,
    "received_at" := DateType]

  /** The `RuleValidationError`s, each carrying what its message interpolates. */
  datatype ValidationError =
    | MissingRuleKeys(rule: RawRule)
    | UnknownField(field: string)
    | InvalidStringPredicate(pred: string, field: string)
    | InvalidDatePredicate(pred: string, field: string)
    | InvalidAction(action: string)
    | InvalidFolder(folder: string)
    | MissingTopLevelKeys
    | InvalidRulesPredicate(rulesPredicate: string)

  /** The predicates legal on a field of type `t`. */
  function LegalPredicates(t: FieldType): set<string> {
    match t
    case StringType => StringFieldPredicates
    case DateType => DateFieldPredicates
  }

  predicate HasAllKeys(rule: RawRule) {
    rule.field.Some? && rule.pred.Some? && rule.value.Some?
  }

  /** `validate_rule`. */
  function ValidateRule(rule: RawRule): (o: Outcome<ValidationError>)
    ensures o == Pass <==>
      && HasAllKeys(rule)
      && Lower(rule.field.value) in FieldTypes
      && rule.pred.value in LegalPredicates(FieldTypes[Lower(rule.field.value)])
    ensures o == Fail(MissingRuleKeys(rule)) <==> !HasAllKeys(rule)
    ensures HasAllKeys(rule) && Lower(rule.field.value) !in FieldTypes ==>
      o == Fail(UnknownField(Lower(rule.field.value)))
    ensures HasAllKeys(rule) && Lower(rule.field.value) in FieldTypes
            && rule.pred.value !in LegalPredicates(FieldTypes[Lower(rule.field.value)]) ==>
      o == Fail(if FieldTypes[Lower(rule.field.value)] == StringType
                then InvalidStringPredicate(rule.pred.value, Lower(rule.field.value))
                else InvalidDatePredicate(rule.pred.value, Lower(rule.field.value)))
  {
    if rule.field.None? || rule.pred.None? || rule.value.None? then
      Fail(MissingRuleKeys(rule))
    else
      var field := Lower(rule.field.value);
      var pred := rule.pred.value;
      if field !in FieldTypes then
        Fail(UnknownField(field))
      else if FieldTypes[field] == StringType && pred !in StringFieldPredicates then
        Fail(InvalidStringPredicate(pred, field))
      else if FieldTypes[field] == DateType && pred !in DateFieldPredicates then
        Fail(InvalidDatePredicate(pred, field))
      else
        Pass
  }

  /** The check of one action string inside `validate_actions`. */
  function ValidateAction(action: string): (o: Outcome<ValidationError>)
    ensures ':' !in action ==> (o == Pass <==> action in AllowedActions)
    ensures ':' !in action && o.Fail? ==> o == Fail(InvalidAction(action))
  {
    if ':' in action then
      var (left, right) := SplitOnce(action, ':');
      var name := Strip(left);
      var folder := Strip(right);
      if name !in AllowedActions then Fail(InvalidAction(name))
      else if folder !in AllowedFolders then Fail(InvalidFolder(folder))
      else Pass
    else if action !in AllowedActions then
      Fail(InvalidAction(action))
    else
      Pass
  }

  /** Runs `check` on each element in order and raises the first failure. */
  function CheckAll<T, E>(xs: seq<T>, check: T -> Outcome<E>): (o: Outcome<E>)
    ensures o == Pass <==> AllPass(xs, check)
  {
    if xs == [] then Pass
    else match check(xs[0])
      case Fail(e) => Fail(e)
      case Pass => CheckAll(xs[1..], check)
  }

  /** A failure of `CheckAll` is the failure of some element all of whose predecessors pass. */
  lemma {:induction false} CheckAllFirstFailure<T, E>(xs: seq<T>, check: T -> Outcome<E>)
    requires CheckAll(xs, check).Fail?
    ensures exists i :: 0 <= i < |xs| && check(xs[i]) == CheckAll(xs, check) && AllPass(xs[..i], check)
  {
    if check(xs[0]).Fail? {
      assert AllPass(xs[..0], check);
    } else {
      CheckAllFirstFailure(xs[1..], check);
      var i :| 0 <= i < |xs| - 1 && check(xs[1..][i]) == CheckAll(xs[1..], check) && AllPass(xs[1..][..i], check);
      assert xs[..i + 1] == [xs[0]] + xs[1..][..i];
      assert check(xs[i + 1]) == CheckAll(xs, check) && AllPass(xs[..i + 1], check);
    }
  }

  /** Checking a concatenation: the first part's failure wins, otherwise the second part decides. */
  lemma {:induction false} CheckAllAppend<T, E>(xs: seq<T>, ys: seq<T>, check: T -> Outcome<E>)
    ensures CheckAll(xs + ys, check) == if CheckAll(xs, check).Fail? then CheckAll(xs, check) else CheckAll(ys, check)
  {
    if xs == [] {
      assert xs + ys == ys;
    } else {
      assert (xs + ys)[0] == xs[0];
      assert (xs + ys)[1..] == xs[1..] + ys;
      CheckAllAppend(xs[1..], ys, check);
    }
  }

  predicate AllPass<T, E>(xs: seq<T>, check: T -> Outcome<E>) {
    forall i :: 0 <= i < |xs| ==> check(xs[i]) == Pass
  }

  /** The rule loop of `validate_rules_json`. */
  function ValidateRules(rules: seq<RawRule>): Outcome<ValidationError> {
    CheckAll(rules, ValidateRule)
  }

  /** `validate_actions`. */
  function ValidateActions(actions: seq<string>): Outcome<ValidationError> {
    CheckAll(actions, ValidateAction)
  }

  /** What an accepted document satisfies. */
  predicate DocumentValid(d: Document) {
    && d.rulesPredicate.Some? && d.rules.Some? && d.actions.Some?
    && d.rulesPredicate.value in RulesPredicateValues
    && (forall i :: 0 <= i < |d.rules.value| ==> ValidateRule(d.rules.value[i]) == Pass)
    && (forall i :: 0 <= i < |d.actions.value| ==> ValidateAction(d.actions.value[i]) == Pass)
  }

  /** `validate_rules_json`; `Pass` stands for its `return True`. */
  function ValidateDocument(d: Document): (o: Outcome<ValidationError>)
    ensures o == Pass <==> DocumentValid(d)
  {
    if d.rulesPredicate.None? || d.rules.None? || d.actions.None? then
      Fail(MissingTopLevelKeys)
    else if d.rulesPredicate.value !in RulesPredicateValues then
      Fail(InvalidRulesPredicate(d.rulesPredicate.value))
    else match ValidateRules(d.rules.value)
      case Fail(e) => Fail(e)
      case Pass => ValidateActions(d.actions.value)
  }

  /** `load_and_validate_rules` once the JSON is parsed: the same document back, or the error. */
  function LoadAndValidateRules(d: Document): (r: Result<Document, ValidationError>)
    ensures r == Ok(d) <==> DocumentValid(d)
    ensures r.Ok? ==> r == Ok(d)
    ensures r.Err? ==> ValidateDocument(d) == Fail(r.error)
  {
    match ValidateDocument(d)
    case Pass => Ok(d)
    case Fail(e) => Err(e)
  }

  // ---------------------------------------------------------------------------
  // Properties of the validator

  /** A string field accepts exactly the four string predicates, the date field exactly
      the two date predicates, whatever the case of the field name. */
  lemma LegalPredicateTable(f: string, p: string, v: string)
    ensures Lower(f) in {"sender", "recipient", "subject", "body", "snippet"} ==>
      (ValidateRule(RawRule(Some(f), Some(p), Some(v))) == Pass <==>
       p in {"contains", "does_not_contain", "equals", "does_not_equal"})
    ensures Lower(f) == "received_at" ==>
      (ValidateRule(RawRule(Some(f), Some(p), Some(v))) == Pass <==> p in {"less_than", "greater_than"})
    ensures Lower(f) !in {"sender", "recipient", "subject", "body", "snippet", "received_at"} ==>
      ValidateRule(RawRule(Some(f), Some(p), Some(v))) == Fail(UnknownField(Lower(f)))
  {
  }

  /** Whether a predicate is legal depends on the field's type only. */
  lemma PredicateLegalityByType(r1: RawRule, r2: RawRule)
    requires HasAllKeys(r1) && HasAllKeys(r2) && r1.pred == r2.pred
    requires Lower(r1.field.value) in FieldTypes && Lower(r2.field.value) in FieldTypes
    requires FieldTypes[Lower(r1.field.value)] == FieldTypes[Lower(r2.field.value)]
    ensures ValidateRule(r1) == Pass <==> ValidateRule(r2) == Pass
  {
  }

  /** Field names that agree once lower-cased are validated alike; the value is never looked at. */
  lemma FieldNameCaseInsensitive(f: string, g: string, p: string, v: string, w: string)
    requires Lower(f) == Lower(g)
    ensures ValidateRule(RawRule(Some(f), Some(p), Some(v))) == ValidateRule(RawRule(Some(g), Some(p), Some(w)))
  {
  }

  /** The first-colon split of `s` is the one decomposition with no separator before it. */
  lemma SplitOnceUnique(s: string, sep: char, a: string, b: string)
    requires s == a + [sep] + b && sep !in a
    ensures SplitOnce(s, sep) == (a, b)
  {
    var (x, y) := SplitOnce(s, sep);
    assert forall k :: 0 <= k < |a| ==> s[k] == a[k];
    assert forall k :: 0 <= k < |x| ==> s[k] == x[k];
    assert s[|a|] == sep && s[|x|] == sep;
    assert |x| == |a|;
    assert x == s[..|x|] == a;
    assert y == s[|x| + 1..] == b;
  }

  /** A `name:target` action: both halves are trimmed, the name is checked before the
      target, and each check has its own error. */
  lemma ActionWithTarget(action: string, name: string, target: string)
    requires action == name + ":" + target && ':' !in name
    ensures ValidateAction(action) == Pass <==> Strip(name) in AllowedActions && Strip(target) in AllowedFolders
    ensures Strip(name) !in AllowedActions ==> ValidateAction(action) == Fail(InvalidAction(Strip(name)))
    ensures Strip(name) in AllowedActions && Strip(target) !in AllowedFolders ==>
      ValidateAction(action) == Fail(InvalidFolder(Strip(target)))
  {
    assert action[|name|] == ':';
    SplitOnceUnique(action, ':', name, target);
  }

  /** The move targets accepted are exactly the system folders together with the custom ones. */
  lemma MoveTargets(target: string)
    ensures ValidateAction("move_message:" + target) == Pass <==>
      Strip(target) in SystemAllowedFolders + CustomAllowedFolders
  {
    var name := "move_message";
    assert "move_message:" + target == name + ":" + target;
    StripUnpadded(name);
    ActionWithTarget("move_message:" + target, name, target);
  }

  /** Every list of actions is accepted exactly when each of its strings is, and otherwise
      fails with the error of the first string that does. */
  lemma ActionsFirstFailure(actions: seq<string>)
    ensures ValidateActions(actions) == Pass <==> forall i :: 0 <= i < |actions| ==> ValidateAction(actions[i]) == Pass
    ensures ValidateActions(actions).Fail? ==>
      exists i :: 0 <= i < |actions| && ValidateAction(actions[i]) == ValidateActions(actions)
                  && forall j :: 0 <= j < i ==> ValidateAction(actions[j]) == Pass
  {
    if ValidateActions(actions).Fail? {
      CheckAllFirstFailure(actions, ValidateAction);
      var i :| 0 <= i < |actions| && ValidateAction(actions[i]) == ValidateActions(actions)
               && AllPass(actions[..i], ValidateAction);
      assert forall j :: 0 <= j < i ==> actions[..i][j] == actions[j];
    }
  }

  /** The order of the document checks: top-level keys, then the combinator, then the
      rules in list order, then the actions; the first failure is the result. */
  lemma ValidationOrder(d: Document)
    ensures (d.rulesPredicate.None? || d.rules.None? || d.actions.None?) ==>
      ValidateDocument(d) == Fail(MissingTopLevelKeys)
    ensures d.rulesPredicate.Some? && d.rules.Some? && d.actions.Some? && d.rulesPredicate.value !in {"all", "any"} ==>
      ValidateDocument(d) == Fail(InvalidRulesPredicate(d.rulesPredicate.value))
    ensures d.rulesPredicate.Some? && d.rules.Some? && d.actions.Some? && d.rulesPredicate.value in {"all", "any"}
            && ValidateRules(d.rules.value).Fail? ==>
      exists i :: 0 <= i < |d.rules.value| && ValidateDocument(d) == ValidateRule(d.rules.value[i])
                  && forall j :: 0 <= j < i ==> ValidateRule(d.rules.value[j]) == Pass
    ensures d.rulesPredicate.Some? && d.rules.Some? && d.actions.Some? && d.rulesPredicate.value in {"all", "any"}
            && ValidateRules(d.rules.value) == Pass ==>
      ValidateDocument(d) == ValidateActions(d.actions.value)
  {
    if d.rulesPredicate.Some? && d.rules.Some? && d.actions.Some? && d.rulesPredicate.value in {"all", "any"} {
      var rules := d.rules.value;
      if ValidateRules(rules).Fail? {
        CheckAllFirstFailure(rules, ValidateRule);
        var i :| 0 <= i < |rules| && ValidateRule(rules[i]) == ValidateRules(rules) && AllPass(rules[..i], ValidateRule);
        assert forall j :: 0 <= j < i ==> rules[..i][j] == rules[j];
      }
    }
  }
}
