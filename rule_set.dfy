/** The rule-set document that the validator checks, the compiler translates and
    the engine runs, read from JSON.  A key that the JSON object lacks is `None`. */
module RuleSet {
  import opened Wrappers

  /** One condition, `{"field": ..., "predicate": ..., "value": ...}`; `pred` is the "predicate" key. */
  datatype RawRule = RawRule(field: Option<string>, pred: Option<string>, value: Option<string>)

  /** The whole document, `{"rules_predicate": ..., "rules": [...], "actions": [...]}`. */
  datatype Document = Document(
    rulesPredicate: Option<string>,
    rules: Option<seq<RawRule>>,
    actions: Option<seq<string>>)
}
