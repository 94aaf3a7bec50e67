# gmail-rules-engine, modelled in Dafny

gmail-rules-engine copies Gmail messages into a local store. It then runs a JSON rule set
against that store. A rule set has three parts:

- a combinator, `rules_predicate`, which is `all` or `any`;
- a list of field/predicate/value conditions;
- a list of action strings such as `mark_as_read` or `move_message:SPAM`.

This project models the core of that pipeline:

- **Validator** (`validator.dfy`): the rule-set validator. It checks the top-level keys,
  the combinator, each rule (field names are compared case-insensitively, predicates must
  be legal for the field's type) and each action string (`name` or `name:folder`, both
  halves trimmed). The first failure is the result.
- **RulesToSql** (`rules_to_sql.dfy`): the compiler from a rule set to one parameterised
  SQL `SELECT`. String predicates become `LIKE`/`NOT LIKE`/`=`/`!=`. Temporal values
  `"<int> <unit>"` become a day offset: 30 days per month, one day for any other unit.
  Conditions are joined by `AND` or `OR`, and an empty rule list becomes `1=1`. Every
  user value is a bound parameter and never part of the query text. The compiler is a
  method with a loop, proved equal to the recursive function `Compile`.
- **Engine** (`engine.dfy`): the execution engine, which validates, compiles, queries the
  store once and dispatches each matched email's actions through the action map.
  - The store and the action backend are a `Services` object. It holds the query
    function, a predicate saying which backend calls raise, and a ghost log of every
    query and call made.
  - `ExecuteActions`, `DispatchAll`, `RunQuery` and `RunRules` are loops and methods
    over that object. Each is proved to produce exactly the log and outcome of a
    recursive function (`Plan`, `PlanAll`, `Attempted`, `RunEvents`, `RunResult`).
  - A raising call ends the whole run, because the source does not catch it.
- **GmailClient** (`gmail_client.dfy`): the label changes `mark_as_read`,
  `mark_as_unread` and `move_message` request, and what they do to a message's label set.
- **GmailUtils** (`gmail_utils.dfy`): `get_header`, where the first header whose name
  matches exactly wins.
- **Fetcher** (`fetcher.dfy`): the fetcher, covering body selection (plain/html, or the
  first `text/plain` part of a multipart message), the read/starred/inbox-type flags
  derived from label ids, and the fetch loop that skips a message whose retrieval raises.
- **Shared modules**: `Strings` holds the parts of Python's `str` the core relies on
  (`lower`, `strip`, `split`, `split(sep, 1)`, `int`, `str`, `join`). `RuleSet` holds the
  rule-set document. `Wrappers` holds `Option`, `Result` and `Outcome`.
- **Scenarios** (`scenarios.dfy`) restates the cases of the repository's test suite on
  the model.

Python exceptions are modelled as `Fail`/`Err` values, or as the `Rejected`,
`CompileFailed` and `ActionFailed` outcomes of a run. A missing JSON key is `None`.

Where the validator and the dispatcher disagree, the model follows the code of each:

- The validator accepts a target on any known action, for example `mark_as_read:INBOX`.
  The dispatcher then calls `mark_as_read(id, "INBOX")`. The real `mark_as_read`
  (gmail/actions/mark_as_read.py:7) takes one argument, so that call raises `TypeError`.
  The model keeps the call and leaves whether it raises to the `fails` predicate.
- The validator accepts a bare `move_message`, which the dispatcher calls with the id
  alone. Both the real `move_message` (gmail/actions/move_message.py:4) and the mock one
  (gmail/actions/mock_actions.py:7) require a folder, so that call raises `TypeError`.
  The lemma `BareActionEndsRun` states the consequence: when that one-argument call
  raises, the run ends at the first matched email.
- The validator trims the name and the folder of an action string, but the dispatcher
  trims neither. `" move_message:SPAM"` is therefore accepted and then silently skipped.
  `"move_message:  SPAM  "` is dispatched with the untrimmed folder. The lemmas
  `PaddedNameValidatedThenSkipped`, `TargetPassedAsWritten` and `PaddingExamples` state
  both gaps.
- The temporal value is parsed before the date predicate is checked. A bad value
  therefore raises even when the predicate is also unknown.

## Model

| member | source | states |
|---|---|---|
| Validator.ValidateRule | rules_engine/validator.py:22-36 | a rule passes iff it has all three keys, its lower-cased field is in the field table and its predicate is legal for that field's type; the missing-keys error is raised iff a key is missing; an unknown field is reported lower-cased; an illegal predicate gets the string-field or date-field error, carrying the predicate as written and the lower-cased field |
| Validator.ValidateAction | rules_engine/validator.py:38-50 | a string without `:` passes iff it is an allowed action name, and otherwise fails with that name |
| Validator.ActionWithTarget | rules_engine/validator.py:40-47 | `name:target` passes iff the trimmed name is an allowed action and the trimmed target an allowed folder; the name is checked first and each error carries the trimmed text |
| Validator.MoveTargets | rules_engine/validator.py:7-9 | a move is accepted exactly for the system folders plus the (empty) custom folders, after trimming |
| Validator.SplitOnceUnique | rules_engine/validator.py:41 | `split(":", 1)` cuts at the first colon: any decomposition with a colon-free left half is the split |
| Validator.CheckAllFirstFailure | rules_engine/validator.py:59-60 | a failing check of a list is the failure of some element all of whose predecessors pass |
| Validator.CheckAllAppend | rules_engine/validator.py:59-62 | checking a concatenation: the first part's failure wins, otherwise the second part decides |
| Validator.ActionsFirstFailure | rules_engine/validator.py:38-50 | the action list passes iff every action passes, and otherwise fails with the first failing action's error |
| Validator.ValidateDocument | rules_engine/validator.py:52-64 | a document passes iff it has all top-level keys, its combinator is `all` or `any`, every rule passes and every action passes |
| Validator.ValidationOrder | rules_engine/validator.py:52-64 | missing keys are reported first, then a bad combinator, then the first failing rule in list order, then the actions |
| Validator.LoadAndValidateRules | rules_engine/validator.py:66-70 | returns the document unchanged iff it is valid, otherwise raises the validation error |
| Validator.LegalPredicateTable | rules_engine/validator.py:29-36 | string fields accept exactly the four string predicates, `received_at` exactly the two date predicates, other fields are unknown |
| Validator.PredicateLegalityByType | rules_engine/validator.py:32-36 | legality depends only on the field's type: two fields of the same type accept the same predicates |
| Validator.FieldNameCaseInsensitive | rules_engine/validator.py:26-30 | two field spellings with the same lower-case form validate alike, whatever the values |
| RulesToSql.DayOffset | db/rules_to_sql.py:40-45 | a temporal value is accepted iff it is two words whose first is an integer; another word count raises the shape error with that count, a non-integer first word raises the number error with that word; a unit starting with "month" (any case) counts 30 days each, any other unit one day |
| RulesToSql.MonthsAreThirtyDays | db/rules_to_sql.py:42-45 | `"N <month unit>"` gives 30·N days, the same as `"30·N days"` |
| RulesToSql.DaysUnit | db/rules_to_sql.py:40-45 | `"N days"` gives N days |
| RulesToSql.OtherUnitsAreDays | db/rules_to_sql.py:42-45 | any unit not starting with "month" counts one day per unit |
| RulesToSql.StringConditions | db/rules_to_sql.py:23-37 | on string fields `contains`/`does_not_contain` bind `%value%` to `LIKE`/`NOT LIKE`, `equals`/`does_not_equal` bind the value to `=`/`!=`, anything else raises with the lower-cased predicate |
| RulesToSql.DateConditions | db/rules_to_sql.py:39-54 | on `received_at` a bad value raises first; `less_than` keeps mail at or after now minus N days, `greater_than` at or before; anything else raises |
| RulesToSql.UnknownFieldCondition | db/rules_to_sql.py:56-57 | a field outside the six names raises with its lower-cased name |
| RulesToSql.CompileCondition | db/rules_to_sql.py:19-57 | a missing field, predicate or value key raises in that order; a compiled clause is on a string field or `received_at` and its text starts with the lower-cased field; a string field binds the value or `%value%`; otherwise the error is that of the string predicate, the temporal value, the date predicate or the unknown field |
| RulesToSql.Compile | db/rules_to_sql.py:59-62 | the rule set compiles iff every rule does; the query has one parameter per rule and starts with `SELECT * FROM emails WHERE ` |
| RulesToSql.TwoConditions | db/rules_to_sql.py:59-62 | two compiled conditions are joined by the combinator's connector, with their two parameters in order |
| RulesToSql.CompileAll | db/rules_to_sql.py:18-57 | the condition list compiles iff each condition does, to one clause per condition in order |
| RulesToSql.CompileAllPrefixError | db/rules_to_sql.py:18-57 | once a prefix of the conditions raises, the whole list raises that error |
| RulesToSql.CompileAllFirstError | db/rules_to_sql.py:18-57 | the error of a failing list is that of its first failing condition |
| RulesToSql.Connector | db/rules_to_sql.py:59 | the connector is ` AND ` exactly when the lower-cased combinator (default `all`) is `all`, and ` OR ` otherwise |
| RulesToSql.RulesToSqlQuery | db/rules_to_sql.py:4-63 | the looping compiler returns exactly the query or error of `Compile` |
| RulesToSql.NoConditionsMatchAll | db/rules_to_sql.py:59-62 | an empty rule list compiles to `WHERE 1=1` with no parameters |
| RulesToSql.SingleCondition | db/rules_to_sql.py:59-62 | one condition compiles to `SELECT * FROM emails WHERE <clause>;` with its one parameter |
| RulesToSql.ParamsInDeclaredOrder | db/rules_to_sql.py:18-62 | a compiled query has one parameter per rule, the i-th being the i-th rule's bound value |
| RulesToSql.SqlOfShape | db/rules_to_sql.py:23-54 | a condition's SQL text depends only on its field and predicate, not its value |
| RulesToSql.ValuesOnlyInParams | db/rules_to_sql.py:18-62 | two rule sets that differ only in their values compile to the same query text |
| RulesToSql.CombinatorDefaultAndCase | db/rules_to_sql.py:12 | a missing combinator compiles like `all`, and the combinator's case does not matter |
| Engine.ParseActionString | rules_engine/engine.py:29-32 | with a colon, the string is name, `:`, folder with no colon in the name; without one, the whole string is the name and there is no folder |
| Engine.CallFor | rules_engine/engine.py:34-41 | a call is made iff the name is a key of the action map; it carries the email's id and passes the folder iff it is present and non-empty |
| Engine.Services.ExecuteQuery | rules_engine/engine.py:43-52 | returns the store's rows for the query and logs the query |
| Engine.Services.Perform | rules_engine/engine.py:38-41 | logs the call and reports whether it raised |
| Engine.ExecuteActions | rules_engine/engine.py:26-41 | the loop makes the planned calls in order up to and including the first that raises, and reports that call |
| Engine.DispatchStep | rules_engine/engine.py:38-41 | one step of the action loop: the call extends the plan and the log; if it raises it is the first failure and ends the loop |
| Engine.DispatchAll | rules_engine/engine.py:62-63 | over the matched emails in store order, the calls made are every email's plan up to the first raising call, which is reported |
| Engine.DispatchAllStep | rules_engine/engine.py:62-63 | one email of the loop: without a failure the plan and log grow by that email's calls; with one it is the run's first failure |
| Engine.RunQuery | rules_engine/engine.py:61-63 | one query of the store, then the dispatch, with exactly the log `QueryEvents` and the outcome `QueryResult` |
| Engine.RunRules | rules_engine/engine.py:54-63 | validate, compile, query and dispatch, with exactly the log `RunEvents` and the outcome `RunResult` |
| Engine.ValidationFailureIssuesNothing | rules_engine/engine.py:58 | an invalid rule set makes no query and no call and is rejected with the validation error |
| Engine.CompileFailureIssuesNothing | rules_engine/engine.py:60 | a compile error makes no query and no call |
| Engine.QueryComesFirst | rules_engine/engine.py:60-63 | a run that compiles queries the store exactly once, first; every later event is a backend call |
| Engine.NoMatchesNoDispatch | rules_engine/engine.py:61-63 | no matched email means no backend call and a completed run |
| Engine.AllSucceedDispatchesEverything | rules_engine/engine.py:61-63 | when no call raises, the run completes after every planned call: one per known action per matched email |
| Engine.FailureEndsRun | rules_engine/engine.py:61-63 | a raising call is the last event of the run and is its outcome |
| Engine.QueryFailureEnds | rules_engine/engine.py:61-63 | the same for one compiled query |
| Engine.FirstFailureIsLastAttempted | rules_engine/engine.py:38-41 | the first raising call is the last call attempted |
| Engine.AttemptedNoneFail | rules_engine/engine.py:38-41 | when no call raises, every planned call is made and no failure is reported |
| Engine.AttemptedAppend | rules_engine/engine.py:38-41 | a run of calls that all succeed is made in full before the rest is attempted |
| Engine.AttemptedPrefixFails | rules_engine/engine.py:38-41 | once a call raises, nothing after it is attempted |
| Engine.AttemptedStops | rules_engine/engine.py:38-41 | a raising call after succeeding ones is the last call made |
| Engine.PlanAppend | rules_engine/engine.py:28-41 | dispatching a concatenation of action lists is dispatching each in turn |
| Engine.PlanCount | rules_engine/engine.py:34-41 | an email gets one call per action string whose name is known |
| Engine.PlanCarriesId | rules_engine/engine.py:38-41 | every call made for an email carries that email's id |
| Engine.PlanAllOne | rules_engine/engine.py:62-63 | one matched email gets the calls of its own dispatch |
| Engine.PlanAllSplitAt | rules_engine/engine.py:62-63 | the calls for the matched emails split at any email into those before and those after |
| Engine.PlanAllCount | rules_engine/engine.py:62-63 | the matched emails get the number of emails times the number of known actions calls |
| Engine.UnknownActionSkipped | rules_engine/engine.py:34-36 | an action with an unknown name makes no call and does not stop the ones after it |
| Engine.ActionTablesAgree | rules_engine/engine.py:20-24 | the validator's action names are exactly the keys of the action map |
| Engine.ParseNameTarget | rules_engine/engine.py:29-30 | `name:target` with a colon-free name splits into exactly those halves |
| Engine.DispatchAsWritten | rules_engine/engine.py:38-39 | a known name with a non-empty target is called in the two-argument form with that target |
| Engine.BareNameOneArgument | rules_engine/engine.py:40-41 | a bare known name is accepted and called in its one-argument form |
| Engine.BareActionEndsRun | rules_engine/engine.py:40-41 | when that one-argument call raises (as a bare `move_message` does), a rule set with only that action logs the query and that one call, and ends with it |
| Engine.TargetPassedAsWritten | rules_engine/engine.py:28-41 | a target whose trimmed form is an allowed folder is accepted on every known action and passed untrimmed |
| Engine.PaddedNameValidatedThenSkipped | rules_engine/engine.py:34-36 | a name that is accepted only once trimmed is not a map key, so it is validated and then silently skipped |
| Engine.PaddingExamples | rules_engine/engine.py:34-39 | `" move_message"` trims to an accepted name that is not a map key; `"  SPAM  "` trims to `SPAM` |
| Engine.VocabularyIsLowerCase | rules_engine/validator.py:3-5 | every legal predicate and combinator is already lower case |
| Engine.ValidRuleCompiles | db/rules_to_sql.py:18-57 | a rule the validator accepts compiles, except a date rule whose value is malformed, which raises the value's error |
| Engine.ValidatedCompiles | rules_engine/engine.py:58-60 | a validated rule set compiles, or raises only for a malformed temporal value |
| Engine.ValidatedConnector | rules_engine/engine.py:58-60 | for a validated rule set the connector is ` AND ` exactly for `all` and ` OR ` exactly for `any` |
| GmailUtils.GetHeader | gmail/utils.py:5-7 | `None` iff no header has exactly that name; otherwise the value of a header with that name |
| GmailUtils.FirstMatchWins | gmail/utils.py:5-7 | the first header with the name gives the value |
| GmailUtils.LaterHeadersIgnored | gmail/utils.py:5-7 | headers after a match are never consulted |
| GmailUtils.NonMatchingSkipped | gmail/utils.py:5-7 | headers before the first match are skipped |
| GmailUtils.CaseSensitive | gmail/utils.py:5-7 | the name comparison is case-sensitive |
| Fetcher.EmailBody | gmail/fetcher.py:13-28 | a plain or html message decodes its own data; another non-multipart type gives the empty body; a multipart message decodes its first `text/plain` part, or gives the empty body when it has none |
| Fetcher.ToEmail | gmail/fetcher.py:42-61 | a message fails to convert iff its body fails to decode; otherwise the record copies the id and snippet, takes subject, sender, recipient and date from the first `Subject`, `From`, `To` and `Date` headers, and derives the flags from the labels |
| Fetcher.DecodeBase64 | gmail/fetcher.py:7-11 | missing or empty data decodes to the empty text; anything else goes to the decoder, whose failure is the failure |
| Fetcher.FirstPlainPart | gmail/fetcher.py:24-27 | the index of the first `text/plain` part, `None` iff there is none |
| Fetcher.FirstPlainPartAt | gmail/fetcher.py:24-27 | a `text/plain` part with none before it is the one chosen |
| Fetcher.GetEmailBody | gmail/fetcher.py:13-28 | the loop over the parts returns `EmailBody` |
| Fetcher.IsRead | gmail/fetcher.py:53 | read iff `UNREAD` is not among the labels |
| Fetcher.IsStarred | gmail/fetcher.py:54 | starred iff `STARRED` is among the labels |
| Fetcher.InboxType | gmail/fetcher.py:55-60 | `INBOX`, else `SENT`, else `SPAM`, else `OTHER`, by label precedence, each in both directions |
| Fetcher.FlagsByMembership | gmail/fetcher.py:53-60 | the flags depend only on which labels are present |
| Fetcher.BareMessage | gmail/fetcher.py:42-61 | a message with only an id becomes a record with no headers, an empty body, read, not starred, `OTHER` |
| Fetcher.FetchInboxEmails | gmail/fetcher.py:30-67 | the loop returns the records of `FetchAll`; a failed listing returns nothing; never more records than listed messages |
| Fetcher.FetchedStep | gmail/fetcher.py:39-64 | one message at a time: its record is appended, or nothing when its retrieval or decoding raises |
| Fetcher.FetchedLength | gmail/fetcher.py:39-64 | at most one record per listed message |
| Fetcher.FetchedAppend | gmail/fetcher.py:39-64 | fetching a concatenation of listings is fetching each in turn |
| Fetcher.FailedMessageSkipped | gmail/fetcher.py:62-64 | a message whose retrieval raises is skipped without affecting the others |
| Fetcher.AllFetchedInOrder | gmail/fetcher.py:39-61 | when every retrieval succeeds there is one record per message, in listing order |
| GmailClient.MarkAsRead | gmail/client.py:4-12 | the request is for user `me` and the given id, adds nothing and removes exactly `UNREAD` |
| GmailClient.MarkAsUnread | gmail/client.py:14-22 | the request is for user `me` and the given id, adds exactly `UNREAD` and removes nothing |
| GmailClient.MoveMessage | gmail/client.py:24-41 | the request is for user `me` and the given id, adds exactly the folder and removes `INBOX` unless the folder is `INBOX` |
| GmailClient.MarkAsReadEffect | gmail/client.py:4-12 | the request removes exactly `UNREAD`, and applying it removes `UNREAD` and nothing else |
| GmailClient.MarkAsUnreadEffect | gmail/client.py:14-22 | the request adds exactly `UNREAD`, and applying it adds `UNREAD` and nothing else |
| GmailClient.MoveMessageEffect | gmail/client.py:24-41 | a move adds the folder and removes `INBOX` unless the folder is `INBOX`; afterwards the message is in the folder, in `INBOX` only if that is the folder, and other labels are unchanged |
| GmailClient.ReadFlagFollowsRequest | gmail/client.py:4-22 | after mark-as-read the fetched record is read, after mark-as-unread it is unread; the starred flag is kept |
| GmailClient.InboxTypeAfterMove | gmail/client.py:29-32 | after a move the inbox type is `INBOX` iff the folder is; a move to `SPAM` gives `SPAM` unless the message is `SENT` |
| Strings.Strip | rules_engine/validator.py:42-43 | `strip()` removes only whitespace from either end and leaves no whitespace at either end |
| Strings.StripPadding | rules_engine/validator.py:42-43 | those two properties determine the result of `strip()` |
| Strings.SplitOnce | rules_engine/validator.py:41 | `split(sep, 1)` returns the text before the first separator and the text after it |
| Strings.Lower | rules_engine/validator.py:26 | `lower()` keeps the length and lower-cases each character |
| Strings.LowerChar | rules_engine/validator.py:26 | an upper-case ASCII letter maps to the lower-case letter at the same offset; every other character is unchanged |
| Strings.Words | db/rules_to_sql.py:40 | `split()` yields non-empty words free of whitespace |
| Strings.WordsOfJoin | db/rules_to_sql.py:40 | `split()` of words joined by single spaces gives back exactly those words, in order |
| Strings.Join | db/rules_to_sql.py:60 | `sep.join(parts)`: empty for no parts, the part itself for one, and otherwise the join of all but the last, `sep`, then the last |
| Strings.ParseInt | db/rules_to_sql.py:41 | `int()` accepts exactly an optional sign followed by ASCII digits with single underscores between digits; the value is the digits' value, negated after `-` |
| Strings.IntToString | db/rules_to_sql.py:49-52 | `str(n)`: a minus sign exactly when `n` is negative, then the decimal digits of its magnitude with no leading zero |
| Strings.ParseIntToString | db/rules_to_sql.py:40-41 | `int(str(n)) == n` |
| Scenarios.InvoiceCompiles | db/rules_to_sql.py:24-26 | the invoice rule set compiles to `subject LIKE ?` with `%invoice%` |
| Scenarios.ContainsCompiles | db/rules_to_sql.py:24-26 | a contains rule on any spelling of `subject` compiles to one `LIKE` with the wildcarded value |
| Scenarios.TwoMonthsCompile | db/rules_to_sql.py:42-52 | `"2 months"` on `greater_than` binds `"-60 days"` |
| Scenarios.GreaterThanClause | db/rules_to_sql.py:50-52 | `greater_than` on `received_at` gives `received_at <= datetime('now', ?)` with `-N days` |
| Scenarios.AnyOfTwoCompiles | db/rules_to_sql.py:24-32 | an `any` rule set of a subject `contains` and a sender `equals` compiles to `subject LIKE ? OR sender = ?` with `%v1%` and `v2` |
| Scenarios.InvoiceOrAccountsCompiles | tests/db/test_rules_to_sql.py:42-53 | the repository's two-rule `any` case compiles to that query with `%invoice%` and `accounts@example.com` |
| Scenarios.DateRuleAccepted | rules_engine/validator.py:26-36 | `Received_At`/`less_than` is accepted |
| Scenarios.MissingValueRejected | rules_engine/validator.py:23-24 | a rule without a value is rejected for missing keys |
| Scenarios.WrongPredicateRejected | rules_engine/validator.py:33-36 | a date predicate on a string field, and a string predicate on the date field, are rejected |
| Scenarios.UnknownActionRejected | rules_engine/validator.py:48-50 | `delete_message` is rejected as an invalid action |
| Scenarios.UnknownFolderRejected | rules_engine/validator.py:46-47 | a move to a folder outside the allowed set is rejected with the trimmed folder |
| Scenarios.ValidInvoiceDoc | rules_engine/validator.py:52-64 | the invoice rule set is valid |
| Scenarios.DispatchInOrder | rules_engine/engine.py:28-41 | two known actions give two calls, in declared order, each in the form its string asks for |
| Scenarios.UnknownActionNoCall | rules_engine/engine.py:34-36 | an unknown action makes no call |
| Scenarios.InvoiceRun | rules_engine/engine.py:54-63 | the invoice run on one matching email is one query and then one mark-as-read call, and it completes |
| Scenarios.UnknownFieldRun | rules_engine/engine.py:58 | a rule on an unknown field stops the run before the store is queried |

## Left out

- The sqlite database and `execute_query`: the store is an abstract function from query
  text and parameters to rows. SQL evaluation (what `LIKE` or `datetime('now', ?)`
  matches) is not modelled.
- Gmail authentication, the network, and the `execute()` of each API request: the client
  model builds the modify request and gives it a label-set semantics. The message listing
  and the retrieval of one message are parameters that may fail. `fetch_emails` and
  `get_gmail_service` are not part of this model.
- Reading and JSON-parsing the rule file (`open`, `json.load`): the model starts from the
  parsed document. A file that is missing or not JSON is not modelled.
- Mock actions and the `USE_MOCK_ACTIONS` switch: the action map is the real one, and the
  callee's behaviour is the `fails` predicate. The callees in gmail/actions are not part of
  this model, so their signatures are not checked: the calls that raise `TypeError`
  (bare `move_message`, a target on `mark_as_read` or `mark_as_unread`) are among those
  `fails` may choose.
- The store and the backend are pure functions: the store cannot raise, and the same call
  always raises or always succeeds, so transient backend errors are not modelled.
- Logging; the error message texts (errors are datatype values carrying the same data);
  `max_results` and `user_id`, which are only forwarded to the API.
- Base64/UTF-8 decoding: `Fetcher.DecodeBase64` delegates to an abstract decoder that may
  fail.
- Date parsing of fetched records (`parse_received_at`) and storage of records are not
  part of this model.
- Strings.Lower: lower-cases ASCII letters only. Python's Unicode `lower()` differs only
  on non-ASCII letters, and the only non-ASCII character whose `lower()` is an ASCII string
  is KELVIN SIGN (to `k`). No field, predicate or combinator word contains a `k`, so
  acceptance and rejection agree with Python on every input. Only the lower-cased text
  inside an error can differ.
- Strings.ParseInt: accepts ASCII digits with an optional sign and single underscores;
  the non-ASCII decimal digits Python's `int()` also accepts are left out. Python's
  `int()` also raises for a text of more than 4300 digits, and `str()` of such a day count
  raises (db/rules_to_sql.py:41,49,52); the model's integers have no length limit.
- Rule and action values that are not strings: the model types every field, predicate,
  value and action as a string. In the source a non-string `value` on a string field is
  validated and then bound as it is, or formatted into `%value%`; a number, boolean or null
  predicate is rejected as an illegal predicate, and a list or object predicate raises
  `TypeError` on the set lookup (rules_engine/validator.py:33,35); a non-string field, or
  a non-string predicate reaching the compiler, raises `AttributeError` on `lower()`.
- A `"value": null` key is present to the validator. The compiler then binds `None` for
  `equals`/`does_not_equal`, formats `%None%` for the two contains predicates, and raises
  `AttributeError` on `received_at`. The model reads a null value as a missing key.
- A header object that lacks `value` raises `KeyError` in `get_header` when it is the first
  with a matching name, and one that lacks `name` raises when it comes before the first
  match; the model's headers always have both.
- A listed message without an `id`: the `KeyError` re-raised inside the fetch loop's
  exception handler escapes `fetch_inbox_emails`; the model's listing is a sequence of
  ids.
- A store row without an `id` column raises in `execute_actions` as soon as one of its
  actions has a known name; the model's rows always carry an id.
- Gmail's server-side effects beyond adding and removing labels (which labels the server
  lets coexist) are not modelled.
