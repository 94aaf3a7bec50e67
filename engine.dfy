/** The execution engine: validate, compile, query the store once, then dispatch the
    rule set's actions to the backend for every matched email in store order.  The
    store and the backend are abstract: the store is a function from a query and its
    parameters to rows, the backend a predicate saying which calls raise, and every
    query and call is recorded in a ghost log. */
module Engine {
  import opened Wrappers
  import opened Strings
  import opened RuleSet
  import Validator
  import RulesToSql

  /** The three operations `ACTIONS_MAP` names. */
  datatype ActionKind = MarkAsRead | MarkAsUnread | MoveMessage

  const ActionsMap: map<string, ActionKind> := map[
    "mark_as_read" := MarkAsRead,
    "mark_as_unread" := MarkAsUnread,
    "move_message" := MoveMessage]

  /** One backend call: `action(emailId)`, or `action(emailId, folder)` when `folder` is present. */
  datatype Call = Call(action: ActionKind, emailId: string, folder: Option<string>)

  /** What the engine asks of the outside world. */
  datatype Event = Query(sql: string, params: seq<string>) | Invoke(call: Call)

  /** A row returned by the store; the dispatcher reads only its "id" column. */
  datatype Email = Email(id: string)

  /** The action name and folder of one action string: split at the first `:` with no
      trimming, or the whole string and no folder. */
  function ParseActionString(s: string): (r: (string, Option<string>))
    ensures ':' in s ==> r.1.Some? && s == r.0 + ":" + r.1.value && ':' !in r.0
    ensures ':' !in s ==> r == (s, None)
  {
    if ':' in s then
      var (name, folder) := SplitOnce(s, ':');
      (name, Some(folder))
    else (s, None)
  }

  /** The call one action string makes for email `id`: none when the name is not in the
      map, the two-argument form exactly when the folder part is non-empty. */
  function CallFor(id: string, s: string): (r: Option<Call>)
    ensures r.Some? <==> ParseActionString(s).0 in ActionsMap
    ensures r.Some? ==> r.value.emailId == id && r.value.action == ActionsMap[ParseActionString(s).0]
    ensures r.Some? ==> (r.value.folder.Some? <==> ParseActionString(s).1.Some? && ParseActionString(s).1.value != "")
    ensures r.Some? && r.value.folder.Some? ==> r.value.folder == ParseActionString(s).1
  {
    var (name, folder) := ParseActionString(s);
    if name !in ActionsMap then None
    else Some(Call(ActionsMap[name], id, if folder.Some? && folder.value != "" then folder else None))
  }

  function CallsOf(c: Option<Call>): seq<Call> {
    match c
    case None => []
    case Some(call) => [call]
  }

  /** The calls `execute_actions(email, actions)` makes when none of them raises. */
  function Plan(id: string, actions: seq<string>): seq<Call> {
    if actions == [] then []
    else Plan(id, actions[..|actions| - 1]) + CallsOf(CallFor(id, actions[|actions| - 1]))
  }

  /** Each email's calls, in store order. */
  function Plans(emails: seq<Email>, actions: seq<string>): (ps: seq<seq<Call>>)
    ensures |ps| == |emails|
  {
    seq(|emails|, i requires 0 <= i < |emails| => Plan(emails[i].id, actions))
  }

  function Flatten(xs: seq<seq<Call>>): seq<Call> {
    if xs == [] then [] else Flatten(xs[..|xs| - 1]) + xs[|xs| - 1]
  }

  /** The calls for every email, in store order. */
  function PlanAll(emails: seq<Email>, actions: seq<string>): seq<Call> {
    Flatten(Plans(emails, actions))
  }

  /** The calls actually made from a plan: up to and including the first that raises. */
  function Attempted(plan: seq<Call>, fails: Call -> bool): seq<Call> {
    if plan == [] then []
    else if fails(plan[0]) then [plan[0]]
    else [plan[0]] + Attempted(plan[1..], fails)
  }

  /** The call whose exception ends the run, if any. */
  function FirstFailure(plan: seq<Call>, fails: Call -> bool): Option<Call> {
    if plan == [] then None
    else if fails(plan[0]) then Some(plan[0])
    else FirstFailure(plan[1..], fails)
  }

  predicate NoneFail(plan: seq<Call>, fails: Call -> bool) {
    forall i :: 0 <= i < |plan| ==> !fails(plan[i])
  }

  function Invocations(calls: seq<Call>): (r: seq<Event>)
    ensures |r| == |calls|
  {
    seq(|calls|, i requires 0 <= i < |calls| => Invoke(calls[i]))
  }

  /** How a run ends: a validation error or a compile error raised before any query, a
      backend call that raised, or every action dispatched. */
  datatype RunOutcome =
    | Rejected(validationError: Validator.ValidationError)
    | CompileFailed(compileError: RulesToSql.CompileError)
    | ActionFailed(call: Call)
    | Completed

  /** What running one compiled query asks of the store and the backend: the query, then
      the calls for its rows up to and including the first that raises. */
  function QueryEvents(q: RulesToSql.SqlQuery, actions: seq<string>, store: (string, seq<string>) -> seq<Email>, fails: Call -> bool): seq<Event> {
    [Query(q.text, q.params)] + Invocations(Attempted(PlanAll(store(q.text, q.params), actions), fails))
  }

  /** How running one compiled query ends. */
  function QueryResult(q: RulesToSql.SqlQuery, actions: seq<string>, store: (string, seq<string>) -> seq<Email>, fails: Call -> bool): RunOutcome {
    match FirstFailure(PlanAll(store(q.text, q.params), actions), fails)
    case Some(c) => ActionFailed(c)
    case None => Completed
  }

  /** Everything `run_rules` asks of the store and the backend, in order. */
  function RunEvents(doc: Document, store: (string, seq<string>) -> seq<Email>, fails: Call -> bool): seq<Event> {
    match Validator.ValidateDocument(doc)
    case Fail(_) => []
    case Pass =>
      match RulesToSql.Compile(doc)
      case Err(_) => []
      case Ok(q) => QueryEvents(q, GetOr(doc.actions, []), store, fails)
  }

  /** How `run_rules` ends. */
  function RunResult(doc: Document, store: (string, seq<string>) -> seq<Email>, fails: Call -> bool): RunOutcome {
    match Validator.ValidateDocument(doc)
    case Fail(e) => Rejected(e)
    case Pass =>
      match RulesToSql.Compile(doc)
      case Err(e) => CompileFailed(e)
      case Ok(q) => QueryResult(q, GetOr(doc.actions, []), store, fails)
  }

  /** The record store and the action backend the engine is given. */
  class Services {
    /** The rows a parameterised query returns, in store order. */
    const store: (string, seq<string>) -> seq<Email>
    /** The backend calls that raise (an API error, or a form the callee does not accept). */
    const fails: Call -> bool
    /** Every query and backend call made so far. */
    ghost var log: seq<Event>

    constructor (store: (string, seq<string>) -> seq<Email>, fails: Call -> bool)
      ensures this.store == store && this.fails == fails && log == []
    {
      this.store := store;
      this.fails := fails;
      log := [];
    }

    /** `execute_query`. */
    method ExecuteQuery(sql: string, params: seq<string>) returns (emails: seq<Email>)
      modifies this
      ensures emails == store(sql, params)
      ensures log == old(log) + [Query(sql, params)]
    {
      emails := store(sql, params);
      log := log + [Query(sql, params)];
    }

    /** One call through `ACTIONS_MAP`; `false` when it raises. */
    method Perform(c: Call) returns (ok: bool)
      modifies this
      ensures ok == !fails(c)
      ensures log == old(log) + [Invoke(c)]
    {
      ok := !fails(c);
      log := log + [Invoke(c)];
    }
  }

  /** `execute_actions`: each action string in order; an unknown name is skipped, a call
      that raises ends the dispatch. */
  method ExecuteActions(services: Services, email: Email, actions: seq<string>) returns (failure: Option<Call>)
    modifies services
    ensures failure == FirstFailure(Plan(email.id, actions), services.fails)
    ensures services.log == old(services.log) + Invocations(Attempted(Plan(email.id, actions), services.fails))
  {
    for i := 0 to |actions|
      invariant NoneFail(Plan(email.id, actions[..i]), services.fails)
      invariant services.log == old(services.log) + Invocations(Plan(email.id, actions[..i]))
    {
      var actionStr := actions[i];
      var (actionName, folder) := ParseActionString(actionStr);
      if actionName !in ActionsMap {
        PlanStep(email.id, actions, i);
        continue;
      }
      var call := Call(ActionsMap[actionName], email.id, if folder.Some? && folder.value != "" then folder else None);
      assert CallFor(email.id, actionStr) == Some(call);
      ghost var done := Invocations(Plan(email.id, actions[..i]));
      var ok := services.Perform(call);
      assert services.log == old(services.log) + (done + [Invoke(call)]);
      DispatchStep(email.id, actions, i, call, services.fails);
      if !ok {
        return Some(call);
      }
    }
    assert actions[..|actions|] == actions;
    AttemptedNoneFail(Plan(email.id, actions), services.fails);
    return None;
  }

  /** One step of `execute_actions` that makes `call`: the dispatch goes on when it
      succeeds, and ends there with `call` as the failure when it raises. */
  lemma DispatchStep(id: string, actions: seq<string>, i: nat, call: Call, fails: Call -> bool)
    requires i < |actions| && CallFor(id, actions[i]) == Some(call)
    requires NoneFail(Plan(id, actions[..i]), fails)
    ensures Plan(id, actions[..i + 1]) == Plan(id, actions[..i]) + [call]
    ensures Invocations(Plan(id, actions[..i + 1])) == Invocations(Plan(id, actions[..i])) + [Invoke(call)]
    ensures !fails(call) ==> NoneFail(Plan(id, actions[..i + 1]), fails)
    ensures fails(call) ==> FirstFailure(Plan(id, actions), fails) == Some(call)
    ensures fails(call) ==> Attempted(Plan(id, actions), fails) == Plan(id, actions[..i + 1])
  {
    DispatchExtends(id, actions, i, call, fails);
    if fails(call) {
      DispatchStops(id, actions, i, call, fails);
    }
  }

  lemma DispatchExtends(id: string, actions: seq<string>, i: nat, call: Call, fails: Call -> bool)
    requires i < |actions| && CallFor(id, actions[i]) == Some(call)
    requires NoneFail(Plan(id, actions[..i]), fails)
    ensures Plan(id, actions[..i + 1]) == Plan(id, actions[..i]) + [call]
    ensures Invocations(Plan(id, actions[..i + 1])) == Invocations(Plan(id, actions[..i])) + [Invoke(call)]
    ensures !fails(call) ==> NoneFail(Plan(id, actions[..i + 1]), fails)
  {
    PlanStep(id, actions, i);
    InvocationsAppend(Plan(id, actions[..i]), [call]);
    NoneFailAppend(Plan(id, actions[..i]), [call], fails);
  }

  lemma DispatchStops(id: string, actions: seq<string>, i: nat, call: Call, fails: Call -> bool)
    requires i < |actions| && CallFor(id, actions[i]) == Some(call)
    requires NoneFail(Plan(id, actions[..i]), fails) && fails(call)
    ensures FirstFailure(Plan(id, actions), fails) == Some(call)
    ensures Attempted(Plan(id, actions), fails) == Plan(id, actions[..i + 1])
  {
    PlanStep(id, actions, i);
    PlanSplit(id, actions, i + 1);
    AttemptedStops(Plan(id, actions[..i]), call, Plan(id, actions[i + 1..]), fails);
  }

  /** The loop of `run_rules` over the matched emails, in store order; an exception from
      the backend ends it. */
  method DispatchAll(services: Services, emails: seq<Email>, actions: seq<string>) returns (failure: Option<Call>)
    modifies services
    ensures failure == FirstFailure(PlanAll(emails, actions), services.fails)
    ensures services.log == old(services.log) + Invocations(Attempted(PlanAll(emails, actions), services.fails))
  {
    for i := 0 to |emails|
      invariant FirstFailure(PlanAll(emails[..i], actions), services.fails).None?
      invariant services.log == old(services.log) + Invocations(PlanAll(emails[..i], actions))
    {
      ghost var done := Invocations(PlanAll(emails[..i], actions));
      ghost var before := services.log;
      failure := ExecuteActions(services, emails[i], actions);
      ghost var step := Invocations(Attempted(Plan(emails[i].id, actions), services.fails));
      assert services.log == before + step;
      assert services.log == old(services.log) + (done + step);
      DispatchAllStep(emails, actions, i, services.fails);
      if failure.Some? {
        return;
      }
    }
    assert emails[..|emails|] == emails;
    AttemptedNoneFail(PlanAll(emails, actions), services.fails);
    return None;
  }

  /** One email of the loop of `run_rules`: when its dispatch ends without a failure the
      loop goes on, otherwise the run ends with that failure. */
  lemma DispatchAllStep(emails: seq<Email>, actions: seq<string>, i: nat, fails: Call -> bool)
    requires i < |emails|
    requires FirstFailure(PlanAll(emails[..i], actions), fails).None?
    ensures FirstFailure(Plan(emails[i].id, actions), fails).None? ==>
      FirstFailure(PlanAll(emails[..i + 1], actions), fails).None? &&
      Invocations(PlanAll(emails[..i], actions)) + Invocations(Attempted(Plan(emails[i].id, actions), fails))
        == Invocations(PlanAll(emails[..i + 1], actions))
    ensures FirstFailure(Plan(emails[i].id, actions), fails).Some? ==>
      FirstFailure(PlanAll(emails, actions), fails) == FirstFailure(Plan(emails[i].id, actions), fails) &&
      Invocations(PlanAll(emails[..i], actions)) + Invocations(Attempted(Plan(emails[i].id, actions), fails))
        == Invocations(Attempted(PlanAll(emails, actions), fails))
  {
    var before, here := PlanAll(emails[..i], actions), Plan(emails[i].id, actions);
    AttemptedNoneFail(before, fails);
    InvocationsAppend(before, Attempted(here, fails));
    if FirstFailure(here, fails).Some? {
      var after := PlanAll(emails[i + 1..], actions);
      PlanAllSplit(emails, actions, i);
      AttemptedAppend(before, here + after, fails);
      AttemptedPrefixFails(here, after, fails);
    } else {
      PlanAllStep(emails, actions, i);
      AttemptedNoneFail(here, fails);
      NoneFailAppend(before, here, fails);
      AttemptedNoneFail(before + here, fails);
    }
  }

  /** The second half of `run_rules`: `execute_query`, then `execute_actions` for each
      returned row in store order. */
  method RunQuery(services: Services, q: RulesToSql.SqlQuery, actions: seq<string>) returns (outcome: RunOutcome)
    modifies services
    ensures outcome == QueryResult(q, actions, services.store, services.fails)
    ensures services.log == old(services.log) + QueryEvents(q, actions, services.store, services.fails)
  {
    var emails := services.ExecuteQuery(q.text, q.params);
    var failure := DispatchAll(services, emails, actions);
    assert services.log == old(services.log) + ([Query(q.text, q.params)] + Invocations(Attempted(PlanAll(emails, actions), services.fails)));
    if failure.Some? {
      return ActionFailed(failure.value);
    }
    return Completed;
  }

  /** `run_rules` once the rule file is parsed: load and validate, compile, then run the
      query and dispatch. */
  method RunRules(services: Services, doc: Document) returns (outcome: RunOutcome)
    modifies services
    ensures outcome == RunResult(doc, services.store, services.fails)
    ensures services.log == old(services.log) + RunEvents(doc, services.store, services.fails)
  {
    var loaded := Validator.LoadAndValidateRules(doc);
    if loaded.Err? {
      return Rejected(loaded.error);
    }
    var rulesConfig := loaded.value;
    var compiled := RulesToSql.RulesToSqlQuery(rulesConfig);
    if compiled.Err? {
      return CompileFailed(compiled.error);
    }
    outcome := RunQuery(services, compiled.value, GetOr(rulesConfig.actions, []));
  }

  // ---------------------------------------------------------------------------
  // Lemmas about plans and attempts

  lemma InvocationsAppend(a: seq<Call>, b: seq<Call>)
    ensures Invocations(a + b) == Invocations(a) + Invocations(b)
  {
  }

  lemma NoneFailAppend(a: seq<Call>, b: seq<Call>, fails: Call -> bool)
    ensures NoneFail(a + b, fails) <==> NoneFail(a, fails) && NoneFail(b, fails)
  {
    if NoneFail(a, fails) && NoneFail(b, fails) {
      forall i | 0 <= i < |a + b| ensures !fails((a + b)[i]) {
        if i >= |a| { assert (a + b)[i] == b[i - |a|]; }
      }
    }
    if NoneFail(a + b, fails) {
      forall i | 0 <= i < |a| ensures !fails(a[i]) { assert (a + b)[i] == a[i]; }
      forall i | 0 <= i < |b| ensures !fails(b[i]) { assert (a + b)[|a| + i] == b[i]; }
    }
  }

  /** When nothing fails, every planned call is made and the dispatch completes. */
  lemma {:induction false} AttemptedNoneFail(plan: seq<Call>, fails: Call -> bool)
    ensures NoneFail(plan, fails) <==> FirstFailure(plan, fails).None?
    ensures NoneFail(plan, fails) ==> Attempted(plan, fails) == plan
  {
    if plan != [] {
      AttemptedNoneFail(plan[1..], fails);
      if NoneFail(plan, fails) {
        assert forall i :: 0 <= i < |plan| - 1 ==> plan[1..][i] == plan[i + 1];
      }
      if !fails(plan[0]) && NoneFail(plan[1..], fails) {
        assert forall i :: 1 <= i < |plan| ==> plan[i] == plan[1..][i - 1];
      }
    }
  }

  /** A run of calls that all succeed is made in full before the rest is attempted. */
  lemma {:induction false} AttemptedAppend(a: seq<Call>, b: seq<Call>, fails: Call -> bool)
    requires NoneFail(a, fails)
    ensures Attempted(a + b, fails) == a + Attempted(b, fails)
    ensures FirstFailure(a + b, fails) == FirstFailure(b, fails)
  {
    if a == [] {
      assert a + b == b;
    } else {
      assert (a + b)[0] == a[0] && !fails(a[0]);
      assert (a + b)[1..] == a[1..] + b;
      assert NoneFail(a[1..], fails) by {
        assert forall i :: 0 <= i < |a| - 1 ==> a[1..][i] == a[i + 1];
      }
      AttemptedAppend(a[1..], b, fails);
    }
  }

  /** Once a call raises, nothing after it is attempted. */
  lemma {:induction false} AttemptedPrefixFails(a: seq<Call>, b: seq<Call>, fails: Call -> bool)
    requires FirstFailure(a, fails).Some?
    ensures Attempted(a + b, fails) == Attempted(a, fails)
    ensures FirstFailure(a + b, fails) == FirstFailure(a, fails)
  {
    assert (a + b)[0] == a[0];
    if !fails(a[0]) {
      assert (a + b)[1..] == a[1..] + b;
      AttemptedPrefixFails(a[1..], b, fails);
    }
  }

  lemma AttemptedStops(a: seq<Call>, c: Call, b: seq<Call>, fails: Call -> bool)
    requires NoneFail(a, fails) && fails(c)
    ensures Attempted(a + [c] + b, fails) == a + [c]
    ensures FirstFailure(a + [c] + b, fails) == Some(c)
  {
    assert a + [c] + b == a + ([c] + b);
    AttemptedAppend(a, [c] + b, fails);
  }

  /** Dispatching a concatenation of action lists is dispatching each in turn. */
  lemma {:induction false} PlanAppend(id: string, a: seq<string>, b: seq<string>)
    ensures Plan(id, a + b) == Plan(id, a) + Plan(id, b)
    decreases |b|
  {
    if b == [] {
      assert a + b == a;
    } else {
      assert (a + b)[..|a + b| - 1] == a + b[..|b| - 1];
      PlanAppend(id, a, b[..|b| - 1]);
    }
  }

  lemma PlanStep(id: string, actions: seq<string>, i: nat)
    requires i < |actions|
    ensures Plan(id, actions[..i + 1]) == Plan(id, actions[..i]) + CallsOf(CallFor(id, actions[i]))
  {
    assert actions[..i + 1][..i] == actions[..i];
  }

  lemma PlanSplit(id: string, actions: seq<string>, k: nat)
    requires k <= |actions|
    ensures Plan(id, actions) == Plan(id, actions[..k]) + Plan(id, actions[k..])
  {
    assert actions == actions[..k] + actions[k..];
    PlanAppend(id, actions[..k], actions[k..]);
  }

  /** A prefix or suffix of the emails has the plans of that prefix or suffix. */
  lemma PlansSlice(emails: seq<Email>, actions: seq<string>, k: nat)
    requires k <= |emails|
    ensures Plans(emails, actions)[..k] == Plans(emails[..k], actions)
    ensures Plans(emails, actions)[k..] == Plans(emails[k..], actions)
  {
    assert forall j :: 0 <= j < k ==> emails[..k][j] == emails[j];
    assert forall j :: 0 <= j < |emails| - k ==> emails[k..][j] == emails[k + j];
  }

  /** Concatenation splits at any point into the part before it and the part after. */
  lemma {:induction false} FlattenSplitAt(xs: seq<seq<Call>>, k: nat)
    requires k <= |xs|
    ensures Flatten(xs) == Flatten(xs[..k]) + Flatten(xs[k..])
    decreases |xs|
  {
    if k == |xs| {
      assert xs[..k] == xs && xs[k..] == [];
    } else {
      var n := |xs| - 1;
      var init, tail := xs[..n], xs[k..];
      FlattenSplitAt(init, k);
      assert init[..k] == xs[..k];
      assert tail[..|tail| - 1] == init[k..] && tail[|tail| - 1] == xs[n];
    }
  }

  lemma PlanAllStep(emails: seq<Email>, actions: seq<string>, i: nat)
    requires i < |emails|
    ensures PlanAll(emails[..i + 1], actions) == PlanAll(emails[..i], actions) + Plan(emails[i].id, actions)
  {
    var ps := Plans(emails[..i + 1], actions);
    PlansSlice(emails[..i + 1], actions, i);
    assert emails[..i + 1][..i] == emails[..i];
    assert ps[..|ps| - 1] == Plans(emails[..i], actions);
    assert ps[|ps| - 1] == Plan(emails[i].id, actions);
  }

  /** One matched email gets the calls of its own dispatch. */
  lemma PlanAllOne(e: Email, actions: seq<string>)
    ensures PlanAll([e], actions) == Plan(e.id, actions)
  {
    var ps := Plans([e], actions);
    assert ps[..0] == [] && ps[0] == Plan(e.id, actions);
    assert Flatten(ps) == Flatten(ps[..0]) + ps[0];
  }

  /** The calls for the matched emails split at any point into those for the emails
      before it and those for the emails from it on. */
  lemma PlanAllSplitAt(emails: seq<Email>, actions: seq<string>, k: nat)
    requires k <= |emails|
    ensures PlanAll(emails, actions) == PlanAll(emails[..k], actions) + PlanAll(emails[k..], actions)
  {
    PlansSlice(emails, actions, k);
    FlattenSplitAt(Plans(emails, actions), k);
  }

  lemma PlanAllSplit(emails: seq<Email>, actions: seq<string>, i: nat)
    requires i < |emails|
    ensures PlanAll(emails, actions) == PlanAll(emails[..i], actions) + (Plan(emails[i].id, actions) + PlanAll(emails[i + 1..], actions))
  {
    PlanAllSplitAt(emails, actions, i + 1);
    PlanAllStep(emails, actions, i);
  }

  // ---------------------------------------------------------------------------
  // Properties of the dispatcher and of the pipeline

  /** Whether an action string names a known operation. */
  predicate Known(s: string) {
    ParseActionString(s).0 in ActionsMap
  }

  /** The number of action strings whose name is known, counted from the front. */
  function KnownCount(actions: seq<string>): nat {
    if actions == [] then 0
    else (if Known(actions[0]) then 1 else 0) + KnownCount(actions[1..])
  }

  /** Per email, one backend call for each action whose name is known. */
  lemma {:induction false} PlanCount(id: string, actions: seq<string>)
    ensures |Plan(id, actions)| == KnownCount(actions)
  {
    if actions != [] {
      PlanCount(id, actions[1..]);
      assert actions == [actions[0]] + actions[1..];
      PlanAppend(id, [actions[0]], actions[1..]);
      assert [actions[0]][..0] == [];
    }
  }

  /** Every call made for an email carries that email's id. */
  lemma {:induction false} PlanCarriesId(id: string, actions: seq<string>)
    ensures forall i :: 0 <= i < |Plan(id, actions)| ==> Plan(id, actions)[i].emailId == id
  {
    if actions != [] {
      PlanCarriesId(id, actions[..|actions| - 1]);
    }
  }

  /** Over all matched emails: the same number of calls for each, in store order. */
  lemma PlanAllCount(emails: seq<Email>, actions: seq<string>)
    ensures |PlanAll(emails, actions)| == |emails| * KnownCount(actions)
  {
    var ps := Plans(emails, actions);
    forall i | 0 <= i < |ps| ensures |ps[i]| == KnownCount(actions) {
      PlanCount(emails[i].id, actions);
    }
    FlattenCount(ps, KnownCount(actions));
  }

  /** Plans of `k` calls each concatenate to `k` calls per plan. */
  lemma {:induction false} FlattenCount(xs: seq<seq<Call>>, k: nat)
    requires forall i :: 0 <= i < |xs| ==> |xs[i]| == k
    ensures |Flatten(xs)| == |xs| * k
  {
    if xs != [] {
      var init := xs[..|xs| - 1];
      assert forall i :: 0 <= i < |init| ==> init[i] == xs[i];
      FlattenCount(init, k);
      assert |Flatten(xs)| == |init| * k + k;
      assert |init| * k + k == (|init| + 1) * k;
    }
  }

  /** An action string with an unknown name makes no call, and the ones after it are
      dispatched as if it were not there. */
  lemma UnknownActionSkipped(id: string, before: seq<string>, s: string, after: seq<string>)
    requires !Known(s)
    ensures Plan(id, before + [s] + after) == Plan(id, before + after)
  {
    PlanOfOne(id, s);
    PlanAppend(id, before + [s], after);
    PlanAppend(id, before, [s]);
    PlanAppend(id, before, after);
    assert Plan(id, before + [s]) == Plan(id, before);
  }

  lemma PlanOfOne(id: string, s: string)
    ensures Plan(id, [s]) == CallsOf(CallFor(id, s))
  {
    assert [s][..0] == [];
  }

  /** A validation failure is raised before anything else: no query, no call. */
  lemma ValidationFailureIssuesNothing(doc: Document, store: (string, seq<string>) -> seq<Email>, fails: Call -> bool)
    requires !Validator.DocumentValid(doc)
    ensures RunEvents(doc, store, fails) == []
    ensures RunResult(doc, store, fails) == Rejected(Validator.ValidateDocument(doc).error)
  {
  }

  /** A compile error is raised before the store is queried. */
  lemma CompileFailureIssuesNothing(doc: Document, store: (string, seq<string>) -> seq<Email>, fails: Call -> bool)
    requires Validator.DocumentValid(doc) && RulesToSql.Compile(doc).Err?
    ensures RunEvents(doc, store, fails) == []
    ensures RunResult(doc, store, fails) == CompileFailed(RulesToSql.Compile(doc).error)
  {
  }

  /** A run that gets past validation and compilation queries the store exactly once,
      with the compiled query, before any backend call. */
  lemma QueryComesFirst(doc: Document, store: (string, seq<string>) -> seq<Email>, fails: Call -> bool)
    requires Validator.DocumentValid(doc) && RulesToSql.Compile(doc).Ok?
    ensures var q := RulesToSql.Compile(doc).value;
      var ev := RunEvents(doc, store, fails);
      |ev| >= 1 && ev[0] == Query(q.text, q.params) && forall i :: 1 <= i < |ev| ==> ev[i].Invoke?
  {
  }

  /** No matched email, no backend call. */
  lemma NoMatchesNoDispatch(doc: Document, store: (string, seq<string>) -> seq<Email>, fails: Call -> bool)
    requires Validator.DocumentValid(doc) && RulesToSql.Compile(doc).Ok?
    requires store(RulesToSql.Compile(doc).value.text, RulesToSql.Compile(doc).value.params) == []
    ensures |RunEvents(doc, store, fails)| == 1
    ensures RunResult(doc, store, fails) == Completed
  {
  }

  /** When no call raises, the run completes after making every planned call: one per
      known action for each matched email. */
  lemma AllSucceedDispatchesEverything(doc: Document, store: (string, seq<string>) -> seq<Email>, fails: Call -> bool)
    requires Validator.DocumentValid(doc) && RulesToSql.Compile(doc).Ok?
    requires var q := RulesToSql.Compile(doc).value;
      NoneFail(PlanAll(store(q.text, q.params), doc.actions.value), fails)
    ensures var q := RulesToSql.Compile(doc).value;
      var emails := store(q.text, q.params);
      && RunResult(doc, store, fails) == Completed
      && RunEvents(doc, store, fails) == [Query(q.text, q.params)] + Invocations(PlanAll(emails, doc.actions.value))
      && |RunEvents(doc, store, fails)| == 1 + |emails| * KnownCount(doc.actions.value)
  {
    var q := RulesToSql.Compile(doc).value;
    var emails := store(q.text, q.params);
    AttemptedNoneFail(PlanAll(emails, doc.actions.value), fails);
    PlanAllCount(emails, doc.actions.value);
  }

  /** A call that raises is the last event of the run, and it is the outcome. */
  lemma FailureEndsRun(doc: Document, store: (string, seq<string>) -> seq<Email>, fails: Call -> bool)
    requires RunResult(doc, store, fails).ActionFailed?
    ensures var ev := RunEvents(doc, store, fails);
      |ev| >= 2 && ev[|ev| - 1] == Invoke(RunResult(doc, store, fails).call)
      && fails(RunResult(doc, store, fails).call)
  {
    if Validator.ValidateDocument(doc).Pass? && RulesToSql.Compile(doc).Ok? {
      QueryFailureEnds(RulesToSql.Compile(doc).value, GetOr(doc.actions, []), store, fails);
    }
  }

  /** The same for one compiled query. */
  lemma QueryFailureEnds(q: RulesToSql.SqlQuery, actions: seq<string>, store: (string, seq<string>) -> seq<Email>, fails: Call -> bool)
    requires QueryResult(q, actions, store, fails).ActionFailed?
    ensures var ev := QueryEvents(q, actions, store, fails);
      |ev| >= 2 && ev[|ev| - 1] == Invoke(QueryResult(q, actions, store, fails).call)
      && fails(QueryResult(q, actions, store, fails).call)
  {
    var plan := PlanAll(store(q.text, q.params), actions);
    FirstFailureIsLastAttempted(plan, fails);
  }

  lemma {:induction false} FirstFailureIsLastAttempted(plan: seq<Call>, fails: Call -> bool)
    requires FirstFailure(plan, fails).Some?
    ensures |Attempted(plan, fails)| >= 1
    ensures Attempted(plan, fails)[|Attempted(plan, fails)| - 1] == FirstFailure(plan, fails).value
    ensures fails(FirstFailure(plan, fails).value)
  {
    if !fails(plan[0]) {
      FirstFailureIsLastAttempted(plan[1..], fails);
    }
  }

  // ---------------------------------------------------------------------------
  // Where the dispatcher and the validator read an action string differently

  /** The validator's action names are the dispatcher's map keys. */
  lemma ActionTablesAgree()
    ensures Validator.AllowedActions == ActionsMap.Keys
  {
  }

  /** A `name:target` string with no `:` in the name splits into exactly those halves. */
  lemma ParseNameTarget(name: string, target: string)
    requires ':' !in name
    ensures ParseActionString(name + ":" + target) == (name, Some(target))
  {
    Validator.SplitOnceUnique(name + ":" + target, ':', name, target);
  }

  /** A known name with a non-empty target is dispatched in the two-argument form with
      the target exactly as written; the dispatcher neither trims nor checks it. */
  lemma DispatchAsWritten(id: string, name: string, target: string)
    requires ':' !in name && name in ActionsMap && target != ""
    ensures Plan(id, [name + ":" + target]) == [Call(ActionsMap[name], id, Some(target))]
  {
    ParseNameTarget(name, target);
    PlanOfOne(id, name + ":" + target);
  }

  lemma KnownNameHasNoColon(name: string)
    requires name in ActionsMap
    ensures ':' !in name && Strip(name) == name
  {
    NameTrimmed(name);
  }

  lemma NameTrimmed(name: string)
    requires name == "mark_as_read" || name == "mark_as_unread" || name == "move_message"
    ensures ':' !in name && Strip(name) == name
  {
    assert forall i :: 0 <= i < |name| ==> name[i] != ':' && !IsSpace(name[i]);
    StripUnpadded(name);
  }

  /** A target whose trimmed form is an allowed folder is accepted on every known action,
      the mark actions included, and reaches the backend untrimmed in the two-argument
      form: `move_message:  SPAM  ` moves to `"  SPAM  "`, `mark_as_read:INBOX` calls
      `mark_as_read(id, "INBOX")`. */
  lemma TargetPassedAsWritten(id: string, name: string, target: string)
    requires name in ActionsMap && Strip(target) in Validator.AllowedFolders
    ensures Validator.ValidateAction(name + ":" + target) == Pass
    ensures Plan(id, [name + ":" + target]) == [Call(ActionsMap[name], id, Some(target))]
  {
    TargetAccepted(name, target);
    KnownNameHasNoColon(name);
    NoEmptyFolder();
    NonEmptyStrip(target);
    DispatchAsWritten(id, name, target);
  }

  lemma NoEmptyFolder()
    ensures "" !in Validator.AllowedFolders
  {
  }

  lemma TargetAccepted(name: string, target: string)
    requires name in ActionsMap && Strip(target) in Validator.AllowedFolders
    ensures Validator.ValidateAction(name + ":" + target) == Pass
  {
    KnownNameHasNoColon(name);
    ActionTablesAgree();
    Validator.ActionWithTarget(name + ":" + target, name, target);
  }

  lemma NonEmptyStrip(s: string)
    requires Strip(s) != []
    ensures s != []
  {
    var i :| Padded(s, Strip(s), i);
  }

  /** A name the validator accepts only once trimmed is not a key of the map: the
      dispatcher skips the action without a call. */
  lemma PaddedNameValidatedThenSkipped(id: string, name: string, target: string)
    requires ':' !in name && Strip(name) in Validator.AllowedActions && name !in ActionsMap
    requires Strip(target) in Validator.AllowedFolders
    ensures Validator.ValidateAction(name + ":" + target) == Pass
    ensures Plan(id, [name + ":" + target]) == []
  {
    Validator.ActionWithTarget(name + ":" + target, name, target);
    ParseNameTarget(name, target);
    PlanOfOne(id, name + ":" + target);
  }

  /** Both gaps occur: `" move_message"` trims to an accepted name that is not a map key,
      and `"  SPAM  "` trims to an allowed folder. */
  lemma PaddingExamples()
    ensures Strip(" move_message") == "move_message" && " move_message" !in ActionsMap
    ensures Strip("  SPAM  ") == "SPAM"
  {
    StripMoveMessage();
    StripSpam();
  }

  lemma StripMoveMessage()
    ensures Strip(" move_message") == "move_message"
  {
    var name, trimmed := " move_message", "move_message";
    assert name[1..13] == trimmed;
    assert Padded(name, trimmed, 1);
    StripUnpadded(trimmed);
    StripPadding(name, trimmed, 1);
  }

  lemma StripSpam()
    ensures Strip("  SPAM  ") == "SPAM"
  {
    var target, trimmed := "  SPAM  ", "SPAM";
    assert target[2..6] == trimmed;
    assert Padded(target, trimmed, 2);
    StripUnpadded(trimmed);
    StripPadding(target, trimmed, 2);
  }

  /** A bare known name is accepted and dispatched in its one-argument form; bare
      `move_message` thus reaches the backend with no folder, a form the Gmail backend's
      `move_message` does not accept. */
  lemma BareNameOneArgument(id: string, name: string)
    requires name in ActionsMap
    ensures Validator.ValidateAction(name) == Pass
    ensures Plan(id, [name]) == [Call(ActionsMap[name], id, None)]
  {
    KnownNameHasNoColon(name);
    ActionTablesAgree();
    PlanOfOne(id, name);
  }

  /** When the backend raises on the one-argument form of a bare known name, a rule set
      whose only action is that name ends at the first matched email: the query, then
      that single call. */
  lemma BareActionEndsRun(q: RulesToSql.SqlQuery, name: string, store: (string, seq<string>) -> seq<Email>, fails: Call -> bool)
    requires name in ActionsMap
    requires store(q.text, q.params) != []
    requires fails(Call(ActionsMap[name], store(q.text, q.params)[0].id, None))
    ensures QueryResult(q, [name], store, fails) == ActionFailed(Call(ActionsMap[name], store(q.text, q.params)[0].id, None))
    ensures QueryEvents(q, [name], store, fails) == [Query(q.text, q.params), Invoke(Call(ActionsMap[name], store(q.text, q.params)[0].id, None))]
  {
    var emails := store(q.text, q.params);
    var c := Call(ActionsMap[name], emails[0].id, None);
    var rest := PlanAll(emails[1..], [name]);
    BareNameOneArgument(emails[0].id, name);
    PlanAllSplit(emails, [name], 0);
    assert emails[..0] == [];
    assert PlanAll([], [name]) == [];
    assert PlanAll(emails, [name]) == [] + [c] + rest;
    AttemptedStops([], c, rest, fails);
  }

  // ---------------------------------------------------------------------------
  // What validation guarantees the compiler

  /** The legal predicates and combinators are written in lower case, so the compiler's
      lower-casing leaves them as they are. */
  lemma VocabularyIsLowerCase(p: string)
    requires p in Validator.StringFieldPredicates + Validator.DateFieldPredicates + Validator.RulesPredicateValues
    ensures Lower(p) == p
  {
    if p == "contains" { assert Lower("contains") == "contains"; }
    else if p == "does_not_contain" { assert Lower("does_not_contain") == "does_not_contain"; }
    else if p == "equals" { assert Lower("equals") == "equals"; }
    else if p == "does_not_equal" { assert Lower("does_not_equal") == "does_not_equal"; }
    else if p == "less_than" { assert Lower("less_than") == "less_than"; }
    else if p == "greater_than" { assert Lower("greater_than") == "greater_than"; }
    else if p == "all" { assert Lower("all") == "all"; }
    else { assert Lower("any") == "any"; }
  }

  /** A condition the validator accepts compiles, except that a date condition whose
      value is not `"<int> <unit>"` still raises. */
  lemma ValidRuleCompiles(r: RawRule)
    requires Validator.ValidateRule(r) == Pass
    ensures Lower(r.field.value) != "received_at" ==> RulesToSql.CompileCondition(r).Ok?
    ensures Lower(r.field.value) == "received_at" ==>
      (RulesToSql.CompileCondition(r).Ok? <==> RulesToSql.DayOffset(r.value.value).Ok?)
    ensures RulesToSql.CompileCondition(r).Err? ==> RulesToSql.CompileCondition(r) == Err(RulesToSql.DayOffset(r.value.value).error)
  {
    VocabularyIsLowerCase(r.pred.value);
  }

  /** A validated document compiles, or raises only for a malformed temporal value. */
  lemma ValidatedCompiles(d: Document)
    requires Validator.DocumentValid(d)
    ensures RulesToSql.Compile(d).Err? ==>
      RulesToSql.Compile(d).error.TemporalValueShape? || RulesToSql.Compile(d).error.TemporalValueNumber?
  {
    var rules := d.rules.value;
    if RulesToSql.CompileAll(rules).Err? {
      RulesToSql.CompileAllFirstError(rules);
      var i :| 0 <= i < |rules| && RulesToSql.CompileCondition(rules[i]) == Err(RulesToSql.CompileAll(rules).error)
               && forall j :: 0 <= j < i ==> RulesToSql.CompileCondition(rules[j]).Ok?;
      ValidRuleCompiles(rules[i]);
    }
  }

  /** For a validated document the connector is `" AND "` exactly when the combinator
      is `"all"`, and `" OR "` for `"any"`. */
  lemma ValidatedConnector(d: Document)
    requires Validator.DocumentValid(d)
    ensures RulesToSql.Connector(d.rulesPredicate) == " AND " <==> d.rulesPredicate.value == "all"
    ensures RulesToSql.Connector(d.rulesPredicate) == " OR " <==> d.rulesPredicate.value == "any"
  {
    VocabularyIsLowerCase(d.rulesPredicate.value);
  }
}
