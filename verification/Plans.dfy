/**
  What one call of an API handler or of the engine does: the acts it performs in order, and how it ends.
  A process may stop after any act, so every prefix of a plan is a possible run.
 */
module Plans {
  import opened Utf16
  import opened Json
  import opened Wrappers
  import opened Domain
  import opened CoreRuntime
  import opened Store

  datatype Plan = Plan(acts: seq<Act>, end: Result<Transaction>)

  function Chain(p: Plan, q: Plan): Plan { Plan(p.acts + q.acts, q.end) }

  /** An executor adapter; `compensate` is an optional member. */
  datatype Adapter = Adapter(name: string, compensates: bool)

  datatype Registries = Registries(executors: map<string, Adapter>, verifiers: set<string>)

  /** Everything foreign code may answer during one run; a missing answer is a thrown exception. */
  datatype Answers = Answers(
    credentialsResolve: bool,
    validates: bool,
    prepared: Option<Text>,
    executed: Option<Outcome>,
    observations: seq<Option<Observation>>,
    compensated: Option<Outcome>)

  // ---------- the API handlers ----------

  /** Creation, both transitions, the policy's decision, and READY when no approval is needed. */
  function Submit(tx: Transaction, decision: PolicyDecision): Result<Transaction> {
    var validating :- TransitionTransaction(tx, Validating);
    var evaluating :- TransitionTransaction(validating, PolicyEvaluation);
    var decided :- ApplyPolicy(evaluating, decision);
    if decided.status == Preparing then TransitionTransaction(decided, Ready) else Ok(decided)
  }

  datatype CreateRequest = CreateRequest(
    tenantId: string, environmentId: string, actorId: string, name: Text, version: int, input: Json,
    idempotencyKey: Option<Text>)

  /** findByIdempotency; the handler asks only when a non-empty key was sent. */
  ghost predicate FoundByKey(transactions: map<string, Transaction>, r: CreateRequest, existing: Option<Transaction>) {
    var asked := r.idempotencyKey.Some? && r.idempotencyKey.value != [];
    && (existing.Some? ==> asked && exists id | id in transactions ::
          transactions[id] == existing.value && CarriesKey(existing.value, r))
    && (existing.None? && asked ==> forall id | id in transactions :: !CarriesKey(transactions[id], r))
  }

  predicate CarriesKey(tx: Transaction, r: CreateRequest) {
    tx.tenantId == r.tenantId && tx.environmentId == r.environmentId && r.idempotencyKey == Some(tx.idempotencyKey)
  }

  /** `existing` is what the key lookup found; `decision` is missing when the policy throws. */
  function CreatePlan(
    s: State, id: string, r: CreateRequest, existing: Option<Transaction>, decision: Option<PolicyDecision>): Plan
  {
    var key := ContractKey(r.tenantId, r.name, r.version);
    if key !in s.contracts then Plan([], Err(NotFound))
    else if existing.Some? then Plan([], Ok(existing.value))
    else if decision.None? then Plan([], Err(PolicyFailure))
    else
      var c := s.contracts[key];
      var created := CreateTransaction(id, r.tenantId, r.environmentId, r.actorId, c, r.input, r.idempotencyKey);
      PutPlan(Submit(created, decision.value))
  }

  function GetTransaction(s: State, id: string, tenantId: string): Result<Transaction> {
    if id in s.transactions && s.transactions[id].tenantId == tenantId then Ok(s.transactions[id]) else Err(NotFound)
  }

  function PutPlan(r: Result<Transaction>): Plan { if r.Err? then Plan([], r) else Plan([Put(r.value)], r) }

  /** Any decision other than the literal REJECTED approves, bound to the transaction's own proposal hash. */
  function ApprovalFor(tx: Transaction, role: string, actorId: string, decision: string): Approval {
    Approval(role, actorId, if decision == "REJECTED" then Rejected else Approved, tx.proposalHash)
  }

  function ApprovePlan(s: State, id: string, tenantId: string, role: string, actorId: string, decision: string): Plan {
    var found := GetTransaction(s, id, tenantId);
    if found.Err? then Plan([], found)
    else PutPlan(RecordApproval(found.value, ApprovalFor(found.value, role, actorId, decision)))
  }

  const TERMINAL: set<Status> :=
    {Verified, VerifiedAfterRetry, Compensated, RejectedByPolicy, HaltedBeforeEffect, Cancelled}

  function CancelPlan(s: State, id: string, tenantId: string): Plan {
    var found := GetTransaction(s, id, tenantId);
    if found.Err? then Plan([], found)
    else if found.value.status in TERMINAL then Plan([], Err(WrongStatus))
    else PutPlan(TransitionTransaction(found.value, Cancelled))
  }

  // ---------- the engine ----------

  /** transition: one store write and one evidence event. */
  function MovePlan(tx: Transaction, to: Status, kind: MoveKind): Plan {
    var next := TransitionTransaction(tx, to);
    if next.Err? then Plan([], next)
    else Plan([Put(next.value), Append(tx.id, Moved(kind, tx.status, to))], next)
  }

  /** reconcileUnknown */
  function ReconcilePlan(tx: Transaction): Plan {
    if tx.status != UnknownEffect then Plan([OpenCase(tx.id)], Ok(tx))
    else
      var p := MovePlan(tx, ReconciliationRequired, MoveReconciliation);
      if p.end.Err? then p else Chain(p, Plan([OpenCase(tx.id)], p.end))
  }

  function GiveUpPlan(tx: Transaction, kind: MoveKind): Plan {
    var p := MovePlan(tx, ReconciliationRequired, kind);
    if p.end.Err? then p else Chain(p, ReconcilePlan(p.end.value))
  }

  /** compensate */
  function CompensatePlan(tx: Transaction, adapter: Adapter, a: Answers): Plan {
    if !adapter.compensates then GiveUpPlan(tx, MoveCompensationUnavailable)
    else
      Chain(
        Plan([Outside(tx.id, CompensateCalled)], Ok(tx)),
        if a.compensated == Some(OutcomeExecuted) then MovePlan(tx, Compensated, MoveCompensated)
        else if a.compensated.Some? then GiveUpPlan(tx, MoveCompensationFailed)
        else GiveUpPlan(tx, MoveCompensationException))
  }

  datatype Check = NoRule(effect: string) | WithRule(effect: string, rule: Rule)

  predicate Applies(rule: Rule, effect: string) {
    rule.effectId.None? || rule.effectId.value == "" || rule.effectId.value == effect
  }

  function RuleChecks(rules: seq<Rule>, effect: string): seq<Check> {
    if rules == [] then []
    else
      var last := rules[|rules| - 1];
      RuleChecks(rules[..|rules| - 1], effect) + (if Applies(last, effect) then [WithRule(effect, last)] else [])
  }

  function EffectChecks(c: Contract, effect: string): seq<Check> {
    if RuleChecks(c.rules, effect) == [] then [NoRule(effect)] else RuleChecks(c.rules, effect)
  }

  /** Effect by effect, the rules that apply to it in order. */
  function Checks(c: Contract, effects: seq<string>): seq<Check> {
    if effects == [] then []
    else Checks(c, effects[..|effects| - 1]) + EffectChecks(c, effects[|effects| - 1])
  }

  function StrengthOr0(rule: Rule): real { if rule.strength.Some? then rule.strength.value else 0.0 }

  /** observation.strength || rule.strength || 0 */
  function Adjusted(o: Observation, rule: Rule): Observation {
    o.(strength := if o.strength != 0.0 then o.strength else StrengthOr0(rule))
  }

  datatype Progress = Progress(acts: seq<Act>, tx: Transaction, answers: seq<Option<Observation>>, ok: bool)

  function ObserveOne(p: Progress, check: Check, verifiers: set<string>): Progress {
    if !p.ok then p
    else match check
      case NoRule(effect) =>
        p.(tx := AddObservation(p.tx, Observation(effect, Inconclusive, 0.0, "no-verifier")))
      case WithRule(effect, rule) =>
        if rule.verifier !in verifiers then
          var missing := Observation(effect, Inconclusive, StrengthOr0(rule), "missing:" + rule.verifier);
          p.(tx := AddObservation(p.tx, missing))
        else if p.answers == [] || p.answers[0].None? then p.(ok := false)
        else
          var o := p.answers[0].value;
          Progress(
            p.acts + [Outside(p.tx.id, VerifierReturned(rule.verifier, o)),
                      Append(p.tx.id, EffectObserved(effect, rule.verifier, o.result, o.strength))],
            AddObservation(p.tx, Adjusted(o, rule)), p.answers[1..], true)
  }

  function ObserveAll(p: Progress, checks: seq<Check>, verifiers: set<string>): Progress {
    if checks == [] then p
    else ObserveOne(ObserveAll(p, checks[..|checks| - 1], verifiers), checks[|checks| - 1], verifiers)
  }

  /** Without required verification every effect is confirmed at strength 0. */
  function Unverified(tx: Transaction, effects: seq<string>): Transaction {
    if effects == [] then tx
    else
      AddObservation(
        Unverified(tx, effects[..|effects| - 1]),
        Observation(effects[|effects| - 1], EffectConfirmed, 0.0, "verification-not-required"))
  }

  /** verifyAll: one store write at the end. */
  function VerifyPlan(tx: Transaction, c: Contract, verifiers: set<string>, a: Answers): Plan {
    if !c.verificationRequired then
      var done := Unverified(tx, c.effects); Plan([Put(done)], Ok(done))
    else
      var p := ObserveAll(Progress([], tx, a.observations, true), Checks(c, c.effects), verifiers);
      if !p.ok then Plan(p.acts, Err(VerifierFailure)) else Plan(p.acts + [Put(p.tx)], Ok(p.tx))
  }

  /** The verdict, its store write and event, and what follows from it. */
  function DecidePlan(tx: Transaction, c: Contract, adapter: Adapter, a: Answers): Plan {
    var decided := DecideVerificationOutcome(tx, c);
    if decided.Err? then Plan([], decided)
    else
      var next := decided.value;
      var p := Plan([Put(next), Append(next.id, VerificationDecided(next.status))], decided);
      if next.status == Committing then
        Chain(p, MovePlan(next, if next.retryCount > 0 then VerifiedAfterRetry else Verified, MoveVerified))
      else if next.status == Compensating then Chain(p, CompensatePlan(next, adapter, a))
      else if next.status == UnknownEffect || next.status == ReconciliationRequired then Chain(p, ReconcilePlan(next))
      else p
  }

  function VerifyAndDecidePlan(tx: Transaction, c: Contract, regs: Registries, adapter: Adapter, a: Answers): Plan {
    var v := VerifyPlan(tx, c, regs.verifiers, a);
    if v.end.Err? then v else Chain(v, DecidePlan(v.end.value, c, adapter, a))
  }

  datatype Selection = Selection(name: string, adapter: Adapter)

  /** selectExecutor: the first name, preferred before fallback, that is registered. */
  function Select(names: seq<string>, executors: map<string, Adapter>): Option<Selection> {
    if names == [] then None
    else if names[0] in executors then Some(Selection(names[0], executors[names[0]]))
    else Select(names[1..], executors)
  }

  function ActionStatusOf(outcome: Outcome): ActionStatus {
    match outcome
    case OutcomeExecuted => Executed
    case OutcomeUnknown => EffectUnknown
    case OutcomeFailed => Failed
  }

  function Finished(actions: seq<Action>, id: nat, status: ActionStatus): seq<Action> {
    if actions == [] then []
    else
      Finished(actions[..|actions| - 1], id, status)
      + [var last := actions[|actions| - 1]; if last.id == id then last.(status := status) else last]
  }

  /** finishAction */
  function FinishAction(tx: Transaction, id: nat, outcome: Outcome): Transaction {
    tx.(actions := Finished(tx.actions, id, ActionStatusOf(outcome)))
  }

  /** The adapter is executed only after it validated and prepared exactly the approved proposal. */
  predicate ReachesExecute(tx: Transaction, a: Answers) {
    a.validates && a.prepared.Some? && a.prepared.value == tx.proposalHash
  }

  function ExecuteActs(tx: Transaction, a: Answers): seq<Act> {
    if !ReachesExecute(tx, a) then []
    else
      [Outside(tx.id, Execute(tx, a.prepared.value)),
       Outside(tx.id, if a.executed.Some? then ExecuteReturned(a.executed.value) else ExecuteThrew)]
  }

  /** Any exception on the way counts as FAILED. */
  function ExecuteOutcome(tx: Transaction, a: Answers): Outcome {
    if ReachesExecute(tx, a) && a.executed.Some? then a.executed.value else OutcomeFailed
  }

  /** The three ways to go on from a stored outcome. */
  function AfterOutcomePlan(
    tx: Transaction, c: Contract, regs: Registries, adapter: Adapter, a: Answers, outcome: Outcome): Plan
  {
    match outcome
    case OutcomeUnknown =>
      var p := MovePlan(tx, UnknownEffect, MoveUnknownEffect);
      if p.end.Err? then p else Chain(p, ReconcilePlan(p.end.value))
    case OutcomeFailed => MovePlan(tx, FailedInfrastructure, MoveExecutionFailed)
    case OutcomeExecuted =>
      var p := MovePlan(tx, Verifying, MoveVerifying);
      if p.end.Err? then p else Chain(p, VerifyAndDecidePlan(p.end.value, c, regs, adapter, a))
  }

  /** From the outcome on: the stored result, its event, and what follows. */
  function SettlePlan(
    started: Transaction, c: Contract, regs: Registries, selection: Selection, a: Answers, outcome: Outcome): Plan
  {
    var tx := FinishAction(started, |started.actions|, outcome);
    Chain(
      Plan([Put(tx), Append(tx.id, ActionFinished(selection.name, outcome))], Ok(tx)),
      AfterOutcomePlan(tx, c, regs, selection.adapter, a, outcome))
  }

  function StartedAction(tx: Transaction, name: string): Transaction {
    tx.(actions := tx.actions + [Action(|tx.actions| + 1, name, ActionExecuting)])
  }

  /** From EXECUTING on: choose an executor, record the action, call out, settle. */
  function AttemptPlan(tx: Transaction, c: Contract, regs: Registries, a: Answers): Plan {
    var selection := Select(c.preferred + c.fallback, regs.executors);
    if selection.None? then MovePlan(tx, FailedInfrastructure, MoveNoExecutor)
    else
      var started := StartedAction(tx, selection.value.name);
      var p := Plan([Put(started)], Ok(started));
      if c.credentialRefs != [] && !a.credentialsResolve then Plan(p.acts, Err(CredentialFailure))
      else
        Chain(
          p,
          Chain(
            Plan(ExecuteActs(started, a), Ok(started)),
            SettlePlan(started, c, regs, selection.value, a, ExecuteOutcome(started, a))))
  }

  /** TransactionEngine.run, once the transaction and its contract are loaded. */
  function RunPlan(tx: Transaction, c: Contract, regs: Registries, a: Answers): Plan {
    if tx.status == UnknownEffect then ReconcilePlan(tx)
    else if tx.status != Ready && tx.status != FailedInfrastructure then Plan([], Ok(tx))
    else
      var p := MovePlan(tx, Executing, if tx.status == FailedInfrastructure then MoveRetrying else MoveExecuting);
      if p.end.Err? then p else Chain(p, AttemptPlan(p.end.value, c, regs, a))
  }

  function EnginePlan(s: State, id: string, tenantId: string, regs: Registries, a: Answers): Plan {
    var found := GetTransaction(s, id, tenantId);
    if found.Err? then Plan([], found)
    else
      var key := KeyOf(found.value);
      if key !in s.contracts then Plan([], Err(NotFound)) else RunPlan(found.value, s.contracts[key], regs, a)
  }

  // ---------- what the selection and the checks mean ----------

  /** The first registered name wins; nothing is selected exactly when no name is registered. */
  lemma {:induction false} SelectFindsFirst(names: seq<string>, executors: map<string, Adapter>)
    ensures var selection := Select(names, executors);
      if selection.None? then forall name | name in names :: name !in executors
      else exists i | 0 <= i < |names| ::
        && names[i] == selection.value.name && names[i] in executors && executors[names[i]] == selection.value.adapter
        && forall j | 0 <= j < i :: names[j] !in executors
  {
    if names != [] && names[0] !in executors {
      SelectFindsFirst(names[1..], executors);
      var selection := Select(names[1..], executors);
      assert names == [names[0]] + names[1..];
      if selection.Some? {
        var i :| 0 <= i < |names[1..]| && names[1..][i] == selection.value.name && names[1..][i] in executors
          && executors[names[1..][i]] == selection.value.adapter
          && forall j | 0 <= j < i :: names[1..][j] !in executors;
        assert names[i + 1] == names[1..][i];
        forall j | 0 <= j < i + 1 ensures names[j] !in executors {
          if j > 0 { assert names[j] == names[1..][j - 1]; }
        }
      }
    }
  }

  lemma {:induction false} RuleChecksExactly(rules: seq<Rule>, effect: string, check: Check)
    ensures check in RuleChecks(rules, effect) <==>
      check.WithRule? && check.effect == effect && check.rule in rules && Applies(check.rule, effect)
  {
    if rules != [] {
      RuleChecksExactly(rules[..|rules| - 1], effect, check);
      assert rules == rules[..|rules| - 1] + [rules[|rules| - 1]];
    }
  }

  /** Every applicable rule of every effect is checked, and an effect is marked as unchecked only without one. */
  lemma {:induction false} ChecksExactly(c: Contract, effects: seq<string>, check: Check)
    ensures check in Checks(c, effects) <==>
      && check.effect in effects
      && (check.WithRule? ==> check.rule in c.rules && Applies(check.rule, check.effect))
      && (check.NoRule? ==> forall rule | rule in c.rules :: !Applies(rule, check.effect))
  {
    if effects != [] {
      var last := effects[|effects| - 1];
      ChecksExactly(c, effects[..|effects| - 1], check);
      assert effects == effects[..|effects| - 1] + [last];
      RuleChecksExactly(c.rules, last, check);
      EffectIsUncheckedExactly(c.rules, last);
    }
  }

  lemma EffectIsUncheckedExactly(rules: seq<Rule>, effect: string)
    ensures RuleChecks(rules, effect) == [] <==> forall rule | rule in rules :: !Applies(rule, effect)
  {
    forall rule | rule in rules && Applies(rule, effect) ensures RuleChecks(rules, effect) != [] {
      RuleChecksExactly(rules, effect, WithRule(effect, rule));
    }
    if RuleChecks(rules, effect) != [] {
      RuleChecksExactly(rules, effect, RuleChecks(rules, effect)[0]);
      assert RuleChecks(rules, effect)[0] in RuleChecks(rules, effect);
    }
  }

  lemma {:induction false} RulesInOrder(rules: seq<Rule>, more: seq<Rule>, effect: string)
    ensures RuleChecks(rules + more, effect) == RuleChecks(rules, effect) + RuleChecks(more, effect)
    decreases |more|
  {
    if more == [] {
      assert rules + more == rules;
    } else {
      var n := |more| - 1;
      assert (rules + more)[..|rules| + n] == rules + more[..n] && (rules + more)[|rules| + n] == more[n];
      RulesInOrder(rules, more[..n], effect);
    }
  }

  /** Effects are checked in order, and for one effect its rules in order. */
  lemma {:induction false} ChecksInOrder(c: Contract, effects: seq<string>, more: seq<string>)
    ensures Checks(c, effects + more) == Checks(c, effects) + Checks(c, more)
    decreases |more|
  {
    hide EffectChecks;
    if more == [] {
      assert effects + more == effects;
    } else {
      var n := |more| - 1;
      assert (effects + more)[..|effects| + n] == effects + more[..n] && (effects + more)[|effects| + n] == more[n];
      ChecksInOrder(c, effects, more[..n]);
    }
  }

  /** One rule checks an effect when it names that effect, or none. */
  lemma OneRuleOneEffect(c: Contract, rule: Rule, effect: string)
    requires c.rules == [rule]
    ensures Checks(c, [effect]) ==
      if rule.effectId == None || rule.effectId == Some("") || rule.effectId == Some(effect)
      then [WithRule(effect, rule)] else [NoRule(effect)]
  {
    assert [effect][..0] == [] && [rule][..0] == [];
    assert RuleChecks([], effect) == [];
    assert RuleChecks(c.rules, effect) == if Applies(rule, effect) then [WithRule(effect, rule)] else [];
    assert Checks(c, []) == [];
    assert Checks(c, [effect]) == EffectChecks(c, effect);
  }
}
