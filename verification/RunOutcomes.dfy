/**
  How a run goes, decided from the stored row, its contract, the registries and the answers alone: when the
  adapter is executed, what is recorded, which verdict is reached and where the run ends.
 */
module RunOutcomes {
  import opened Wrappers
  import opened Domain
  import opened StateMachine
  import opened Verification
  import opened CoreRuntime
  import opened Store
  import opened Plans
  import opened Lanes
  import opened EngineSafety
  import opened Lifecycle
  import opened Guarantees

  // ---------- the verdict ----------

  /** Every expected effect has a confirmation at or above the contract's minimum strength. */
  predicate AllConfirmed(c: Contract, observations: seq<Observation>) {
    forall e | e in c.effects ::
      exists o | o in observations ::
        && o.effectId == e && o.result == EffectConfirmed
        && o.strength >= if c.minimumStrength.Some? then c.minimumStrength.value else 0.0
  }

  /** Some expected effect was rejected and never confirmed. */
  predicate SomeRefused(c: Contract, observations: seq<Observation>) {
    exists e | e in c.effects ::
      && (exists o | o in observations :: o.effectId == e && o.result == EffectRejected)
      && (forall o | o in observations && o.effectId == e :: o.result != EffectConfirmed)
  }

  predicate Compensable(c: Contract) { !c.irreversible && c.hasCompensation }

  lemma SummaryMeans(c: Contract, observations: seq<Observation>)
    ensures Summarize(c, observations).confirmed <==> AllConfirmed(c, observations)
    ensures Summarize(c, observations).rejected <==> SomeRefused(c, observations)
  {
    assert Summarize(c, observations).rejected <==> exists e | e in c.effects :: IsRejected(observations, e);
    forall e | e in c.effects
      ensures IsRejected(observations, e) <==>
        && (exists o | o in observations :: o.effectId == e && o.result == EffectRejected)
        && (forall o | o in observations && o.effectId == e :: o.result != EffectConfirmed)
    {}
  }

  /** The verdict on a transaction under verification, case by case. */
  lemma VerdictExactly(tx: Transaction, c: Contract)
    requires tx.status == Verifying
    ensures DecideVerificationOutcome(tx, c).Ok?
    ensures var next := DecideVerificationOutcome(tx, c).value;
      var confirmed, refused := AllConfirmed(c, tx.observations), SomeRefused(c, tx.observations);
      && next == tx.(status := next.status)
      && (next.status == Committing <==> confirmed)
      && (next.status == Compensating <==> refused && Compensable(c))
      && (next.status == ReconciliationRequired <==> refused && !Compensable(c))
      && (next.status == UnknownEffect <==> !confirmed && !refused)
  {
    hide Summarize, AllConfirmed, SomeRefused;
    SummaryMeans(c, tx.observations);
    ConfirmedIsNotRefused(c, tx.observations);
  }

  lemma ConfirmedIsNotRefused(c: Contract, observations: seq<Observation>)
    ensures !(AllConfirmed(c, observations) && SomeRefused(c, observations))
  {}

  // ---------- what follows the verdict ----------

  /** A status write and its report. */
  function Move(tx: Transaction, from: Status, to: Status, kind: MoveKind): seq<Act> {
    [Put(tx.(status := to)), Append(tx.id, Moved(kind, from, to))]
  }

  lemma MoveTrace(tx: Transaction, to: Status, kind: MoveKind)
    requires CanTransition(tx.status, to)
    ensures MovePlan(tx, to, kind) == Plan(Move(tx, tx.status, to, kind), Ok(tx.(status := to)))
  {}

  /** Compensation: the call when the adapter has one, and the three reasons to reconcile instead. */
  lemma CompensationTrace(tx: Transaction, adapter: Adapter, a: Answers)
    requires tx.status == Compensating
    ensures var p := CompensatePlan(tx, adapter, a);
      var called := [Outside(tx.id, CompensateCalled)];
      var ended := tx.(status := ReconciliationRequired);
      if !adapter.compensates then
        p == Plan(
          Move(tx, Compensating, ReconciliationRequired, MoveCompensationUnavailable) + [OpenCase(tx.id)], Ok(ended))
      else if a.compensated == Some(OutcomeExecuted) then
        p == Plan(called + Move(tx, Compensating, Compensated, MoveCompensated), Ok(tx.(status := Compensated)))
      else
        var kind := if a.compensated.Some? then MoveCompensationFailed else MoveCompensationException;
        p == Plan(called + (Move(tx, Compensating, ReconciliationRequired, kind) + [OpenCase(tx.id)]), Ok(ended))
  {
    forall to, kind | to in {ReconciliationRequired, Compensated}
      ensures MovePlan(tx, to, kind) == Plan(Move(tx, Compensating, to, kind), Ok(tx.(status := to)))
    {
      MoveTrace(tx, to, kind);
    }
    hide MovePlan;
  }

  /** Where the verdict on the stored observations leads. */
  function VerdictEnd(tx: Transaction, c: Contract, adapter: Adapter, a: Answers): Status {
    if AllConfirmed(c, tx.observations) then (if tx.retryCount > 0 then VerifiedAfterRetry else Verified)
    else if SomeRefused(c, tx.observations) && Compensable(c) && adapter.compensates
      && a.compensated == Some(OutcomeExecuted)
    then Compensated
    else ReconciliationRequired
  }

  lemma DecideEnds(tx: Transaction, c: Contract, adapter: Adapter, a: Answers)
    requires tx.status == Verifying
    ensures DecidePlan(tx, c, adapter, a).end == Ok(tx.(status := VerdictEnd(tx, c, adapter, a)))
  {
    VerdictExactly(tx, c);
    var next := DecideVerificationOutcome(tx, c).value;
    if next.status == Compensating { CompensationTrace(next, adapter, a); }
    hide AllConfirmed, SomeRefused, Compensable, CompensatePlan, DecideVerificationOutcome;
  }

  /** The acts from the verdict on, spelled out for each verdict. */
  lemma DecideTrace(tx: Transaction, c: Contract, adapter: Adapter, a: Answers)
    requires tx.status == Verifying
    ensures var next := DecideVerificationOutcome(tx, c).value;
      var decided := [Put(next), Append(tx.id, VerificationDecided(next.status))];
      var acts := DecidePlan(tx, c, adapter, a).acts;
      && (next.status == Committing ==>
            acts == decided
              + Move(next, Committing, if tx.retryCount > 0 then VerifiedAfterRetry else Verified, MoveVerified))
      && (next.status == Compensating ==> acts == decided + CompensatePlan(next, adapter, a).acts)
      && (next.status == UnknownEffect ==>
            acts == decided
              + (Move(next, UnknownEffect, ReconciliationRequired, MoveReconciliation) + [OpenCase(tx.id)]))
      && (next.status == ReconciliationRequired ==> acts == decided + [OpenCase(tx.id)])
  {
    VerdictExactly(tx, c);
    var next := DecideVerificationOutcome(tx, c).value;
    hide AllConfirmed, SomeRefused, Compensable, CompensatePlan, DecideVerificationOutcome;
  }

  // ---------- one verification pass ----------

  predicate IsAsked(check: Check, verifiers: set<string>) { check.WithRule? && check.rule.verifier in verifiers }

  /** How many verifiers the checks ask. */
  function Asked(checks: seq<Check>, verifiers: set<string>): nat {
    if checks == [] then 0
    else Asked(checks[..|checks| - 1], verifiers) + (if IsAsked(checks[|checks| - 1], verifiers) then 1 else 0)
  }

  /** Every verifier that is asked answers: the n-th one with the n-th answer. */
  predicate AllAnswer(checks: seq<Check>, verifiers: set<string>, answers: seq<Option<Observation>>) {
    Asked(checks, verifiers) <= |answers| && forall n | 0 <= n < Asked(checks, verifiers) :: answers[n].Some?
  }

  /** What a check leaves behind: an answer with its own strength or else the rule's, or nothing conclusive. */
  predicate Records(check: Check, verifiers: set<string>, answer: Option<Observation>, o: Observation) {
    match check
    case NoRule(effect) => o == Observation(effect, Inconclusive, 0.0, "no-verifier")
    case WithRule(effect, rule) =>
      var preset := if rule.strength.Some? then rule.strength.value else 0.0;
      if rule.verifier !in verifiers then o == Observation(effect, Inconclusive, preset, "missing:" + rule.verifier)
      else
        && answer.Some? && o.effectId == answer.value.effectId && o.result == answer.value.result
        && o.source == answer.value.source
        && o.strength == if answer.value.strength == 0.0 then preset else answer.value.strength
  }

  /** The answer for check k, if it asks. */
  function AnswerFor(checks: seq<Check>, verifiers: set<string>, answers: seq<Option<Observation>>, k: nat)
    : Option<Observation>
    requires k < |checks|
  {
    var n := Asked(checks[..k], verifiers);
    if IsAsked(checks[k], verifiers) && n < |answers| then answers[n] else None
  }

  /** After a pass: one observation more per check, in order, and nothing else of the transaction changed. */
  ghost predicate PassRecords(
    tx: Transaction, checks: seq<Check>, verifiers: set<string>, answers: seq<Option<Observation>>, next: Transaction)
  {
    && next == tx.(observations := next.observations)
    && |next.observations| == |tx.observations| + |checks|
    && next.observations[..|tx.observations|] == tx.observations
    && forall k | 0 <= k < |checks| ::
         Records(
           checks[k], verifiers, AnswerFor(checks, verifiers, answers, k), next.observations[|tx.observations| + k])
  }

  lemma AskedMore(checks: seq<Check>, check: Check, verifiers: set<string>)
    ensures Asked(checks + [check], verifiers)
      == Asked(checks, verifiers) + (if IsAsked(check, verifiers) then 1 else 0)
  {
    assert (checks + [check])[..|checks|] == checks;
  }

  lemma RecordsMore(
    tx: Transaction, checks: seq<Check>, check: Check, verifiers: set<string>, answers: seq<Option<Observation>>,
    mid: Transaction, o: Observation)
    requires PassRecords(tx, checks, verifiers, answers, mid)
    requires Records(check, verifiers, AnswerFor(checks + [check], verifiers, answers, |checks|), o)
    ensures PassRecords(tx, checks + [check], verifiers, answers, AddObservation(mid, o))
  {
    hide Records;
    var more, next := checks + [check], AddObservation(mid, o);
    forall k | 0 <= k < |more|
      ensures Records(
        more[k], verifiers, AnswerFor(more, verifiers, answers, k), next.observations[|tx.observations| + k])
    {
      assert more[..k] == checks[..k];
      if k < |checks| {
        assert more[k] == checks[k];
        assert AnswerFor(more, verifiers, answers, k) == AnswerFor(checks, verifiers, answers, k);
      }
    }
  }

  lemma {:induction false} PassGoesOnExactly(
    tx: Transaction, checks: seq<Check>, verifiers: set<string>, answers: seq<Option<Observation>>)
    ensures var p := ObserveAll(Progress([], tx, answers, true), checks, verifiers);
      && (p.ok <==> AllAnswer(checks, verifiers, answers))
      && (p.ok ==>
            p.answers == answers[Asked(checks, verifiers)..] && PassRecords(tx, checks, verifiers, answers, p.tx))
  {
    if checks != [] {
      var front, check := checks[..|checks| - 1], checks[|checks| - 1];
      assert checks == front + [check];
      PassGoesOnExactly(tx, front, verifiers, answers);
      AskedMore(front, check, verifiers);
      var p := ObserveAll(Progress([], tx, answers, true), front, verifiers);
      OneCheck(tx, front, check, verifiers, answers, p);
    }
  }

  lemma OneCheck(
    tx: Transaction, front: seq<Check>, check: Check, verifiers: set<string>, answers: seq<Option<Observation>>,
    p: Progress)
    requires p.ok <==> AllAnswer(front, verifiers, answers)
    requires p.ok ==>
      p.answers == answers[Asked(front, verifiers)..] && PassRecords(tx, front, verifiers, answers, p.tx)
    ensures var q, checks := ObserveOne(p, check, verifiers), front + [check];
      && (q.ok <==> AllAnswer(checks, verifiers, answers))
      && (q.ok ==>
            q.answers == answers[Asked(checks, verifiers)..] && PassRecords(tx, checks, verifiers, answers, q.tx))
  {
    hide PassRecords, Asked;
    AskedMore(front, check, verifiers);
    var q, checks := ObserveOne(p, check, verifiers), front + [check];
    assert checks[..|front|] == front && checks[|front|] == check;
    if q.ok {
      var o := q.tx.observations[|q.tx.observations| - 1];
      assert q.tx == AddObservation(p.tx, o);
      RecordsMore(tx, front, check, verifiers, answers, p.tx, o);
    }
  }

  /** The acts of a pass: for each verifier asked its answer, and the event that reports it as given. */
  ghost predicate PassReports(
    id: string, checks: seq<Check>, verifiers: set<string>, answers: seq<Option<Observation>>, acts: seq<Act>)
  {
    && |acts| == 2 * Asked(checks, verifiers)
    && forall k | 0 <= k < |checks| && IsAsked(checks[k], verifiers) ::
         ReportsCheck(id, checks[k], AnswerFor(checks, verifiers, answers, k), acts, Asked(checks[..k], verifiers))
  }

  predicate ReportsCheck(id: string, check: Check, answer: Option<Observation>, acts: seq<Act>, n: nat) {
    && check.WithRule? && answer.Some? && 2 * n + 1 < |acts|
    && acts[2 * n] == Outside(id, VerifierReturned(check.rule.verifier, answer.value))
    && acts[2 * n + 1]
      == Append(id, EffectObserved(check.effect, check.rule.verifier, answer.value.result, answer.value.strength))
  }

  lemma {:induction false} PassReportsExactly(
    tx: Transaction, checks: seq<Check>, verifiers: set<string>, answers: seq<Option<Observation>>)
    ensures var p := ObserveAll(Progress([], tx, answers, true), checks, verifiers);
      p.ok ==> PassReports(tx.id, checks, verifiers, answers, p.acts) && p.tx.id == tx.id
  {
    if checks != [] {
      var front, check := checks[..|checks| - 1], checks[|checks| - 1];
      assert checks == front + [check];
      PassReportsExactly(tx, front, verifiers, answers);
      PassGoesOnExactly(tx, front, verifiers, answers);
      OneReport(tx.id, front, check, verifiers, answers, ObserveAll(Progress([], tx, answers, true), front, verifiers));
    }
  }

  lemma OneReport(
    id: string, front: seq<Check>, check: Check, verifiers: set<string>, answers: seq<Option<Observation>>, p: Progress)
    requires p.ok ==> PassReports(id, front, verifiers, answers, p.acts) && p.tx.id == id
    requires p.ok ==> Asked(front, verifiers) <= |answers| && p.answers == answers[Asked(front, verifiers)..]
    ensures var q := ObserveOne(p, check, verifiers);
      q.ok ==> PassReports(id, front + [check], verifiers, answers, q.acts) && q.tx.id == id
  {
    hide Asked;
    AskedMore(front, check, verifiers);
    var q, checks := ObserveOne(p, check, verifiers), front + [check];
    if q.ok {
      forall k | 0 <= k < |checks| && IsAsked(checks[k], verifiers)
        ensures ReportsCheck(
          id, checks[k], AnswerFor(checks, verifiers, answers, k), q.acts, Asked(checks[..k], verifiers))
      {
        assert checks[..k] == front[..k];
        if k < |front| {
          assert checks[k] == front[k];
          assert ReportsCheck(
            id, front[k], AnswerFor(front, verifiers, answers, k), p.acts, Asked(front[..k], verifiers));
        } else {
          assert front[..k] == front;
        }
      }
    }
  }

  /** Without required verification each effect gets a confirmation of strength 0. */
  predicate AssumedConfirmed(before: seq<Observation>, effects: seq<string>, after: seq<Observation>) {
    && |after| == |before| + |effects| && after[..|before|] == before
    && forall k | 0 <= k < |effects| ::
         after[|before| + k] == Observation(effects[k], EffectConfirmed, 0.0, "verification-not-required")
  }

  lemma {:induction false} UnverifiedRecords(tx: Transaction, effects: seq<string>)
    ensures var next := Unverified(tx, effects);
      next == tx.(observations := next.observations) && AssumedConfirmed(tx.observations, effects, next.observations)
  {
    if effects != [] {
      UnverifiedRecords(tx, effects[..|effects| - 1]);
    }
  }

  /** The pass completes exactly when every verifier that is asked answers, and records what it should. */
  lemma VerifyExactly(tx: Transaction, c: Contract, verifiers: set<string>, a: Answers)
    ensures var p := VerifyPlan(tx, c, verifiers, a);
      var checks := Checks(c, c.effects);
      && (p.end.Ok? <==> c.verificationRequired ==> AllAnswer(checks, verifiers, a.observations))
      && (p.end.Err? ==> p.end == Err(VerifierFailure))
      && (p.end.Ok? && c.verificationRequired ==> PassRecords(tx, checks, verifiers, a.observations, p.end.value))
      && (p.end.Ok? ==> p.end.value == tx.(observations := p.end.value.observations))
  {
    hide ObserveAll, Checks, PassRecords, AllAnswer, Unverified;
    PassGoesOnExactly(tx, Checks(c, c.effects), verifiers, a.observations);
    UnverifiedRecords(tx, c.effects);
    var p := VerifyPlan(tx, c, verifiers, a);
    if p.end.Ok? && c.verificationRequired {
      PassChangesOnlyObservations(tx, Checks(c, c.effects), verifiers, a.observations, p.end.value);
    }
  }

  /** A completed pass reports each answer as it comes, and ends with the one write that stores them. */
  lemma VerifyTrace(tx: Transaction, c: Contract, verifiers: set<string>, a: Answers)
    requires c.verificationRequired ==> AllAnswer(Checks(c, c.effects), verifiers, a.observations)
    ensures var p := VerifyPlan(tx, c, verifiers, a);
      && p.end.Ok? && p.acts != []
      && var n := |p.acts| - 1;
      && p.acts[n] == Put(p.end.value)
      && if c.verificationRequired then PassReports(tx.id, Checks(c, c.effects), verifiers, a.observations, p.acts[..n])
         else n == 0 && AssumedConfirmed(tx.observations, c.effects, p.end.value.observations)
  {
    hide ObserveAll, Checks, PassRecords, AllAnswer, Unverified, PassReports, AssumedConfirmed;
    PassGoesOnExactly(tx, Checks(c, c.effects), verifiers, a.observations);
    PassReportsExactly(tx, Checks(c, c.effects), verifiers, a.observations);
    UnverifiedRecords(tx, c.effects);
    assert VerifyPlan(tx, c, verifiers, a).acts[..|VerifyPlan(tx, c, verifiers, a).acts| - 1] ==
      if c.verificationRequired
      then ObserveAll(Progress([], tx, a.observations, true), Checks(c, c.effects), verifiers).acts else [];
  }

  lemma PassChangesOnlyObservations(
    tx: Transaction, checks: seq<Check>, verifiers: set<string>, answers: seq<Option<Observation>>, next: Transaction)
    requires PassRecords(tx, checks, verifiers, answers, next)
    ensures next == tx.(observations := next.observations)
  {}

  // ---------- a whole run ----------

  predicate HasExecutor(c: Contract, regs: Registries) {
    exists name | name in c.preferred + c.fallback :: name in regs.executors
  }

  /** The first registered name, preferred before fallback. */
  ghost predicate IsFirstExecutor(c: Contract, regs: Registries, name: string, adapter: Adapter) {
    var names := c.preferred + c.fallback;
    exists i | 0 <= i < |names| ::
      && names[i] == name && name in regs.executors && regs.executors[name] == adapter
      && forall j | 0 <= j < i :: names[j] !in regs.executors
  }

  predicate CredentialsReady(c: Contract, a: Answers) { c.credentialRefs == [] || a.credentialsResolve }

  /** What the adapter's part of the run amounts to: an answer of execute, or FAILED. */
  function Reported(tx: Transaction, a: Answers): Outcome {
    if a.validates && a.prepared == Some(tx.proposalHash) && a.executed.Some? then a.executed.value else OutcomeFailed
  }

  function Recorded(outcome: Outcome): ActionStatus {
    match outcome
    case OutcomeExecuted => Executed
    case OutcomeUnknown => EffectUnknown
    case OutcomeFailed => Failed
  }

  /** The row while its new action is executed, and once its outcome is recorded. */
  function WithAction(tx: Transaction, name: string, status: ActionStatus): Transaction {
    tx.(status := Executing, actions := tx.actions + [Action(|tx.actions| + 1, name, status)])
  }

  /** From the stored row to EXECUTING, and the new action recorded. */
  function Opening(tx: Transaction): seq<Act> {
    Move(tx, tx.status, Executing, if tx.status == FailedInfrastructure then MoveRetrying else MoveExecuting)
  }

  /** The execute call and what came back, when validation and preparation let it happen. */
  function Calling(started: Transaction, a: Answers): seq<Act> {
    if a.validates && a.prepared == Some(started.proposalHash) then
      [Outside(started.id, Execute(started, started.proposalHash)),
       Outside(started.id, if a.executed.Some? then ExecuteReturned(a.executed.value) else ExecuteThrew)]
    else []
  }

  /** What follows a recorded outcome. */
  function Following(
    tx: Transaction, c: Contract, regs: Registries, adapter: Adapter, a: Answers, outcome: Outcome): Plan
  {
    match outcome
    case OutcomeFailed =>
      Plan(Move(tx, Executing, FailedInfrastructure, MoveExecutionFailed), Ok(tx.(status := FailedInfrastructure)))
    case OutcomeUnknown =>
      Plan(
        Move(tx, Executing, UnknownEffect, MoveUnknownEffect)
        + (Move(tx, UnknownEffect, ReconciliationRequired, MoveReconciliation) + [OpenCase(tx.id)]),
        Ok(tx.(status := ReconciliationRequired)))
    case OutcomeExecuted =>
      var p := VerifyAndDecidePlan(tx.(status := Verifying), c, regs, adapter, a);
      Plan(Move(tx, Executing, Verifying, MoveVerifying) + p.acts, p.end)
  }

  lemma FollowingTrace(tx: Transaction, c: Contract, regs: Registries, adapter: Adapter, a: Answers, outcome: Outcome)
    requires tx.status == Executing
    ensures AfterOutcomePlan(tx, c, regs, adapter, a, outcome) == Following(tx, c, regs, adapter, a, outcome)
  {
    hide VerifyAndDecidePlan;
    var unknown := tx.(status := UnknownEffect);
    assert unknown.(status := ReconciliationRequired) == tx.(status := ReconciliationRequired);
  }

  lemma NoExecutorTrace(tx: Transaction, c: Contract, regs: Registries, a: Answers)
    requires tx.status in {Ready, FailedInfrastructure} && !HasExecutor(c, regs)
    ensures var failed := tx.(status := FailedInfrastructure);
      RunPlan(tx, c, regs, a)
        == Plan(Opening(tx) + Move(tx, Executing, FailedInfrastructure, MoveNoExecutor), Ok(failed))
  {
    SelectFindsFirst(c.preferred + c.fallback, regs.executors);
    hide Select;
    var executing := tx.(status := Executing);
    assert executing.(status := FailedInfrastructure) == tx.(status := FailedInfrastructure);
  }

  lemma FirstExecutorIsSelected(c: Contract, regs: Registries, name: string, adapter: Adapter)
    requires IsFirstExecutor(c, regs, name, adapter)
    ensures Select(c.preferred + c.fallback, regs.executors) == Some(Selection(name, adapter))
  {
    var names := c.preferred + c.fallback;
    SelectFindsFirst(names, regs.executors);
    hide Select;
    var i :| 0 <= i < |names| && names[i] == name && name in regs.executors && regs.executors[name] == adapter
      && forall j | 0 <= j < i :: names[j] !in regs.executors;
    assert names[i] in names;
  }

  /** Recording the outcome, and what follows. */
  function Settling(tx: Transaction, c: Contract, regs: Registries, adapter: Adapter, a: Answers, name: string): Plan {
    var outcome := Reported(tx, a);
    var finished := WithAction(tx, name, Recorded(outcome));
    var rest := Following(finished, c, regs, adapter, a, outcome);
    Plan([Put(finished), Append(tx.id, ActionFinished(name, outcome))] + rest.acts, rest.end)
  }

  lemma SettleTrace(tx: Transaction, c: Contract, regs: Registries, adapter: Adapter, a: Answers, name: string)
    requires Numbered(tx.actions)
    ensures var started := WithAction(tx, name, ActionExecuting);
      SettlePlan(started, c, regs, Selection(name, adapter), a, Reported(tx, a))
        == Settling(tx, c, regs, adapter, a, name)
  {
    var outcome := Reported(tx, a);
    ActionIsFinished(tx, name, outcome);
    FollowingTrace(WithAction(tx, name, Recorded(outcome)), c, regs, adapter, a, outcome);
    hide Following, AfterOutcomePlan, FinishAction;
  }

  lemma AttemptTrace(tx: Transaction, c: Contract, regs: Registries, a: Answers, name: string, adapter: Adapter)
    requires Numbered(tx.actions) && IsFirstExecutor(c, regs, name, adapter)
    ensures var started := WithAction(tx, name, ActionExecuting);
      var settled := Settling(tx, c, regs, adapter, a, name);
      AttemptPlan(tx.(status := Executing), c, regs, a) ==
        if CredentialsReady(c, a) then Plan([Put(started)] + (Calling(started, a) + settled.acts), settled.end)
        else Plan([Put(started)], Err(CredentialFailure))
  {
    FirstExecutorIsSelected(c, regs, name, adapter);
    SettleTrace(tx, c, regs, adapter, a, name);
    var started := WithAction(tx, name, ActionExecuting);
    assert started == StartedAction(tx.(status := Executing), name);
    assert ExecuteOutcome(started, a) == Reported(tx, a) && ExecuteActs(started, a) == Calling(started, a);
    hide Select, Settling, SettlePlan, ExecuteActs, ExecuteOutcome, Calling, Reported, IsFirstExecutor;
  }

  /** A run with an executor, act by act. */
  lemma ExecutorTrace(tx: Transaction, c: Contract, regs: Registries, a: Answers, name: string, adapter: Adapter)
    requires tx.status in {Ready, FailedInfrastructure} && Numbered(tx.actions)
    requires IsFirstExecutor(c, regs, name, adapter)
    ensures var started := WithAction(tx, name, ActionExecuting);
      var settled := Settling(tx, c, regs, adapter, a, name);
      RunPlan(tx, c, regs, a) ==
        if CredentialsReady(c, a) then
          Plan(Opening(tx) + ([Put(started)] + (Calling(started, a) + settled.acts)), settled.end)
        else Plan(Opening(tx) + [Put(started)], Err(CredentialFailure))
  {
    hide AttemptPlan, Settling, Calling, IsFirstExecutor, CredentialsReady, Numbered;
    AttemptTrace(tx, c, regs, a, name, adapter);
    MoveTrace(tx, Executing, if tx.status == FailedInfrastructure then MoveRetrying else MoveExecuting);
    hide MovePlan;
  }

  lemma ActionIsFinished(tx: Transaction, name: string, outcome: Outcome)
    requires Numbered(tx.actions)
    ensures var started := WithAction(tx, name, ActionExecuting);
      FinishAction(started, |started.actions|, outcome) == WithAction(tx, name, Recorded(outcome))
  {
    var started := WithAction(tx, name, ActionExecuting);
    FinishedLast(started.actions, Recorded(outcome));
    assert started.actions[..|tx.actions|] == tx.actions;
  }

  // ---------- when the adapter is executed ----------

  predicate Executes(act: Act) { act.Outside? && act.call.Execute? }

  predicate CallsExecute(acts: seq<Act>) { exists act | act in acts :: Executes(act) }

  lemma CallsExecuteConcat(a: seq<Act>, b: seq<Act>)
    ensures CallsExecute(a + b) <==> CallsExecute(a) || CallsExecute(b)
  {}

  lemma {:induction false} PassNeverExecutes(p: Progress, checks: seq<Check>, verifiers: set<string>)
    requires !CallsExecute(p.acts)
    ensures !CallsExecute(ObserveAll(p, checks, verifiers).acts)
  {
    if checks != [] {
      PassNeverExecutes(p, checks[..|checks| - 1], verifiers);
    }
  }

  lemma VerdictNeverExecutes(tx: Transaction, c: Contract, adapter: Adapter, a: Answers)
    requires tx.status == Verifying
    ensures !CallsExecute(DecidePlan(tx, c, adapter, a).acts)
  {
    VerdictExactly(tx, c);
    DecideTrace(tx, c, adapter, a);
    var next := DecideVerificationOutcome(tx, c).value;
    if next.status == Compensating { CompensationTrace(next, adapter, a); }
    hide DecidePlan, CompensatePlan, DecideVerificationOutcome, AllConfirmed, SomeRefused, Compensable;
  }

  lemma VerificationNeverExecutes(tx: Transaction, c: Contract, regs: Registries, adapter: Adapter, a: Answers)
    requires tx.status == Verifying
    ensures !CallsExecute(VerifyAndDecidePlan(tx, c, regs, adapter, a).acts)
  {
    hide ObserveAll, Checks, DecidePlan, Unverified;
    PassNeverExecutes(Progress([], tx, a.observations, true), Checks(c, c.effects), regs.verifiers);
    VerifyExactly(tx, c, regs.verifiers, a);
    var v := VerifyPlan(tx, c, regs.verifiers, a);
    if v.end.Ok? {
      VerdictNeverExecutes(v.end.value, c, adapter, a);
      CallsExecuteConcat(v.acts, DecidePlan(v.end.value, c, adapter, a).acts);
    }
  }

  lemma FollowingNeverExecutes(
    tx: Transaction, c: Contract, regs: Registries, adapter: Adapter, a: Answers, outcome: Outcome)
    ensures !CallsExecute(Following(tx, c, regs, adapter, a, outcome).acts)
  {
    hide VerifyAndDecidePlan;
    VerificationNeverExecutes(tx.(status := Verifying), c, regs, adapter, a);
    CallsExecuteConcat(
      Move(tx, Executing, Verifying, MoveVerifying),
      VerifyAndDecidePlan(tx.(status := Verifying), c, regs, adapter, a).acts);
  }

  lemma SomeFirstExecutor(c: Contract, regs: Registries) returns (name: string, adapter: Adapter)
    requires HasExecutor(c, regs)
    ensures IsFirstExecutor(c, regs, name, adapter)
  {
    var names := c.preferred + c.fallback;
    SelectFindsFirst(names, regs.executors);
    hide Select;
    var selection := Select(names, regs.executors);
    name, adapter := selection.value.name, selection.value.adapter;
  }

  /**
    A run calls execute exactly when a listed executor is registered, credentials resolve or none are
    listed, validation passes, and the prepared hash is the approved one.
   */
  lemma ExecuteCalledExactly(tx: Transaction, c: Contract, regs: Registries, a: Answers)
    requires tx.status in {Ready, FailedInfrastructure} && Numbered(tx.actions)
    ensures CallsExecute(RunPlan(tx, c, regs, a).acts) <==>
      && (exists name | name in c.preferred + c.fallback :: name in regs.executors)
      && (c.credentialRefs == [] || a.credentialsResolve)
      && a.validates && a.prepared == Some(tx.proposalHash)
  {
    hide RunPlan, Settling;
    if HasExecutor(c, regs) {
      var name, adapter := SomeFirstExecutor(c, regs);
      ExecutorTrace(tx, c, regs, a, name, adapter);
      var started := WithAction(tx, name, ActionExecuting);
      CallingExecutesExactly(started, a);
      SettlingNeverExecutes(tx, c, regs, adapter, a, name);
      CallsExecuteConcat(Calling(started, a), Settling(tx, c, regs, adapter, a, name).acts);
      CallsExecuteConcat([Put(started)], Calling(started, a) + Settling(tx, c, regs, adapter, a, name).acts);
      CallsExecuteConcat(
        Opening(tx), [Put(started)] + (Calling(started, a) + Settling(tx, c, regs, adapter, a, name).acts));
    } else {
      NoExecutorTrace(tx, c, regs, a);
    }
  }

  lemma CallingExecutesExactly(started: Transaction, a: Answers)
    ensures CallsExecute(Calling(started, a)) <==> a.validates && a.prepared == Some(started.proposalHash)
  {
    if a.validates && a.prepared == Some(started.proposalHash) { assert Executes(Calling(started, a)[0]); }
  }

  lemma SettlingNeverExecutes(
    tx: Transaction, c: Contract, regs: Registries, adapter: Adapter, a: Answers, name: string)
    ensures !CallsExecute(Settling(tx, c, regs, adapter, a, name).acts)
  {
    hide Following;
    var outcome := Reported(tx, a);
    var finished := WithAction(tx, name, Recorded(outcome));
    FollowingNeverExecutes(finished, c, regs, adapter, a, outcome);
    CallsExecuteConcat(
      [Put(finished), Append(tx.id, ActionFinished(name, outcome))],
      Following(finished, c, regs, adapter, a, outcome).acts);
  }

  // ---------- where a run ends ----------

  /** What an executed run ends with: its action recorded, its observations, and the status they decide. */
  ghost predicate EndsExecuted(
    tx: Transaction, c: Contract, regs: Registries, adapter: Adapter, a: Answers, name: string, end: Transaction)
  {
    var compensated := SomeRefused(c, end.observations) && Compensable(c) && adapter.compensates
      && a.compensated == Some(OutcomeExecuted);
    && end == WithAction(tx, name, Executed).(status := end.status, observations := end.observations)
    && (end.status == (if tx.retryCount > 0 then VerifiedAfterRetry else Verified) <==>
          AllConfirmed(c, end.observations))
    && (end.status == Compensated <==> compensated)
    && (end.status == ReconciliationRequired <==> !AllConfirmed(c, end.observations) && !compensated)
    && (c.verificationRequired ==>
          PassRecords(
            tx, Checks(c, c.effects), regs.verifiers, a.observations,
            tx.(observations := end.observations)))
    && (!c.verificationRequired ==> AssumedConfirmed(tx.observations, c.effects, end.observations))
  }

  lemma ObservationsAlone(
    tx: Transaction, u: Transaction, checks: seq<Check>, verifiers: set<string>, answers: seq<Option<Observation>>,
    next: Transaction)
    requires PassRecords(u, checks, verifiers, answers, next) && u.observations == tx.observations
    ensures PassRecords(tx, checks, verifiers, answers, tx.(observations := next.observations))
  {
    hide Records, Asked;
  }

  lemma ExecutedEnds(
    tx: Transaction, c: Contract, regs: Registries, adapter: Adapter, a: Answers, name: string)
    ensures var verifying := WithAction(tx, name, Executed).(status := Verifying);
      var end := VerifyAndDecidePlan(verifying, c, regs, adapter, a).end;
      && (end == Err(VerifierFailure) <==>
            c.verificationRequired && !AllAnswer(Checks(c, c.effects), regs.verifiers, a.observations))
      && (end.Ok? || end == Err(VerifierFailure))
      && (end.Ok? ==> EndsExecuted(tx, c, regs, adapter, a, name, end.value))
  {
    hide ObserveAll, Checks, DecidePlan, PassRecords, AllAnswer, Unverified, AllConfirmed, SomeRefused, Compensable;
    hide AssumedConfirmed;
    var verifying := WithAction(tx, name, Executed).(status := Verifying);
    VerifyExactly(verifying, c, regs.verifiers, a);
    var v := VerifyPlan(verifying, c, regs.verifiers, a);
    if v.end.Ok? {
      var observed := v.end.value;
      DecideEnds(observed, c, adapter, a);
      ConfirmedIsNotRefused(c, observed.observations);
      if c.verificationRequired {
        ObservationsAlone(tx, verifying, Checks(c, c.effects), regs.verifiers, a.observations, observed);
      } else {
        UnverifiedRecords(verifying, c.effects);
      }
    }
  }

  /** The end of an attempt whose adapter was asked, by what it reported. */
  ghost predicate EndsAsReported(
    tx: Transaction, c: Contract, regs: Registries, adapter: Adapter, a: Answers, name: string,
    end: Result<Transaction>)
  {
    match Reported(tx, a)
    case OutcomeFailed => end == Ok(WithAction(tx, name, Failed).(status := FailedInfrastructure))
    case OutcomeUnknown => end == Ok(WithAction(tx, name, EffectUnknown).(status := ReconciliationRequired))
    case OutcomeExecuted =>
      && (end == Err(VerifierFailure) <==>
            c.verificationRequired && !AllAnswer(Checks(c, c.effects), regs.verifiers, a.observations))
      && (end.Ok? || end == Err(VerifierFailure))
      && (end.Ok? ==> EndsExecuted(tx, c, regs, adapter, a, name, end.value))
  }

  lemma SettlingEnds(tx: Transaction, c: Contract, regs: Registries, adapter: Adapter, a: Answers, name: string)
    ensures EndsAsReported(tx, c, regs, adapter, a, name, Settling(tx, c, regs, adapter, a, name).end)
  {
    ExecutedEnds(tx, c, regs, adapter, a, name);
    hide VerifyAndDecidePlan, EndsExecuted, AllAnswer, Checks, Reported;
  }

  /** How a run ends, in every case. */
  lemma RunEndsExactly(tx: Transaction, c: Contract, regs: Registries, a: Answers, name: string, adapter: Adapter)
    requires tx.status in {Ready, FailedInfrastructure} && Numbered(tx.actions)
    requires HasExecutor(c, regs) ==> IsFirstExecutor(c, regs, name, adapter)
    ensures var end := RunPlan(tx, c, regs, a).end;
      if !HasExecutor(c, regs) then end == Ok(tx.(status := FailedInfrastructure))
      else if !CredentialsReady(c, a) then end == Err(CredentialFailure)
      else EndsAsReported(tx, c, regs, adapter, a, name, end)
  {
    hide RunPlan, Settling, EndsAsReported, HasExecutor, IsFirstExecutor, Numbered, Calling;
    if HasExecutor(c, regs) {
      ExecutorTrace(tx, c, regs, a, name, adapter);
      SettlingEnds(tx, c, regs, adapter, a, name);
    } else {
      NoExecutorTrace(tx, c, regs, a);
    }
  }

  // ---------- of every stored transaction ----------

  /** A run on a stored transaction starts with what the lemmas above ask for. */
  lemma StoredRowRuns(ops: seq<Op>, id: string, tenantId: string, regs: Registries, a: Answers)
    requires Admissible(ops) && GetTransaction(SystemAfter(ops).state, id, tenantId).Ok?
    ensures var s := SystemAfter(ops).state;
      var tx := s.transactions[id];
      var key := ContractKey(tenantId, tx.contractName, tx.contractVersion);
      && key in s.contracts && EnginePlan(s, id, tenantId, regs, a) == RunPlan(tx, s.contracts[key], regs, a)
      && Numbered(tx.actions) && tx.retryCount == 0
      && (tx.status in {Ready, FailedInfrastructure} ==> tx.observations == [])
  {
    hide SystemAfter, LaneHolds, ContractHash, ProposalHash, Cleared, PhaseOf, RunPlan, Summarize, ConfirmationsSourced;
    var s := SystemAfter(ops);
    RowHolds(ops, id);
    HeldRow(LaneOf(s, id), s.state.contracts);
  }

  /**
    In every history a run on a READY or FAILED_INFRASTRUCTURE transaction calls execute exactly under these
    conditions; the new action then records the adapter's answer, and FAILED when it has none or was not called.
   */
  lemma StoredRunExecutesExactly(ops: seq<Op>, id: string, tenantId: string, regs: Registries, a: Answers)
    requires Admissible(ops) && GetTransaction(SystemAfter(ops).state, id, tenantId).Ok?
    requires SystemAfter(ops).state.transactions[id].status in {Ready, FailedInfrastructure}
    ensures var s := SystemAfter(ops).state;
      var tx := s.transactions[id];
      var key := ContractKey(tenantId, tx.contractName, tx.contractVersion);
      && key in s.contracts
      && var c := s.contracts[key];
      var p := EnginePlan(s, id, tenantId, regs, a);
      var registered := exists name | name in c.preferred + c.fallback :: name in regs.executors;
      var ready := c.credentialRefs == [] || a.credentialsResolve;
      var called := a.validates && a.prepared == Some(tx.proposalHash);
      && ((exists act | act in p.acts :: act.Outside? && act.call.Execute?) <==> registered && ready && called)
      && (registered && ready && (!called || a.executed.None?) ==>
            p.end.Ok? && p.end.value.status == FailedInfrastructure && LastActionIs(p.end.value, Failed))
      && (registered && ready && called && a.executed.Some? && p.end.Ok? ==>
            LastActionIs(p.end.value, Recorded(a.executed.value)))
  {
    hide SystemAfter, RunPlan, AllConfirmed, SomeRefused, PassRecords, AllAnswer, Checks, Unverified;
    StoredRowRuns(ops, id, tenantId, regs, a);
    var s := SystemAfter(ops).state;
    var tx := s.transactions[id];
    var c := s.contracts[ContractKey(tenantId, tx.contractName, tx.contractVersion)];
    ExecuteCalledExactly(tx, c, regs, a);
    if HasExecutor(c, regs) {
      var name, adapter := SomeFirstExecutor(c, regs);
      RunEndsExactly(tx, c, regs, a, name, adapter);
    }
  }

  /** From UNKNOWN_EFFECT a run only moves on to reconciliation and opens the case; from elsewhere it does nothing. */
  lemma OtherRuns(tx: Transaction, c: Contract, regs: Registries, a: Answers)
    requires tx.status !in {Ready, FailedInfrastructure}
    ensures RunPlan(tx, c, regs, a) ==
      if tx.status == UnknownEffect then
        Plan(
          Move(tx, UnknownEffect, ReconciliationRequired, MoveReconciliation) + [OpenCase(tx.id)],
          Ok(tx.(status := ReconciliationRequired)))
      else Plan([], Ok(tx))
  {
    if tx.status == UnknownEffect { MoveTrace(tx, ReconciliationRequired, MoveReconciliation); }
    hide MovePlan, AttemptPlan;
  }

  predicate LastActionIs(tx: Transaction, status: ActionStatus) {
    tx.actions != [] && tx.actions[|tx.actions| - 1].status == status
  }

  /**
    In every history an executed run whose verification completes ends VERIFIED exactly when every expected
    effect has a confirmation of sufficient strength, COMPENSATED exactly when one was refused and the adapter
    undid it, and otherwise in reconciliation.
   */
  lemma ExecutedRunIsVerifiedExactly(
    ops: seq<Op>, id: string, tenantId: string, regs: Registries, a: Answers, name: string, adapter: Adapter)
    requires Admissible(ops) && GetTransaction(SystemAfter(ops).state, id, tenantId).Ok?
    requires SystemAfter(ops).state.transactions[id].status in {Ready, FailedInfrastructure}
    requires a.validates && a.prepared == Some(SystemAfter(ops).state.transactions[id].proposalHash)
    requires a.executed == Some(OutcomeExecuted)
    requires var s := SystemAfter(ops).state;
      var tx := s.transactions[id];
      var key := ContractKey(tenantId, tx.contractName, tx.contractVersion);
      key in s.contracts ==>
        IsFirstExecutor(s.contracts[key], regs, name, adapter) && CredentialsReady(s.contracts[key], a)
    ensures var s := SystemAfter(ops).state;
      var tx := s.transactions[id];
      var key := ContractKey(tenantId, tx.contractName, tx.contractVersion);
      && key in s.contracts
      && var c := s.contracts[key];
      var end := EnginePlan(s, id, tenantId, regs, a).end;
      && (end.Err? <==> c.verificationRequired && !AllAnswer(Checks(c, c.effects), regs.verifiers, a.observations))
      && (end.Ok? ==>
            var undone := SomeRefused(c, end.value.observations) && Compensable(c) && adapter.compensates
              && a.compensated == Some(OutcomeExecuted);
            && (end.value.status == Verified <==> AllConfirmed(c, end.value.observations))
            && (end.value.status == Compensated <==> undone)
            && (end.value.status == ReconciliationRequired <==> !AllConfirmed(c, end.value.observations) && !undone)
            && (c.verificationRequired ==> |end.value.observations| == |Checks(c, c.effects)|))
  {
    hide SystemAfter, RunPlan, AllConfirmed, SomeRefused, AllAnswer, Checks, Unverified;
    StoredRowRuns(ops, id, tenantId, regs, a);
    var s := SystemAfter(ops).state;
    var tx := s.transactions[id];
    var c := s.contracts[ContractKey(tenantId, tx.contractName, tx.contractVersion)];
    FirstIsRegistered(c, regs, name, adapter);
    RunEndsExactly(tx, c, regs, a, name, adapter);
  }

  lemma FirstIsRegistered(c: Contract, regs: Registries, name: string, adapter: Adapter)
    requires IsFirstExecutor(c, regs, name, adapter)
    ensures HasExecutor(c, regs)
  {
    var names := c.preferred + c.fallback;
    var i :| 0 <= i < |names| && names[i] == name && name in regs.executors && regs.executors[name] == adapter
      && forall j | 0 <= j < i :: names[j] !in regs.executors;
    assert names[i] in names;
  }
}
