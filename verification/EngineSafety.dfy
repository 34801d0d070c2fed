/** Verification passes, executions and whole runs of the engine are safe on their lane. */
module EngineSafety {
  import opened Wrappers
  import opened Domain
  import opened StateMachine
  import opened Verification
  import opened CoreRuntime
  import opened Store
  import opened Plans
  import opened Lanes
  import opened RunSafety

  // ---------- the verification pass ----------

  lemma VerifierAnswerIsSafe(
    l: Lane, contracts: map<ContractKey, Contract>, tx: Transaction, verifier: string, o: Observation, event: Event)
    requires AtRest(l, contracts, tx) && tx.status == Verifying && event.EffectObserved?
    ensures var acts := [Outside(tx.id, VerifierReturned(verifier, o)), Append(tx.id, event)];
      && Safe(l, contracts, acts) && AtRest(After(l, acts), contracts, tx)
      && After(l, acts).calls == l.calls + [VerifierReturned(verifier, o)]
      && After(l, acts).caseOpen == l.caseOpen
  {
    hide LaneHolds, OnTrack, Safe, After;
    var call := VerifierReturned(verifier, o);
    QuietCallIsSafe(l, contracts, tx, call);
    var mid := l.(calls := l.calls + [call]);
    NoteIsSafe(mid, contracts, tx, event);
    SafeConcat(l, contracts, [Outside(tx.id, call)], [Append(tx.id, event)]);
    assert [Outside(tx.id, call)] + [Append(tx.id, event)] == [Outside(tx.id, call), Append(tx.id, event)];
  }

  ghost predicate UsesRulesOf(checks: seq<Check>, c: Contract) {
    forall check | check in checks && check.WithRule? :: check.rule in c.rules
  }

  lemma {:induction false} RuleChecksUseRules(rules: seq<Rule>, effect: string)
    ensures forall check | check in RuleChecks(rules, effect) :: check.WithRule? && check.rule in rules
  {
    if rules != [] {
      RuleChecksUseRules(rules[..|rules| - 1], effect);
    }
  }

  lemma {:induction false} ChecksUseRules(c: Contract, effects: seq<string>)
    ensures UsesRulesOf(Checks(c, effects), c)
  {
    if effects != [] {
      ChecksUseRules(c, effects[..|effects| - 1]);
      RuleChecksUseRules(c.rules, effects[|effects| - 1]);
    }
  }

  /** A pass under way: the table row is still tx, the observations are kept in memory and are all sourced. */
  ghost predicate Observing(l: Lane, contracts: map<ContractKey, Contract>, tx: Transaction, p: Progress) {
    && Safe(l, contracts, p.acts) && AtRest(After(l, p.acts), contracts, tx)
    && After(l, p.acts).caseOpen == l.caseOpen
    && p.tx == tx.(observations := p.tx.observations)
    && KeyOf(tx) in contracts
    && ConfirmationsSourced(contracts[KeyOf(tx)], p.tx.observations, After(l, p.acts).calls)
  }

  lemma AddUnconfirmed(c: Contract, observations: seq<Observation>, o: Observation, calls: seq<Call>)
    requires ConfirmationsSourced(c, observations, calls) && (o.result != EffectConfirmed || Sourced(c, o, calls))
    ensures ConfirmationsSourced(c, observations + [o], calls)
  {
    hide Sourced;
  }

  lemma AnswerIsSourced(c: Contract, rule: Rule, o: Observation, calls: seq<Call>)
    requires c.verificationRequired && rule in c.rules && VerifierReturned(rule.verifier, o) in calls
    ensures Sourced(c, Adjusted(o, rule), calls)
  {}

  lemma ObserveOneIsSafe(
    l: Lane, contracts: map<ContractKey, Contract>, tx: Transaction, p: Progress, check: Check, verifiers: set<string>)
    requires Observing(l, contracts, tx, p) && tx.status == Verifying
    requires contracts[KeyOf(tx)].verificationRequired
    requires check.WithRule? ==> check.rule in contracts[KeyOf(tx)].rules
    ensures Observing(l, contracts, tx, ObserveOne(p, check, verifiers))
  {
    hide Safe, AtRest, After, Sourced, ConfirmationsSourced, Adjusted;
    var q := ObserveOne(p, check, verifiers);
    var c, mid := contracts[KeyOf(tx)], After(l, p.acts);
    if q.acts == p.acts {
      if q.tx != p.tx {
        AddUnconfirmed(c, p.tx.observations, q.tx.observations[|p.tx.observations|], mid.calls);
      }
    } else {
      var o := p.answers[0].value;
      var event := EffectObserved(check.effect, check.rule.verifier, o.result, o.strength);
      var more := [Outside(tx.id, VerifierReturned(check.rule.verifier, o)), Append(tx.id, event)];
      VerifierAnswerIsSafe(mid, contracts, tx, check.rule.verifier, o, event);
      SafeConcat(l, contracts, p.acts, more);
      SourcedKeeps(c, p.tx.observations, mid.calls, After(mid, more).calls);
      AnswerIsSourced(c, check.rule, o, After(mid, more).calls);
      AddUnconfirmed(c, p.tx.observations, Adjusted(o, check.rule), After(mid, more).calls);
    }
  }

  lemma {:induction false} ObserveAllIsSafe(
    l: Lane, contracts: map<ContractKey, Contract>, tx: Transaction, p: Progress, checks: seq<Check>,
    verifiers: set<string>)
    requires Observing(l, contracts, tx, p) && tx.status == Verifying
    requires contracts[KeyOf(tx)].verificationRequired && UsesRulesOf(checks, contracts[KeyOf(tx)])
    ensures Observing(l, contracts, tx, ObserveAll(p, checks, verifiers))
    decreases |checks|
  {
    hide Observing, ObserveOne;
    if checks != [] {
      var front := checks[..|checks| - 1];
      ObserveAllIsSafe(l, contracts, tx, p, front, verifiers) by {
        assert forall check | check in front :: check in checks;
        ContractStays(l, contracts, tx, p);
      }
      ContractStays(l, contracts, tx, p);
      ObserveOneIsSafe(l, contracts, tx, ObserveAll(p, front, verifiers), checks[|checks| - 1], verifiers);
    }
  }

  lemma ContractStays(l: Lane, contracts: map<ContractKey, Contract>, tx: Transaction, p: Progress)
    requires Observing(l, contracts, tx, p)
    ensures KeyOf(tx) in contracts
  {
    hide Safe, AtRest, After;
  }

  lemma {:induction false} UnverifiedFacts(tx: Transaction, effects: seq<string>)
    ensures var next := Unverified(tx, effects);
      && next == tx.(observations := next.observations)
      && forall o | o in next.observations :: o in tx.observations
           || (o.strength == 0.0 && o.source == "verification-not-required" && o.effectId in effects)
  {
    if effects != [] {
      UnverifiedFacts(tx, effects[..|effects| - 1]);
    }
  }

  lemma VerifyingRow(l: Lane, contracts: map<ContractKey, Contract>, tx: Transaction)
    requires AtRest(l, contracts, tx) && tx.status == Verifying
    ensures KeyOf(tx) in contracts && !l.caseOpen && ActionsFit(tx, l.calls)
    ensures ConfirmationsSourced(contracts[KeyOf(tx)], tx.observations, l.calls)
  {
    hide AtRest, ActionsFit, ConfirmationsSourced, Disciplined, RowFits, Summarize;
    RestFacts(l, contracts, tx);
  }

  /** The one store write at the end of a pass. */
  lemma StoreObservations(l: Lane, contracts: map<ContractKey, Contract>, tx: Transaction, next: Transaction)
    requires AtRest(l, contracts, tx) && tx.status == Verifying && next == tx.(observations := next.observations)
    requires KeyOf(tx) in contracts && ConfirmationsSourced(contracts[KeyOf(tx)], next.observations, l.calls)
    ensures Carries(l, contracts, Plan([Put(next)], Ok(next))) && AtRest(After(l, [Put(next)]), contracts, next)
    ensures After(l, [Put(next)]).caseOpen == l.caseOpen
  {
    hide LaneHolds, OnTrack, Safe, After, ActionsFit, ObservationsFit, ConfirmationsSourced;
    VerifyingRow(l, contracts, tx);
    ActionsFitIgnoresObservations(tx, next, l.calls);
    SourcedFitWhileVerifying(next, contracts[KeyOf(tx)], l.calls);
    RewriteIsSafe(l, contracts, tx, next);
  }

  lemma SourcedFitWhileVerifying(tx: Transaction, c: Contract, calls: seq<Call>)
    requires tx.status == Verifying && ConfirmationsSourced(c, tx.observations, calls)
    ensures ObservationsFit(tx, c, calls)
  {
    hide ConfirmationsSourced, Summarize;
  }

  lemma ActionsFitIgnoresObservations(tx: Transaction, next: Transaction, calls: seq<Call>)
    requires ActionsFit(tx, calls) && next.actions == tx.actions && next.status == tx.status
    ensures ActionsFit(next, calls)
  {
    hide PhaseOf, Numbered, AllFailed;
  }

  lemma VerifyIsSafe(
    l: Lane, contracts: map<ContractKey, Contract>, tx: Transaction, verifiers: set<string>, a: Answers)
    requires AtRest(l, contracts, tx) && tx.status == Verifying
    ensures KeyOf(tx) in contracts
    ensures var p := VerifyPlan(tx, contracts[KeyOf(tx)], verifiers, a);
      && Carries(l, contracts, p)
      && (p.end.Ok? ==>
            (AtRest(After(l, p.acts), contracts, p.end.value)
             && p.end.value.status == Verifying && KeyOf(p.end.value) == KeyOf(tx)))
      && (p.end.Err? ==> p.end.error == VerifierFailure)
  {
    VerifyingRow(l, contracts, tx);
    var c := contracts[KeyOf(tx)];
    if !c.verificationRequired {
      UncheckedPassIsSafe(l, contracts, tx);
    } else {
      CheckedPassIsSafe(l, contracts, tx, verifiers, a);
    }
  }

  lemma UncheckedPassIsSafe(l: Lane, contracts: map<ContractKey, Contract>, tx: Transaction)
    requires AtRest(l, contracts, tx) && tx.status == Verifying
    requires KeyOf(tx) in contracts && !contracts[KeyOf(tx)].verificationRequired
    ensures var next := Unverified(tx, contracts[KeyOf(tx)].effects);
      && next == tx.(observations := next.observations)
      && Carries(l, contracts, Plan([Put(next)], Ok(next))) && AtRest(After(l, [Put(next)]), contracts, next)
  {
    var c := contracts[KeyOf(tx)];
    var next := Unverified(tx, c.effects);
    VerifyingRow(l, contracts, tx);
    UnverifiedFacts(tx, c.effects);
    hide AtRest, Carries, After, Unverified;
    forall o | o in next.observations && o.result == EffectConfirmed ensures Sourced(c, o, l.calls) {}
    StoreObservations(l, contracts, tx, next);
  }

  lemma CheckedPassIsSafe(
    l: Lane, contracts: map<ContractKey, Contract>, tx: Transaction, verifiers: set<string>, a: Answers)
    requires AtRest(l, contracts, tx) && tx.status == Verifying
    requires KeyOf(tx) in contracts && contracts[KeyOf(tx)].verificationRequired
    ensures var p := VerifyPlan(tx, contracts[KeyOf(tx)], verifiers, a);
      && Carries(l, contracts, p)
      && (p.end.Ok? ==>
            (AtRest(After(l, p.acts), contracts, p.end.value)
             && p.end.value.status == Verifying && KeyOf(p.end.value) == KeyOf(tx)))
      && (p.end.Err? ==> p.end.error == VerifierFailure)
  {
    var c := contracts[KeyOf(tx)];
    var start := Progress([], tx, a.observations, true);
    var q := ObserveAll(start, Checks(c, c.effects), verifiers);
    VerifyingRow(l, contracts, tx);
    assert Observing(l, contracts, tx, start) by {
      hide Safe, ConfirmationsSourced;
    }
    ChecksUseRules(c, c.effects);
    hide ObserveAll, AtRest, After, Safe, Checks, ConfirmationsSourced;
    ObserveAllIsSafe(l, contracts, tx, start, Checks(c, c.effects), verifiers);
    if q.ok {
      var mid := After(l, q.acts);
      StoreObservations(mid, contracts, tx, q.tx);
      assert Carries(l, contracts, Plan(q.acts, Ok(tx))) by {
        AtRestIsSafe(mid, contracts, tx);
      }
      CarriesChain(l, contracts, Plan(q.acts, Ok(tx)), Plan([Put(q.tx)], Ok(q.tx)));
    } else {
      AtRestIsSafe(After(l, q.acts), contracts, tx);
    }
  }

  lemma AtRestIsSafe(l: Lane, contracts: map<ContractKey, Contract>, tx: Transaction)
    requires AtRest(l, contracts, tx)
    ensures Safe(l, contracts, []) && l.row == Some(tx)
  {
    hide Safe;
  }

  /** The whole plan keeps the lane safe, and ends well when it returns. */
  ghost predicate Completes(l: Lane, contracts: map<ContractKey, Contract>, p: Plan) {
    && Carries(l, contracts, p)
    && (if p.end.Ok? then RunEnded(After(l, p.acts), p.end.value)
        else p.end.error in {CredentialFailure, VerifierFailure})
  }

  lemma CompletesChain(l: Lane, contracts: map<ContractKey, Contract>, p: Plan, q: Plan)
    requires Carries(l, contracts, p) && Completes(After(l, p.acts), contracts, q)
    ensures Completes(l, contracts, Chain(p, q))
  {
    hide Carries, After, RunEnded;
    CarriesChain(l, contracts, p, q);
  }

  lemma VerifyAndDecideIsSafe(
    l: Lane, contracts: map<ContractKey, Contract>, tx: Transaction, regs: Registries, adapter: Adapter, a: Answers)
    requires AtRest(l, contracts, tx) && tx.status == Verifying
    ensures KeyOf(tx) in contracts
    ensures Completes(l, contracts, VerifyAndDecidePlan(tx, contracts[KeyOf(tx)], regs, adapter, a))
  {
    hide AtRest, Carries, After, VerifyPlan, DecidePlan, RunEnded;
    VerifyIsSafe(l, contracts, tx, regs.verifiers, a);
    var c := contracts[KeyOf(tx)];
    var v := VerifyPlan(tx, c, regs.verifiers, a);
    if v.end.Ok? {
      DecideIsSafe(After(l, v.acts), contracts, v.end.value, adapter, a);
      CompletesChain(l, contracts, v, DecidePlan(v.end.value, c, adapter, a));
    }
  }

  // ---------- one execution ----------

  /** The stored action that is being executed: the last one, all earlier ones failed. */
  predicate Launched(tx: Transaction) {
    tx.status == Executing && AllButLastFailed(tx.actions) && tx.actions[|tx.actions| - 1].status == ActionExecuting
  }

  /** What the calls must say once an outcome is recorded. */
  function SettledPhase(outcome: Outcome): Phase { if outcome == OutcomeFailed then Fresh else Done(outcome) }

  lemma {:induction false} FinishedLast(actions: seq<Action>, status: ActionStatus)
    requires Numbered(actions) && actions != []
    ensures var n := |actions|;
      Finished(actions, n, status) == actions[..n - 1] + [actions[n - 1].(status := status)]
  {
    var n := |actions|;
    FinishedOthers(actions[..n - 1], n, status);
  }

  lemma {:induction false} FinishedOthers(actions: seq<Action>, id: nat, status: ActionStatus)
    requires forall a | a in actions :: a.id != id
    ensures Finished(actions, id, status) == actions
  {
    if actions != [] {
      FinishedOthers(actions[..|actions| - 1], id, status);
    }
  }

  lemma FinishFits(tx: Transaction, outcome: Outcome, calls: seq<Call>)
    requires Launched(tx) && Numbered(tx.actions) && PhaseOf(calls) == SettledPhase(outcome)
    ensures var next := FinishAction(tx, |tx.actions|, outcome);
      && next == tx.(actions := next.actions) && Numbered(next.actions)
      && LastIs(next.actions, ActionStatusOf(outcome)) && ActionsFit(next, calls)
      && ActionsAdvance(tx.actions, next.actions)
  {
    hide ActionsFit, PhaseOf, Finished;
    FinishedLast(tx.actions, ActionStatusOf(outcome));
    var n, next := |tx.actions|, FinishAction(tx, |tx.actions|, outcome);
    assert next.actions[..n - 1] == tx.actions[..n - 1];
    SettledFits(next, outcome, calls);
  }

  lemma SettledFits(tx: Transaction, outcome: Outcome, calls: seq<Call>)
    requires tx.status == Executing && Numbered(tx.actions) && LastIs(tx.actions, ActionStatusOf(outcome))
    requires PhaseOf(calls) == SettledPhase(outcome)
    ensures ActionsFit(tx, calls)
  {
    hide PhaseOf, Numbered;
    assert tx.actions[|tx.actions| - 1] in tx.actions;
  }

  lemma RunningRow(l: Lane, contracts: map<ContractKey, Contract>, tx: Transaction)
    requires AtRest(l, contracts, tx) && tx.status in {Executing, FailedInfrastructure, Ready}
    ensures KeyOf(tx) in contracts && !l.caseOpen && ActionsFit(tx, l.calls) && Cleared(tx)
    ensures ObservationsFit(tx, contracts[KeyOf(tx)], l.calls)
  {
    hide AtRest, ActionsFit, ObservationsFit, ContractHash, ProposalHash, Cleared;
    RestFacts(l, contracts, tx);
  }

  /** The outcome is stored on the action, and its event appended. */
  lemma FinishCarries(
    l: Lane, contracts: map<ContractKey, Contract>, tx: Transaction, next: Transaction, event: Event)
    requires AtRest(l, contracts, tx) && tx.status == Executing && next == tx.(actions := next.actions)
    requires ActionsFit(next, l.calls) && event.ActionFinished? && ActionsAdvance(tx.actions, next.actions)
    ensures var p := Plan([Put(next), Append(next.id, event)], Ok(next));
      && Carries(l, contracts, p) && AtRest(After(l, p.acts), contracts, next)
      && After(l, p.acts).calls == l.calls && !After(l, p.acts).caseOpen
  {
    hide LaneHolds, OnTrack, Safe, After, ActionsFit, ObservationsFit;
    RunningRow(l, contracts, tx);
    ObservationsFitIgnoresActions(tx, next, contracts[KeyOf(tx)], l.calls);
    RewriteIsSafe(l, contracts, tx, next);
    var mid := l.(row := Some(next));
    NoteIsSafe(mid, contracts, next, event);
    SafeConcat(l, contracts, [Put(next)], [Append(next.id, event)]);
    assert [Put(next)] + [Append(next.id, event)] == [Put(next), Append(next.id, event)];
  }

  lemma ObservationsFitIgnoresActions(tx: Transaction, next: Transaction, c: Contract, calls: seq<Call>)
    requires ObservationsFit(tx, c, calls) && next == tx.(actions := next.actions)
    ensures ObservationsFit(next, c, calls)
  {
    hide ConfirmationsSourced, Summarize;
  }

  function SettledStatus(outcome: Outcome): Status {
    match outcome
    case OutcomeExecuted => Verifying
    case OutcomeUnknown => UnknownEffect
    case OutcomeFailed => FailedInfrastructure
  }

  lemma SettledMoveFits(tx: Transaction, outcome: Outcome, calls: seq<Call>)
    requires Numbered(tx.actions) && LastIs(tx.actions, ActionStatusOf(outcome))
    requires PhaseOf(calls) == SettledPhase(outcome)
    ensures ActionsFit(tx.(status := SettledStatus(outcome)), calls)
  {
    hide PhaseOf, Numbered;
    var n := |tx.actions|;
    assert tx.actions == tx.actions[..n - 1] + [tx.actions[n - 1]];
  }

  lemma MaySettle(l: Lane, contracts: map<ContractKey, Contract>, tx: Transaction, outcome: Outcome)
    requires AtRest(l, contracts, tx) && tx.status == Executing && LastIs(tx.actions, ActionStatusOf(outcome))
    requires PhaseOf(l.calls) == SettledPhase(outcome)
    ensures MayMove(l, contracts, tx, SettledStatus(outcome))
  {
    hide Safe, LaneHolds, PhaseOf, ObservationsFit, ActionsFit, LastIs;
    RunningRow(l, contracts, tx);
    ActionsAreNumbered(tx, l.calls);
    SettledMoveFits(tx, outcome, l.calls);
    NothingObservedFits(tx, contracts[KeyOf(tx)], l.calls);
  }

  lemma NothingObservedFits(tx: Transaction, c: Contract, calls: seq<Call>)
    requires ObservationsFit(tx, c, calls) && tx.status in {Executing, FailedInfrastructure, Ready}
    ensures forall to | to !in {Committing, Verified} :: ObservationsFit(tx.(status := to), c, calls)
  {
    hide ConfirmationsSourced, Summarize;
  }

  lemma SettleIsSafe(
    l: Lane, contracts: map<ContractKey, Contract>, tx: Transaction, regs: Registries, selection: Selection,
    a: Answers, outcome: Outcome)
    requires AtRest(l, contracts, tx) && Launched(tx) && PhaseOf(l.calls) == SettledPhase(outcome)
    ensures KeyOf(tx) in contracts
    ensures Completes(l, contracts, SettlePlan(tx, contracts[KeyOf(tx)], regs, selection, a, outcome))
  {
    RunningRow(l, contracts, tx);
    assert Numbered(tx.actions);
    FinishFits(tx, outcome, l.calls);
    hide AtRest, Carries, After, MayMove, ActionsFit, PhaseOf, RunEnded;
    hide FinishAction, VerifyAndDecidePlan, ReconcilePlan, MovePlan;
    var next := FinishAction(tx, |tx.actions|, outcome);
    var event := ActionFinished(selection.name, outcome);
    FinishCarries(l, contracts, tx, next, event);
    var p := Plan([Put(next), Append(next.id, event)], Ok(next));
    var mid := After(l, p.acts);
    MaySettle(mid, contracts, next, outcome);
    AfterOutcomeIsSafe(mid, contracts, next, regs, selection.adapter, a, outcome);
    CompletesChain(l, contracts, p, AfterOutcomePlan(next, contracts[KeyOf(tx)], regs, selection.adapter, a, outcome));
  }

  lemma AfterOutcomeIsSafe(
    l: Lane, contracts: map<ContractKey, Contract>, tx: Transaction, regs: Registries, adapter: Adapter,
    a: Answers, outcome: Outcome)
    requires AtRest(l, contracts, tx) && !l.caseOpen
    requires MayMove(l, contracts, tx, SettledStatus(outcome))
    ensures KeyOf(tx) in contracts
    ensures Completes(l, contracts, AfterOutcomePlan(tx, contracts[KeyOf(tx)], regs, adapter, a, outcome))
  {
    hide AtRest, Carries, After, MayMove, MovePlan, ReconcilePlan, VerifyAndDecidePlan;
    AtRestKey(l, contracts, tx);
    match outcome
    case OutcomeUnknown =>
      var p := MovePlan(tx, UnknownEffect, MoveUnknownEffect);
      MoveCarries(l, contracts, tx, UnknownEffect, MoveUnknownEffect);
      ReconcileIsSafe(After(l, p.acts), contracts, p.end.value);
      CompletesChain(l, contracts, p, ReconcilePlan(p.end.value));
    case OutcomeFailed =>
      MoveCarries(l, contracts, tx, FailedInfrastructure, MoveExecutionFailed);
    case OutcomeExecuted =>
      var p := MovePlan(tx, Verifying, MoveVerifying);
      MoveCarries(l, contracts, tx, Verifying, MoveVerifying);
      VerifyAndDecideIsSafe(After(l, p.acts), contracts, p.end.value, regs, adapter, a);
      CompletesChain(l, contracts, p, VerifyAndDecidePlan(p.end.value, contracts[KeyOf(tx)], regs, adapter, a));
  }

  // ---------- calling the adapter ----------

  /** While an action is launched the row says nothing about the calls, so any disciplined call is safe. */
  lemma LaunchedCallIsSafe(l: Lane, contracts: map<ContractKey, Contract>, tx: Transaction, call: Call)
    requires AtRest(l, contracts, tx) && Launched(tx) && Disciplined(l.calls + [call])
    requires call.Execute? ==> call.context == tx
    ensures Safe(l, contracts, [Outside(tx.id, call)])
    ensures After(l, [Outside(tx.id, call)]) == l.(calls := l.calls + [call])
    ensures AtRest(l.(calls := l.calls + [call]), contracts, tx)
  {
    hide LaneHolds, Replay, Launched, Disciplined;
    LaunchedLaneHolds(l, contracts, tx, call);
    RowId(l, contracts);
    SafeOne(l, contracts, Outside(tx.id, call));
  }

  lemma LaunchedLaneHolds(l: Lane, contracts: map<ContractKey, Contract>, tx: Transaction, call: Call)
    requires LaneHolds(l, contracts) && l.row == Some(tx) && Launched(tx) && Disciplined(l.calls + [call])
    requires call.Execute? ==> call.context == tx
    ensures LaneHolds(l.(calls := l.calls + [call]), contracts)
  {
    hide RowFits, Disciplined, ActionsFit, ConfirmationsSourced, Summarize;
    KeyIsKnown(tx, contracts);
    SourcedKeeps(contracts[KeyOf(tx)], tx.observations, l.calls, l.calls + [call]);
    ActionsAreNumbered(tx, l.calls);
    LaunchedFits(tx, l.calls + [call]);
  }

  lemma ActionsAreNumbered(tx: Transaction, calls: seq<Call>)
    requires ActionsFit(tx, calls)
    ensures Numbered(tx.actions)
    ensures tx.status == Executing && AllFailed(tx.actions) ==> PhaseOf(calls) == Fresh
  {
    hide PhaseOf, Numbered, AllFailed, AllButLastFailed;
  }

  /** A launched row is not all failed, so it fits any calls. */
  lemma LaunchedFits(tx: Transaction, calls: seq<Call>)
    requires Launched(tx) && Numbered(tx.actions)
    ensures ActionsFit(tx, calls)
  {
    hide PhaseOf, Numbered;
    assert tx.actions[|tx.actions| - 1] in tx.actions;
  }

  lemma ExecuteIsSafe(l: Lane, contracts: map<ContractKey, Contract>, tx: Transaction, a: Answers)
    requires AtRest(l, contracts, tx) && Launched(tx) && PhaseOf(l.calls) == Fresh
    ensures var p := Plan(ExecuteActs(tx, a), Ok(tx));
      && Carries(l, contracts, p) && AtRest(After(l, p.acts), contracts, tx)
      && PhaseOf(After(l, p.acts).calls) == SettledPhase(ExecuteOutcome(tx, a))
  {
    hide LaneHolds, OnTrack, Safe, After, Disciplined, Cleared, ActionsFit, ObservationsFit, PhaseOf, AllButLastFailed;
    hide RowFits, CanTransition;
    if ReachesExecute(tx, a) {
      var call := Execute(tx, a.prepared.value);
      var answer := if a.executed.Some? then ExecuteReturned(a.executed.value) else ExecuteThrew;
      RunningRow(l, contracts, tx);
      RestFacts(l, contracts, tx);
      DisciplinedMore(l.calls, call);
      LaunchedCallIsSafe(l, contracts, tx, call);
      var mid := l.(calls := l.calls + [call]);
      DisciplinedMore(mid.calls, answer);
      LaunchedCallIsSafe(mid, contracts, tx, answer);
      SafeConcat(l, contracts, [Outside(tx.id, call)], [Outside(tx.id, answer)]);
      assert ExecuteActs(tx, a) == [Outside(tx.id, call)] + [Outside(tx.id, answer)];
    } else {
      NothingCarries(l, contracts, tx);
    }
  }

  // ---------- a whole attempt and a whole run ----------

  lemma FreshMoveFits(tx: Transaction, to: Status, calls: seq<Call>)
    requires Numbered(tx.actions) && AllFailed(tx.actions) && PhaseOf(calls) == Fresh
    requires to in {Executing, FailedInfrastructure}
    ensures ActionsFit(tx.(status := to), calls)
  {
    hide PhaseOf, Numbered;
    assert tx.actions != [] ==> tx.actions[|tx.actions| - 1] in tx.actions;
  }

  lemma MayFail(l: Lane, contracts: map<ContractKey, Contract>, tx: Transaction)
    requires AtRest(l, contracts, tx) && tx.status == Executing && AllFailed(tx.actions)
    ensures MayMove(l, contracts, tx, FailedInfrastructure)
  {
    hide Safe, LaneHolds, PhaseOf, ObservationsFit, ActionsFit, AllFailed;
    RunningRow(l, contracts, tx);
    ActionsAreNumbered(tx, l.calls);
    FreshMoveFits(tx, FailedInfrastructure, l.calls);
    NothingObservedFits(tx, contracts[KeyOf(tx)], l.calls);
  }

  lemma StartCarries(l: Lane, contracts: map<ContractKey, Contract>, tx: Transaction, name: string)
    requires AtRest(l, contracts, tx) && tx.status == Executing && AllFailed(tx.actions)
    ensures var started := StartedAction(tx, name);
      && Carries(l, contracts, Plan([Put(started)], Ok(started)))
      && AtRest(After(l, [Put(started)]), contracts, started)
      && Launched(started) && PhaseOf(After(l, [Put(started)]).calls) == Fresh
      && KeyOf(started) == KeyOf(tx)
  {
    hide LaneHolds, OnTrack, PhaseOf, ObservationsFit, Safe, After, ActionsFit;
    RunningRow(l, contracts, tx);
    var started := StartedAction(tx, name);
    StartedFits(tx, name, l.calls);
    ObservationsFitIgnoresActions(tx, started, contracts[KeyOf(tx)], l.calls);
    RewriteIsSafe(l, contracts, tx, started);
  }

  lemma StartedFits(tx: Transaction, name: string, calls: seq<Call>)
    requires ActionsFit(tx, calls) && tx.status == Executing && AllFailed(tx.actions)
    ensures ActionsFit(StartedAction(tx, name), calls) && Launched(StartedAction(tx, name)) && PhaseOf(calls) == Fresh
  {
    hide ActionsFit, PhaseOf;
    ActionsAreNumbered(tx, calls);
    var started := StartedAction(tx, name);
    assert started.actions[..|tx.actions|] == tx.actions;
    LaunchedFits(started, calls);
  }

  lemma AttemptIsSafe(l: Lane, contracts: map<ContractKey, Contract>, tx: Transaction, regs: Registries, a: Answers)
    requires AtRest(l, contracts, tx) && tx.status == Executing && AllFailed(tx.actions) && !l.caseOpen
    ensures KeyOf(tx) in contracts
    ensures Completes(l, contracts, AttemptPlan(tx, contracts[KeyOf(tx)], regs, a))
  {
    RunningRow(l, contracts, tx);
    var c := contracts[KeyOf(tx)];
    var selection := Select(c.preferred + c.fallback, regs.executors);
    hide AtRest, Carries, After, MayMove, Launched, PhaseOf, AllFailed;
    hide MovePlan, SettlePlan, Select, StartedAction, ExecuteActs;
    if selection.None? {
      MayFail(l, contracts, tx);
      MoveCarries(l, contracts, tx, FailedInfrastructure, MoveNoExecutor);
    } else {
      StartCarries(l, contracts, tx, selection.value.name);
      var started := StartedAction(tx, selection.value.name);
      var p := Plan([Put(started)], Ok(started));
      if c.credentialRefs == [] || a.credentialsResolve {
        var mid := After(l, p.acts);
        var q := Plan(ExecuteActs(started, a), Ok(started));
        var outcome := ExecuteOutcome(started, a);
        ExecuteIsSafe(mid, contracts, started, a);
        SettleIsSafe(After(mid, q.acts), contracts, started, regs, selection.value, a, outcome);
        var r := SettlePlan(started, c, regs, selection.value, a, outcome);
        CompletesChain(mid, contracts, q, r);
        CompletesChain(l, contracts, p, Chain(q, r));
      } else {
        CarriesWithoutEnd(l, contracts, p, CredentialFailure);
      }
    }
  }

  lemma CarriesWithoutEnd(l: Lane, contracts: map<ContractKey, Contract>, p: Plan, e: Error)
    requires Carries(l, contracts, p) && e in {CredentialFailure, VerifierFailure}
    ensures Completes(l, contracts, Plan(p.acts, Err(e)))
  {
    hide Safe, After;
  }

  lemma RunnableIsFresh(tx: Transaction, calls: seq<Call>)
    requires ActionsFit(tx, calls) && tx.status in {Ready, FailedInfrastructure}
    ensures Numbered(tx.actions) && AllFailed(tx.actions) && PhaseOf(calls) == Fresh
  {
    hide PhaseOf, Numbered, LastIs;
    NoCallsAreFresh();
  }

  lemma MayExecute(l: Lane, contracts: map<ContractKey, Contract>, tx: Transaction)
    requires AtRest(l, contracts, tx) && tx.status in {Ready, FailedInfrastructure}
    ensures MayMove(l, contracts, tx, Executing) && AllFailed(tx.actions)
  {
    hide Safe, LaneHolds, PhaseOf, ObservationsFit, ActionsFit, AllFailed;
    RunningRow(l, contracts, tx);
    RunnableIsFresh(tx, l.calls);
    FreshMoveFits(tx, Executing, l.calls);
    NothingObservedFits(tx, contracts[KeyOf(tx)], l.calls);
  }

  lemma NoCallsAreFresh()
    ensures PhaseOf([]) == Fresh
  {}

  /** A run started from a runnable status is safe at every stop and, when it returns, ends as promised. */
  lemma RunIsSafe(l: Lane, contracts: map<ContractKey, Contract>, tx: Transaction, regs: Registries, a: Answers)
    requires AtRest(l, contracts, tx) && tx.status in {Ready, FailedInfrastructure, UnknownEffect}
    ensures KeyOf(tx) in contracts
    ensures Completes(l, contracts, RunPlan(tx, contracts[KeyOf(tx)], regs, a))
  {
    hide AtRest, Carries, After, MayMove, MovePlan, ReconcilePlan, AttemptPlan, AllFailed, RunEnded;
    AtRestKey(l, contracts, tx);
    if tx.status == UnknownEffect {
      ReconcileIsSafe(l, contracts, tx);
    } else {
      MayExecute(l, contracts, tx);
      RunningRow(l, contracts, tx);
      var kind := if tx.status == FailedInfrastructure then MoveRetrying else MoveExecuting;
      MoveCarries(l, contracts, tx, Executing, kind);
      var p := MovePlan(tx, Executing, kind);
      AttemptIsSafe(After(l, p.acts), contracts, p.end.value, regs, a);
      CompletesChain(l, contracts, p, AttemptPlan(p.end.value, contracts[KeyOf(tx)], regs, a));
    }
  }
}
