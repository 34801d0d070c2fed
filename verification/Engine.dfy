/** packages/runtime: the engine over a mutable store performs exactly the acts of its plan, in order. */
module Engine {
  import opened Wrappers
  import opened Domain
  import opened StateMachine
  import opened Verification
  import opened CoreRuntime
  import opened Store
  import opened Plans
  import opened Db
  import opened StoredEvidence
  import opened Lifecycle
  import opened Reachability

  class ExecutorRegistry {
    var adapters: map<string, Adapter>

    constructor ()
      ensures adapters == map[]
    {
      adapters := map[];
    }

    /** The adapter is found under its own name and every alias; other names are left alone. */
    method Register(adapter: Adapter, aliases: seq<string>)
      modifies this
      ensures forall name :: name in adapters <==> name in old(adapters) || name == adapter.name || name in aliases
      ensures forall name | name in adapters ::
        adapters[name] == if name == adapter.name || name in aliases then adapter else old(adapters)[name]
    {
      adapters := adapters[adapter.name := adapter];
      for i := 0 to |aliases|
        invariant forall name :: name in adapters <==>
          name in old(adapters) || name == adapter.name || name in aliases[..i]
        invariant forall name | name in adapters ::
          adapters[name] == if name == adapter.name || name in aliases[..i] then adapter else old(adapters)[name]
      {
        adapters := adapters[aliases[i] := adapter];
      }
    }
  }

  class VerifierRegistry {
    var names: set<string>

    constructor ()
      ensures names == {}
    {
      names := {};
    }

    method Register(verifier: string, aliases: seq<string>)
      modifies this
      ensures names == old(names) + {verifier} + set a | a in aliases
    {
      names := names + {verifier};
      for i := 0 to |aliases|
        invariant names == old(names) + {verifier} + set a | a in aliases[..i]
      {
        names := names + {aliases[i]};
      }
    }
  }

  // ---------- what the verification loops accumulate ----------

  lemma ObserveOneMore(p: Progress, checks: seq<Check>, check: Check, verifiers: set<string>)
    ensures ObserveAll(p, checks + [check], verifiers) == ObserveOne(ObserveAll(p, checks, verifiers), check, verifiers)
  {
    assert (checks + [check])[..|checks|] == checks;
  }

  lemma ObserveOneGrows(p: Progress, check: Check, verifiers: set<string>)
    ensures p.acts <= ObserveOne(p, check, verifiers).acts && (!p.ok ==> ObserveOne(p, check, verifiers) == p)
  {}

  /** Later checks only add acts, and none once a verifier has thrown. */
  lemma {:induction false} ObserveAllGrows(p: Progress, checks: seq<Check>, more: seq<Check>, verifiers: set<string>)
    ensures ObserveAll(p, checks, verifiers).acts <= ObserveAll(p, checks + more, verifiers).acts
    ensures !ObserveAll(p, checks, verifiers).ok ==>
      ObserveAll(p, checks + more, verifiers) == ObserveAll(p, checks, verifiers)
    decreases |more|
  {
    hide ObserveAll, ObserveOne;
    if more == [] {
      assert checks + more == checks;
    } else {
      ObserveOneGrows(ObserveAll(p, checks + more[..|more| - 1], verifiers), more[|more| - 1], verifiers);
      var front := more[..|more| - 1];
      ObserveAllGrows(p, checks, front, verifiers);
      ObserveOneMore(p, checks + front, more[|more| - 1], verifiers);
      assert checks + more == checks + front + [more[|more| - 1]];
    }
  }

  lemma ChecksOneMore(c: Contract, effects: seq<string>, i: nat)
    requires i < |effects|
    ensures Checks(c, effects[..i + 1]) == Checks(c, effects[..i]) + EffectChecks(c, effects[i])
  {
    assert effects[..i + 1][..i] == effects[..i];
  }

  lemma {:induction false} ChecksSplit(c: Contract, effects: seq<string>, i: nat) returns (rest: seq<Check>)
    requires i <= |effects|
    ensures Checks(c, effects) == Checks(c, effects[..i]) + rest
    decreases |effects| - i
  {
    hide Checks, EffectChecks;
    if i == |effects| {
      assert effects[..i] == effects;
      rest := [];
      assert Checks(c, effects) + rest == Checks(c, effects);
    } else {
      var later := ChecksSplit(c, effects, i + 1);
      ChecksOneMore(c, effects, i);
      rest := EffectChecks(c, effects[i]) + later;
    }
  }

  /** The checks before the j-th one of effect i. */
  function ChecksBefore(c: Contract, i: nat, j: nat): seq<Check>
    requires i < |c.effects| && j <= |EffectChecks(c, c.effects[i])|
  {
    Checks(c, c.effects[..i]) + EffectChecks(c, c.effects[i])[..j]
  }

  /** Where check j of effect i stands in the whole pass. */
  lemma CheckInTurn(start: Progress, c: Contract, i: nat, j: nat, verifiers: set<string>)
    requires i < |c.effects| && j < |EffectChecks(c, c.effects[i])|
    ensures var check := EffectChecks(c, c.effects[i])[j];
      var q := ObserveOne(ObserveAll(start, ChecksBefore(c, i, j), verifiers), check, verifiers);
      var total := ObserveAll(start, Checks(c, c.effects), verifiers);
      && ObserveAll(start, ChecksBefore(c, i, j + 1), verifiers) == q
      && q.acts <= total.acts && (!q.ok ==> total == q)
  {
    hide ObserveAll, ObserveOne, Checks, EffectChecks;
    var checks := EffectChecks(c, c.effects[i]);
    assert ChecksBefore(c, i, j + 1) == ChecksBefore(c, i, j) + [checks[j]];
    ObserveOneMore(start, ChecksBefore(c, i, j), checks[j], verifiers);
    var rest := ChecksSplit(c, c.effects, i + 1);
    ChecksOneMore(c, c.effects, i);
    assert Checks(c, c.effects) == ChecksBefore(c, i, j + 1) + (checks[j + 1..] + rest);
    ObserveAllGrows(start, ChecksBefore(c, i, j + 1), checks[j + 1..] + rest, verifiers);
  }

  /** An effect's checks begin where the effects before it end, and end where the next one's begin. */
  lemma EffectEnds(c: Contract, i: nat)
    requires i < |c.effects|
    ensures ChecksBefore(c, i, 0) == Checks(c, c.effects[..i])
    ensures ChecksBefore(c, i, |EffectChecks(c, c.effects[i])|) == Checks(c, c.effects[..i + 1])
  {
    ChecksOneMore(c, c.effects, i);
    assert EffectChecks(c, c.effects[i])[..|EffectChecks(c, c.effects[i])|] == EffectChecks(c, c.effects[i]);
  }

  /** Without an applicable rule the effect's one check is that there is none. */
  lemma RulesAreChecks(c: Contract, effect: string)
    ensures var checks := RuleChecks(c.rules, effect);
      EffectChecks(c, effect) == if checks == [] then [NoRule(effect)] else checks
  {}

  lemma NoRuleAddsNoAct(p: Progress, effect: string, verifiers: set<string>)
    requires p.ok
    ensures var q := ObserveOne(p, NoRule(effect), verifiers); q.ok && q.acts == p.acts && q.tx.id == p.tx.id
  {}

  lemma {:induction false} ObserveAllKeepsId(p: Progress, checks: seq<Check>, verifiers: set<string>)
    ensures ObserveAll(p, checks, verifiers).tx.id == p.tx.id
  {
    if checks != [] {
      ObserveAllKeepsId(p, checks[..|checks| - 1], verifiers);
    }
  }

  lemma {:induction false} UnverifiedKeepsId(tx: Transaction, effects: seq<string>)
    ensures Unverified(tx, effects).id == tx.id
  {
    if effects != [] {
      UnverifiedKeepsId(tx, effects[..|effects| - 1]);
    }
  }

  lemma VerifyKeepsId(tx: Transaction, c: Contract, verifiers: set<string>, a: Answers)
    ensures var p := VerifyPlan(tx, c, verifiers, a); p.end.Ok? ==> p.end.value.id == tx.id
  {
    UnverifiedKeepsId(tx, c.effects);
    ObserveAllKeepsId(Progress([], tx, a.observations, true), Checks(c, c.effects), verifiers);
  }

  lemma MoveKeepsId(tx: Transaction)
    ensures forall to, kind :: MovePlan(tx, to, kind).end.Ok? ==> MovePlan(tx, to, kind).end.value.id == tx.id
  {
    hide CanTransition;
  }

  /** What follows a stored verdict. */
  function AfterVerdictPlan(tx: Transaction, adapter: Adapter, a: Answers): Plan {
    if tx.status == Committing then
      MovePlan(tx, if tx.retryCount > 0 then VerifiedAfterRetry else Verified, MoveVerified)
    else if tx.status == Compensating then CompensatePlan(tx, adapter, a)
    else if tx.status == UnknownEffect || tx.status == ReconciliationRequired then ReconcilePlan(tx)
    else Plan([], Ok(tx))
  }

  lemma DecideInTwo(tx: Transaction, c: Contract, adapter: Adapter, a: Answers)
    ensures var decided := DecideVerificationOutcome(tx, c);
      if decided.Err? then decided == Err(WrongStatus) && DecidePlan(tx, c, adapter, a) == Plan([], decided)
      else
        var next := decided.value;
        && next.id == tx.id
        && var p := Plan([Put(next), Append(next.id, VerificationDecided(next.status))], decided);
          DecidePlan(tx, c, adapter, a) == Chain(p, AfterVerdictPlan(next, adapter, a))
  {
    hide MovePlan, CompensatePlan, ReconcilePlan, Summarize;
  }

  lemma NothingChecked(start: Progress, c: Contract, verifiers: set<string>)
    ensures ObserveAll(start, Checks(c, c.effects[..0]), verifiers) == start
  {}

  /** contract.verification.rules.filter(...) */
  method ApplicableRules(rules: seq<Rule>, effect: string) returns (found: seq<Rule>)
    ensures |found| == |RuleChecks(rules, effect)|
    ensures forall k | 0 <= k < |found| :: RuleChecks(rules, effect)[k] == WithRule(effect, found[k])
  {
    found := [];
    for i := 0 to |rules|
      invariant |found| == |RuleChecks(rules[..i], effect)|
      invariant forall k | 0 <= k < |found| :: RuleChecks(rules[..i], effect)[k] == WithRule(effect, found[k])
    {
      assert rules[..i + 1][..i] == rules[..i];
      if Applies(rules[i], effect) { found := found + [rules[i]]; }
    }
    assert rules[..|rules|] == rules;
  }

  class TransactionEngine {
    const store: FlowCommitDb
    const executors: ExecutorRegistry
    const verifiers: VerifierRegistry

    constructor (store: FlowCommitDb, executors: ExecutorRegistry, verifiers: VerifierRegistry)
      ensures this.store == store && this.executors == executors && this.verifiers == verifiers
    {
      this.store, this.executors, this.verifiers := store, executors, verifiers;
    }

    ghost function Regs(): Registries
      reads executors, verifiers
    {
      Registries(executors.adapters, verifiers.names)
    }

    method Event(tx: Transaction, event: Event) returns (r: Result<()>)
      requires store.Valid()
      modifies store
      ensures store.Did([Append(tx.id, event)], r == Err(Stopped)) && (r.Ok? || r == Err(Stopped))
    {
      r := store.AppendEvidence(tx.id, event);
    }

    /** The engine only writes rows that exist, so no key can be in the way. */
    method Put(tx: Transaction) returns (r: Result<()>)
      requires store.Valid() && tx.id in store.transactions
      modifies store
      ensures store.Did([Act.Put(tx)], r == Err(Stopped)) && (r.Ok? || r == Err(Stopped))
    {
      r := store.PutTransaction(tx);
    }

    /** A store write and the event that reports it. */
    method Write(tx: Transaction, event: Event) returns (r: Result<()>)
      requires store.Valid() && tx.id in store.transactions
      modifies store
      ensures store.Did([Act.Put(tx), Append(tx.id, event)], r == Err(Stopped)) && (r.Ok? || r == Err(Stopped))
    {
      hide FlowCommitDb.Valid, Performs;
      PerformsCompose();
      assert [Act.Put(tx)] + [Append(tx.id, event)] == [Act.Put(tx), Append(tx.id, event)];
      var _ :- Put(tx);
      r := Event(tx, event);
    }

    method Transition(tx: Transaction, to: Status, kind: MoveKind) returns (r: Result<Transaction>)
      requires store.Valid() && tx.id in store.transactions
      modifies store
      ensures store.Ran(MovePlan(tx, to, kind), r)
    {
      hide FlowCommitDb.Valid, Performs;
      PerformsCompose();
      var next :- TransitionTransaction(tx, to);
      var _ :- Write(next, Moved(kind, tx.status, to));
      return Ok(next);
    }

    method ReconcileUnknown(tx: Transaction) returns (r: Result<Transaction>)
      requires store.Valid() && tx.id in store.transactions
      modifies store
      ensures store.Ran(ReconcilePlan(tx), r)
    {
      hide FlowCommitDb.Valid, Performs, MovePlan;
      PerformsCompose();
      MoveKeepsId(tx);
      var next := tx;
      if next.status == UnknownEffect {
        next :- Transition(next, ReconciliationRequired, MoveReconciliation);
      }
      var _ :- store.OpenReconciliation(next.id);
      return Ok(next);
    }

    /** Both exits of compensate that end in reconciliation: a transition, then the case. */
    method GiveUp(tx: Transaction, kind: MoveKind) returns (r: Result<Transaction>)
      requires store.Valid() && tx.id in store.transactions
      modifies store
      ensures store.Ran(GiveUpPlan(tx, kind), r)
    {
      hide FlowCommitDb.Valid, Performs, MovePlan, ReconcilePlan;
      PerformsCompose();
      MoveKeepsId(tx);
      var next :- Transition(tx, ReconciliationRequired, kind);
      r := ReconcileUnknown(next);
    }

    method Compensate(tx: Transaction, adapter: Adapter, a: Answers) returns (r: Result<Transaction>)
      requires store.Valid() && tx.id in store.transactions
      modifies store
      ensures store.Ran(CompensatePlan(tx, adapter, a), r)
    {
      hide FlowCommitDb.Valid, Performs, MovePlan, GiveUpPlan;
      PerformsCompose();
      if !adapter.compensates {
        r := GiveUp(tx, MoveCompensationUnavailable);
        return;
      }
      var _ :- store.Outside(tx.id, CompensateCalled);
      if a.compensated == Some(OutcomeExecuted) {
        r := Transition(tx, Compensated, MoveCompensated);
      } else if a.compensated.Some? {
        r := GiveUp(tx, MoveCompensationFailed);
      } else {
        r := GiveUp(tx, MoveCompensationException);
      }
    }

    /** selectExecutor: the loop returns at the first registered name. */
    method SelectExecutor(c: Contract) returns (selection: Option<Selection>)
      ensures selection == Select(c.preferred + c.fallback, executors.adapters)
    {
      var names := c.preferred + c.fallback;
      for i := 0 to |names|
        invariant Select(names, executors.adapters) == Select(names[i..], executors.adapters)
      {
        if names[i] in executors.adapters { return Some(Selection(names[i], executors.adapters[names[i]])); }
        assert names[i..][1..] == names[i + 1..];
      }
      return None;
    }

    /** The branch without required verification: one observation per expected effect, one store write. */
    method ConfirmAll(start: Transaction, c: Contract) returns (r: Result<Transaction>)
      requires store.Valid() && start.id in store.transactions
      modifies store
      ensures var done := Unverified(start, c.effects);
        store.Did([Act.Put(done)], r == Err(Stopped)) && r == if r == Err(Stopped) then Err(Stopped) else Ok(done)
    {
      hide FlowCommitDb.Valid;
      var tx := start;
      for i := 0 to |c.effects|
        invariant tx == Unverified(start, c.effects[..i]) && tx.id == start.id
      {
        assert c.effects[..i + 1][..i] == c.effects[..i];
        tx := AddObservation(tx, Observation(c.effects[i], EffectConfirmed, 0.0, "verification-not-required"));
      }
      assert c.effects[..|c.effects|] == c.effects;
      var _ :- Put(tx);
      return Ok(tx);
    }

    /** One rule of one effect: the verifier is called, its answer recorded and reported. */
    method Observe(p: Progress, effect: string, rule: Rule) returns (r: Result<Progress>)
      requires store.Valid() && p.ok
      modifies store
      ensures var q := ObserveOne(p, WithRule(effect, rule), verifiers.names);
        && p.acts <= q.acts && q.tx.id == p.tx.id
        && store.Did(q.acts[|p.acts|..], r == Err(Stopped))
        && (r != Err(Stopped) ==> r == if q.ok then Ok(q) else Err(VerifierFailure))
    {
      hide FlowCommitDb.Valid;
      if rule.verifier !in verifiers.names {
        return Ok(p.(tx := AddObservation(
          p.tx, Observation(effect, Inconclusive, StrengthOr0(rule), "missing:" + rule.verifier))));
      }
      if p.answers == [] || p.answers[0].None? { return Err(VerifierFailure); }
      var o := p.answers[0].value;
      var _ :- store.Outside(p.tx.id, VerifierReturned(rule.verifier, o));
      var _ :- Event(p.tx, EffectObserved(effect, rule.verifier, o.result, o.strength));
      return Ok(ObserveOne(p, WithRule(effect, rule), verifiers.names));
    }

    /** The two loops of verifyAll: effect by effect, rule by rule. */
    method ObserveEffects(start: Progress, c: Contract) returns (r: Result<Progress>)
      requires store.Valid() && start.ok && start.acts == []
      modifies store
      ensures var total := ObserveAll(start, Checks(c, c.effects), verifiers.names);
        && store.Did(total.acts, r == Err(Stopped)) && total.tx.id == start.tx.id
        && (r != Err(Stopped) ==> r == if total.ok then Ok(total) else Err(VerifierFailure))
    {
      hide FlowCommitDb.Valid, Performs, ObserveAll, ObserveOne, Checks, EffectChecks, RuleChecks, ChecksBefore;
      PerformsCompose();
      ghost var total := ObserveAll(start, Checks(c, c.effects), verifiers.names);
      ObserveAllKeepsId(start, Checks(c, c.effects), verifiers.names);
      var p := start;
      NothingChecked(start, c, verifiers.names);
      for i := 0 to |c.effects|
        invariant p == ObserveAll(start, Checks(c, c.effects[..i]), verifiers.names)
        invariant p.ok && store.Did(p.acts, false)
      {
        EffectEnds(c, i);
        RulesAreChecks(c, c.effects[i]);
        var rules := ApplicableRules(c.rules, c.effects[i]);
        if rules == [] {
          CheckInTurn(start, c, i, 0, verifiers.names);
          NoRuleAddsNoAct(p, c.effects[i], verifiers.names);
          p := ObserveOne(p, NoRule(c.effects[i]), verifiers.names);
          continue;
        }
        for j := 0 to |rules|
          invariant p == ObserveAll(start, ChecksBefore(c, i, j), verifiers.names)
          invariant p.ok && store.Did(p.acts, false)
        {
          CheckInTurn(start, c, i, j, verifiers.names);
          ghost var q := ObserveOne(p, WithRule(c.effects[i], rules[j]), verifiers.names);
          ObserveOneGrows(p, WithRule(c.effects[i], rules[j]), verifiers.names);
          ghost var more, rest := q.acts[|p.acts|..], total.acts[|q.acts|..];
          assert q.acts == p.acts + more && total.acts == p.acts + more + rest;
          p :- Observe(p, c.effects[i], rules[j]);
        }
      }
      assert c.effects[..|c.effects|] == c.effects;
      return Ok(p);
    }

    method VerifyAll(tx: Transaction, c: Contract, a: Answers) returns (r: Result<Transaction>)
      requires store.Valid() && tx.id in store.transactions
      modifies store
      ensures store.Ran(VerifyPlan(tx, c, verifiers.names, a), r)
    {
      hide FlowCommitDb.Valid;
      if !c.verificationRequired {
        r := ConfirmAll(tx, c);
        return;
      }
      hide ObserveAll, Checks;
      var p :- ObserveEffects(Progress([], tx, a.observations, true), c);
      var _ :- Put(p.tx);
      return Ok(p.tx);
    }

    method FollowVerdict(tx: Transaction, adapter: Adapter, a: Answers) returns (r: Result<Transaction>)
      requires store.Valid() && tx.id in store.transactions
      modifies store
      ensures store.Ran(AfterVerdictPlan(tx, adapter, a), r)
    {
      hide FlowCommitDb.Valid, MovePlan, ReconcilePlan, CompensatePlan;
      if tx.status == Committing {
        r := Transition(tx, if tx.retryCount > 0 then VerifiedAfterRetry else Verified, MoveVerified);
      } else if tx.status == Compensating {
        r := Compensate(tx, adapter, a);
      } else if tx.status == UnknownEffect || tx.status == ReconciliationRequired {
        r := ReconcileUnknown(tx);
      } else {
        r := Ok(tx);
      }
    }

    /** From the verdict on: its store write and event, and what follows from it. */
    method Decide(tx: Transaction, c: Contract, adapter: Adapter, a: Answers) returns (r: Result<Transaction>)
      requires store.Valid() && tx.id in store.transactions
      modifies store
      ensures store.Ran(DecidePlan(tx, c, adapter, a), r)
    {
      hide FlowCommitDb.Valid, Performs, DecidePlan, AfterVerdictPlan, DecideVerificationOutcome;
      PerformsCompose();
      DecideInTwo(tx, c, adapter, a);
      var next :- DecideVerificationOutcome(tx, c);
      var _ :- Write(next, VerificationDecided(next.status));
      r := FollowVerdict(next, adapter, a);
    }

    /** The try block around the adapter: every exception becomes a FAILED outcome, a stopped process does not. */
    method CallExecutor(tx: Transaction, a: Answers) returns (r: Result<Outcome>)
      requires store.Valid()
      modifies store
      ensures store.Did(ExecuteActs(tx, a), r == Err(Stopped))
      ensures r == if r == Err(Stopped) then Err(Stopped) else Ok(ExecuteOutcome(tx, a))
    {
      hide FlowCommitDb.Valid;
      if !a.validates || a.prepared.None? || a.prepared.value != tx.proposalHash { return Ok(OutcomeFailed); }
      var _ :- store.Outside(tx.id, Execute(tx, a.prepared.value));
      if a.executed.None? {
        var _ :- store.Outside(tx.id, ExecuteThrew);
        return Ok(OutcomeFailed);
      }
      var _ :- store.Outside(tx.id, ExecuteReturned(a.executed.value));
      return Ok(a.executed.value);
    }

    method VerifyAndDecide(tx: Transaction, c: Contract, adapter: Adapter, a: Answers) returns (r: Result<Transaction>)
      requires store.Valid() && tx.id in store.transactions
      modifies store
      ensures store.Ran(VerifyAndDecidePlan(tx, c, Regs(), adapter, a), r)
    {
      hide FlowCommitDb.Valid, Performs, VerifyPlan, DecidePlan;
      PerformsCompose();
      VerifyKeepsId(tx, c, verifiers.names, a);
      var observed :- VerifyAll(tx, c, a);
      r := Decide(observed, c, adapter, a);
    }

    /** The three ways to go on from a stored outcome. */
    method FollowOutcome(tx: Transaction, c: Contract, adapter: Adapter, a: Answers, outcome: Outcome)
      returns (r: Result<Transaction>)
      requires store.Valid() && tx.id in store.transactions
      modifies store
      ensures store.Ran(AfterOutcomePlan(tx, c, Regs(), adapter, a, outcome), r)
    {
      hide FlowCommitDb.Valid, Performs, ReconcilePlan, MovePlan, VerifyAndDecidePlan;
      PerformsCompose();
      MoveKeepsId(tx);
      if outcome == OutcomeUnknown {
        var next :- Transition(tx, UnknownEffect, MoveUnknownEffect);
        r := ReconcileUnknown(next);
      } else if outcome == OutcomeFailed {
        r := Transition(tx, FailedInfrastructure, MoveExecutionFailed);
      } else {
        var next :- Transition(tx, Verifying, MoveVerifying);
        r := VerifyAndDecide(next, c, adapter, a);
      }
    }

    /** Calls the adapter and stores what came of it. */
    method CallAndSettle(tx: Transaction, c: Contract, selection: Selection, a: Answers)
      returns (r: Result<Transaction>)
      requires store.Valid() && tx.id in store.transactions
      modifies store
      ensures var outcome := ExecuteOutcome(tx, a);
        var p := Chain(Plan(ExecuteActs(tx, a), Ok(tx)), SettlePlan(tx, c, Regs(), selection, a, outcome));
        store.Did(p.acts, r == Err(Stopped)) && (r != Err(Stopped) ==> r == p.end)
    {
      hide FlowCommitDb.Valid, Performs, AfterOutcomePlan, ExecuteActs, ExecuteOutcome, Finished;
      PerformsCompose();
      var outcome :- CallExecutor(tx, a);
      var finished := FinishAction(tx, |tx.actions|, outcome);
      r := Settle(finished, c, selection, a, outcome);
    }

    method Settle(tx: Transaction, c: Contract, selection: Selection, a: Answers, outcome: Outcome)
      returns (r: Result<Transaction>)
      requires store.Valid() && tx.id in store.transactions
      modifies store
      ensures var p := AfterOutcomePlan(tx, c, Regs(), selection.adapter, a, outcome);
        && store.Did([Act.Put(tx), Append(tx.id, ActionFinished(selection.name, outcome))] + p.acts, r == Err(Stopped))
        && (r != Err(Stopped) ==> r == p.end)
    {
      hide FlowCommitDb.Valid, Performs, AfterOutcomePlan;
      PerformsCompose();
      var _ :- Write(tx, ActionFinished(selection.name, outcome));
      r := FollowOutcome(tx, c, selection.adapter, a, outcome);
    }

    /** run, from EXECUTING on. */
    method Attempt(tx: Transaction, c: Contract, a: Answers) returns (r: Result<Transaction>)
      requires store.Valid() && tx.id in store.transactions
      modifies store
      ensures store.Ran(AttemptPlan(tx, c, Regs(), a), r)
    {
      hide FlowCommitDb.Valid, Performs, MovePlan, SettlePlan, ExecuteActs, ExecuteOutcome, Select;
      PerformsCompose();
      var selection := SelectExecutor(c);
      if selection.None? {
        r := Transition(tx, FailedInfrastructure, MoveNoExecutor);
        return;
      }
      var started := StartedAction(tx, selection.value.name);
      var _ :- Put(started);
      if c.credentialRefs != [] && !a.credentialsResolve { return Err(CredentialFailure); }
      r := CallAndSettle(started, c, selection.value, a);
    }

    /** run, once the transaction and its contract are loaded. */
    method RunLoaded(tx: Transaction, c: Contract, a: Answers) returns (r: Result<Transaction>)
      requires store.Valid() && tx.id in store.transactions
      modifies store
      ensures store.Ran(RunPlan(tx, c, Regs(), a), r)
    {
      hide FlowCommitDb.Valid, Performs, MovePlan, ReconcilePlan, AttemptPlan;
      PerformsCompose();
      if tx.status != Ready && tx.status != FailedInfrastructure && tx.status != UnknownEffect { return Ok(tx); }
      if tx.status == UnknownEffect {
        r := ReconcileUnknown(tx);
        return;
      }
      MoveKeepsId(tx);
      var next :- Transition(tx, Executing, if tx.status == FailedInfrastructure then MoveRetrying else MoveExecuting);
      r := Attempt(next, c, a);
    }

    method Run(transactionId: string, tenantId: string, a: Answers) returns (r: Result<Transaction>)
      requires store.Valid()
      modifies store
      ensures store.Ran(EnginePlan(old(store.Contents()), transactionId, tenantId, Regs(), a), r)
      ensures old(Reachable(store.Contents())) ==> Reachable(store.Contents())
    {
      hide AllRowsCarry, PlainPayloads, ApplyAll, RunPlan, Reachable;
      var tx :- store.GetTransaction(transactionId, tenantId);
      var contract := store.GetContract(tenantId, tx.contractName, tx.contractVersion);
      if contract.None? { return Err(NotFound); }
      r := RunLoaded(tx, contract.value, a);
      if old(Reachable(store.Contents())) {
        LoggedCallStaysReachable(
          store.origin, RunTx(transactionId, tenantId, Regs(), a), old(store.log), store.log, r == Err(Stopped));
      }
    }
  }
}
