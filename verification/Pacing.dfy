/** Every run reports each status it writes with its very next act. */
module Pacing {
  import opened Wrappers
  import opened Domain
  import opened StateMachine
  import opened CoreRuntime
  import opened Store
  import opened Plans
  import opened Lanes
  import opened EngineSafety
  import opened Lifecycle

  const RESTARTABLE: set<Status> := {Ready, FailedInfrastructure, UnknownEffect}

  /** The status changes runs make; a run started anew goes on to EXECUTING or to reconciliation. */
  predicate RunMove(from: Status, to: Status) {
    && from != to && from != ReconciliationRequired && to !in BEFORE_RUN
    && (from in RESTARTABLE ==> to in {Executing, ReconciliationRequired})
  }

  /** The status the acts lead to when every status write is reported by the very next act, and none otherwise. */
  function Pace(status: Status, acts: seq<Act>): Option<Status>
    decreases |acts|
  {
    if acts == [] then Some(status)
    else if acts[0].Put? && acts[0].tx.status != status then
      var to := acts[0].tx.status;
      if |acts| >= 2 && IsReport(acts[1])
         && From(acts[1].event) == status && To(acts[1].event) == to && RunMove(status, to)
      then Pace(to, acts[2..])
      else None
    else if IsReport(acts[0]) then None
    else Pace(status, acts[1..])
  }

  lemma {:induction false} PaceConcat(status: Status, a: seq<Act>, b: seq<Act>)
    requires Pace(status, a).Some?
    ensures Pace(status, a + b) == Pace(Pace(status, a).value, b)
    decreases |a|
  {
    hide RunMove;
    if a == [] {
      assert a + b == b;
    } else if a[0].Put? && a[0].tx.status != status {
      assert (a + b)[0] == a[0] && (a + b)[1] == a[1] && (a + b)[2..] == a[2..] + b;
      PaceConcat(a[0].tx.status, a[2..], b);
    } else {
      assert (a + b)[0] == a[0] && (a + b)[1..] == a[1..] + b;
      PaceConcat(status, a[1..], b);
    }
  }

  predicate Paced(tx: Transaction, p: Plan) {
    Pace(tx.status, p.acts).Some? && (p.end.Ok? ==> Pace(tx.status, p.acts) == Some(p.end.value.status))
  }

  lemma PacedChain(tx: Transaction, p: Plan, q: Plan)
    requires p.end.Ok? && Paced(tx, p) && Paced(p.end.value, q)
    ensures Paced(tx, Chain(p, q))
  {
    hide Pace;
    PaceConcat(tx.status, p.acts, q.acts);
  }

  lemma MovePaced(tx: Transaction, to: Status, kind: MoveKind)
    requires CanTransition(tx.status, to) ==> RunMove(tx.status, to)
    ensures Paced(tx, MovePlan(tx, to, kind))
  {
    hide CanTransition, RunMove;
    if CanTransition(tx.status, to) {
      ReportPaced(tx, tx.(status := to), Moved(kind, tx.status, to));
    } else {
      NothingPaced(tx, Err(InvalidTransition));
    }
  }

  lemma NothingPaced(tx: Transaction, r: Result<Transaction>)
    requires r.Ok? ==> r.value.status == tx.status
    ensures Paced(tx, Plan([], r))
  {}

  /** One act that is neither a status write nor a report. */
  lemma QuietPaced(tx: Transaction, a: Act, next: Transaction)
    requires !IsReport(a) && (a.Put? ==> a.tx.status == tx.status) && next.status == tx.status
    ensures Paced(tx, Plan([a], Ok(next)))
  {
    assert [a][1..] == [];
  }

  lemma QuietPairPaced(tx: Transaction, a: Act, b: Act, next: Transaction)
    requires !IsReport(a) && (a.Put? ==> a.tx.status == tx.status)
    requires !IsReport(b) && (b.Put? ==> b.tx.status == tx.status) && next.status == tx.status
    ensures Paced(tx, Plan([a, b], Ok(next)))
  {
    QuietPaced(tx, a, tx);
    QuietPaced(tx, b, next);
    hide Paced;
    PacedChain(tx, Plan([a], Ok(tx)), Plan([b], Ok(next)));
    assert [a] + [b] == [a, b];
  }

  /** A status write and the event that reports it. */
  lemma ReportPaced(tx: Transaction, next: Transaction, e: Event)
    requires IsReportEvent(e) && From(e) == tx.status && To(e) == next.status && RunMove(tx.status, next.status)
    ensures Paced(tx, Plan([Put(next), Append(next.id, e)], Ok(next)))
  {
    var acts := [Put(next), Append(next.id, e)];
    assert IsReport(acts[1]) && acts[2..] == [];
    assert Pace(next.status, acts[2..]) == Some(next.status);
  }

  lemma ReconcilePaced(tx: Transaction)
    ensures Paced(tx, ReconcilePlan(tx))
  {
    hide Paced, MovePlan;
    QuietPaced(tx, OpenCase(tx.id), tx);
    if tx.status == UnknownEffect {
      var p := MovePlan(tx, ReconciliationRequired, MoveReconciliation);
      MovePaced(tx, ReconciliationRequired, MoveReconciliation);
      if p.end.Ok? {
        QuietPaced(p.end.value, OpenCase(tx.id), p.end.value);
        PacedChain(tx, p, Plan([OpenCase(tx.id)], p.end));
      }
    }
  }

  lemma GiveUpPaced(tx: Transaction, kind: MoveKind)
    ensures Paced(tx, GiveUpPlan(tx, kind))
  {
    MovePaced(tx, ReconciliationRequired, kind);
    hide Paced, MovePlan, ReconcilePlan;
    var p := MovePlan(tx, ReconciliationRequired, kind);
    if p.end.Ok? {
      ReconcilePaced(p.end.value);
      PacedChain(tx, p, ReconcilePlan(p.end.value));
    }
  }

  lemma CompensatePaced(tx: Transaction, adapter: Adapter, a: Answers)
    requires tx.status == Compensating
    ensures Paced(tx, CompensatePlan(tx, adapter, a))
  {
    MovePaced(tx, Compensated, MoveCompensated);
    hide Paced, MovePlan, GiveUpPlan;
    forall kind { GiveUpPaced(tx, kind); }
    if adapter.compensates {
      var p := Plan([Outside(tx.id, CompensateCalled)], Ok(tx));
      QuietPaced(tx, Outside(tx.id, CompensateCalled), tx);
      var q := if a.compensated == Some(OutcomeExecuted) then MovePlan(tx, Compensated, MoveCompensated)
               else if a.compensated.Some? then GiveUpPlan(tx, MoveCompensationFailed)
               else GiveUpPlan(tx, MoveCompensationException);
      PacedChain(tx, p, q);
    }
  }

  lemma ObserveOnePaced(p: Progress, check: Check, verifiers: set<string>, status: Status)
    requires Pace(status, p.acts) == Some(status) && p.tx.status == status
    ensures var q := ObserveOne(p, check, verifiers); Pace(status, q.acts) == Some(status) && q.tx.status == status
  {
    hide Pace;
    var q := ObserveOne(p, check, verifiers);
    if q.acts != p.acts {
      var a, b := q.acts[|p.acts|], q.acts[|p.acts| + 1];
      assert q.acts == p.acts + [a, b];
      QuietPairPaced(p.tx, a, b, p.tx);
      PaceConcat(status, p.acts, [a, b]);
    }
  }

  lemma {:induction false} ObserveAllPaced(p: Progress, checks: seq<Check>, verifiers: set<string>)
    requires p.acts == []
    ensures var q := ObserveAll(p, checks, verifiers);
      Pace(p.tx.status, q.acts) == Some(p.tx.status) && q.tx.status == p.tx.status
  {
    hide ObserveOne;
    if checks != [] {
      ObserveAllPaced(p, checks[..|checks| - 1], verifiers);
      ObserveOnePaced(
        ObserveAll(p, checks[..|checks| - 1], verifiers), checks[|checks| - 1], verifiers, p.tx.status);
    }
  }

  lemma {:induction false} UnverifiedKeepsStatus(tx: Transaction, effects: seq<string>)
    ensures Unverified(tx, effects).status == tx.status
  {
    if effects != [] {
      UnverifiedKeepsStatus(tx, effects[..|effects| - 1]);
    }
  }

  lemma VerifyPaced(tx: Transaction, c: Contract, verifiers: set<string>, a: Answers)
    ensures Paced(tx, VerifyPlan(tx, c, verifiers, a))
  {
    hide Pace, ObserveAll, Checks, Unverified;
    var done := Unverified(tx, c.effects);
    UnverifiedKeepsStatus(tx, c.effects);
    QuietPaced(tx, Put(done), done);
    var start := Progress([], tx, a.observations, true);
    var p := ObserveAll(start, Checks(c, c.effects), verifiers);
    ObserveAllPaced(start, Checks(c, c.effects), verifiers);
    QuietPaced(p.tx, Put(p.tx), p.tx);
    PaceConcat(tx.status, p.acts, [Put(p.tx)]);
  }

  lemma DecidePaced(tx: Transaction, c: Contract, adapter: Adapter, a: Answers)
    requires tx.status == Verifying
    ensures Paced(tx, DecidePlan(tx, c, adapter, a))
  {
    var next := DecideVerificationOutcome(tx, c).value;
    var report := VerificationDecided(next.status);
    var p := Plan([Put(next), Append(next.id, report)], Ok(next));
    ReportPaced(tx, next, report);
    VerdictPaced(next, adapter, a);
    hide Paced, MovePlan, CompensatePlan, ReconcilePlan, DecideVerificationOutcome;
    if next.status == Committing {
      PacedChain(tx, p, MovePlan(next, if next.retryCount > 0 then VerifiedAfterRetry else Verified, MoveVerified));
    } else if next.status == Compensating {
      PacedChain(tx, p, CompensatePlan(next, adapter, a));
    } else if next.status == UnknownEffect || next.status == ReconciliationRequired {
      PacedChain(tx, p, ReconcilePlan(next));
    }
  }

  lemma VerdictPaced(tx: Transaction, adapter: Adapter, a: Answers)
    ensures tx.status == Committing ==>
      Paced(tx, MovePlan(tx, if tx.retryCount > 0 then VerifiedAfterRetry else Verified, MoveVerified))
    ensures tx.status == Compensating ==> Paced(tx, CompensatePlan(tx, adapter, a))
    ensures Paced(tx, ReconcilePlan(tx))
  {
    hide Paced, MovePlan, CompensatePlan, ReconcilePlan;
    ReconcilePaced(tx);
    if tx.status == Committing {
      MovePaced(tx, if tx.retryCount > 0 then VerifiedAfterRetry else Verified, MoveVerified);
    } else if tx.status == Compensating {
      CompensatePaced(tx, adapter, a);
    }
  }

  lemma VerifyKeepsStatus(tx: Transaction, c: Contract, verifiers: set<string>, a: Answers)
    ensures var p := VerifyPlan(tx, c, verifiers, a); p.end.Ok? ==> p.end.value.status == tx.status
  {
    hide Pace, ObserveAll, Checks, Unverified;
    UnverifiedKeepsStatus(tx, c.effects);
    ObserveAllPaced(Progress([], tx, a.observations, true), Checks(c, c.effects), verifiers);
  }

  lemma VerifyAndDecidePaced(tx: Transaction, c: Contract, regs: Registries, adapter: Adapter, a: Answers)
    requires tx.status == Verifying
    ensures Paced(tx, VerifyAndDecidePlan(tx, c, regs, adapter, a))
  {
    hide Paced, VerifyPlan, DecidePlan;
    VerifyPaced(tx, c, regs.verifiers, a);
    VerifyKeepsStatus(tx, c, regs.verifiers, a);
    var v := VerifyPlan(tx, c, regs.verifiers, a);
    if v.end.Ok? {
      DecidePaced(v.end.value, c, adapter, a);
      PacedChain(tx, v, DecidePlan(v.end.value, c, adapter, a));
    }
  }

  lemma AfterOutcomePaced(
    tx: Transaction, c: Contract, regs: Registries, adapter: Adapter, a: Answers, outcome: Outcome)
    requires tx.status == Executing
    ensures Paced(tx, AfterOutcomePlan(tx, c, regs, adapter, a, outcome))
  {
    var to := SettledStatus(outcome);
    var kind := match outcome
      case OutcomeUnknown => MoveUnknownEffect
      case OutcomeFailed => MoveExecutionFailed
      case OutcomeExecuted => MoveVerifying;
    var p := MovePlan(tx, to, kind);
    assert p.end == Ok(tx.(status := to));
    MovePaced(tx, to, kind);
    hide Paced, MovePlan, ReconcilePlan, VerifyAndDecidePlan;
    match outcome
    case OutcomeFailed =>
    case OutcomeUnknown =>
      ReconcilePaced(p.end.value);
      PacedChain(tx, p, ReconcilePlan(p.end.value));
    case OutcomeExecuted =>
      VerifyAndDecidePaced(p.end.value, c, regs, adapter, a);
      PacedChain(tx, p, VerifyAndDecidePlan(p.end.value, c, regs, adapter, a));
  }

  lemma SettlePaced(
    tx: Transaction, c: Contract, regs: Registries, selection: Selection, a: Answers, outcome: Outcome)
    requires tx.status == Executing
    ensures Paced(tx, SettlePlan(tx, c, regs, selection, a, outcome))
  {
    hide AfterOutcomePlan, Finished;
    var next := FinishAction(tx, |tx.actions|, outcome);
    var p := Plan([Put(next), Append(next.id, ActionFinished(selection.name, outcome))], Ok(next));
    QuietPairPaced(tx, p.acts[0], p.acts[1], next);
    AfterOutcomePaced(next, c, regs, selection.adapter, a, outcome);
    PacedChain(tx, p, AfterOutcomePlan(next, c, regs, selection.adapter, a, outcome));
  }

  lemma ExecutePaced(tx: Transaction, a: Answers)
    ensures Paced(tx, Plan(ExecuteActs(tx, a), Ok(tx)))
  {
    if ReachesExecute(tx, a) {
      QuietPairPaced(tx, ExecuteActs(tx, a)[0], ExecuteActs(tx, a)[1], tx);
    }
  }

  lemma AttemptPaced(tx: Transaction, c: Contract, regs: Registries, a: Answers)
    requires tx.status == Executing
    ensures Paced(tx, AttemptPlan(tx, c, regs, a))
  {
    var selection := Select(c.preferred + c.fallback, regs.executors);
    if selection.None? {
      MovePaced(tx, FailedInfrastructure, MoveNoExecutor);
    } else {
      hide Paced, SettlePlan, ExecuteActs, ExecuteOutcome, Select, MovePlan;
      var started := StartedAction(tx, selection.value.name);
      var p := Plan([Put(started)], Ok(started));
      QuietPaced(tx, Put(started), started);
      if c.credentialRefs != [] && !a.credentialsResolve {
        PacedPrefix(tx, p, CredentialFailure);
      } else {
        var q := Plan(ExecuteActs(started, a), Ok(started));
        var r := SettlePlan(started, c, regs, selection.value, a, ExecuteOutcome(started, a));
        ExecutePaced(started, a);
        SettlePaced(started, c, regs, selection.value, a, ExecuteOutcome(started, a));
        PacedChain(started, q, r);
        PacedChain(tx, p, Chain(q, r));
      }
    }
  }

  lemma PacedPrefix(tx: Transaction, p: Plan, e: Error)
    requires Paced(tx, p)
    ensures Paced(tx, Plan(p.acts, Err(e)))
  {}

  /** Every run reports each status it writes with its very next act. */
  lemma RunPaced(tx: Transaction, c: Contract, regs: Registries, a: Answers)
    ensures Paced(tx, RunPlan(tx, c, regs, a))
  {
    if tx.status == UnknownEffect {
      ReconcilePaced(tx);
    } else if tx.status == Ready || tx.status == FailedInfrastructure {
      var kind := if tx.status == FailedInfrastructure then MoveRetrying else MoveExecuting;
      var p := MovePlan(tx, Executing, kind);
      MovePaced(tx, Executing, kind);
      assert p.end == Ok(tx.(status := Executing));
      hide Paced, MovePlan, AttemptPlan;
      AttemptPaced(p.end.value, c, regs, a);
      PacedChain(tx, p, AttemptPlan(p.end.value, c, regs, a));
    }
  }
}
