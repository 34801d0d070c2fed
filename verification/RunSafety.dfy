/** Every plan of the API handlers and of the engine is safe on its lane, wherever it stops. */
module RunSafety {
  import opened Wrappers
  import opened Domain
  import opened StateMachine
  import opened Approvals
  import opened Verification
  import opened CoreRuntime
  import opened Store
  import opened Plans
  import opened Lanes

  /** A lane at rest whose stored row is tx. */
  ghost predicate AtRest(l: Lane, contracts: map<ContractKey, Contract>, tx: Transaction) {
    Safe(l, contracts, []) && l.row == Some(tx)
  }

  /** The plan is safe from here, and when it returns, the stored row is what it returned. */
  ghost predicate Carries(l: Lane, contracts: map<ContractKey, Contract>, p: Plan) {
    && Safe(l, contracts, p.acts) && Safe(After(l, p.acts), contracts, [])
    && (p.end.Ok? ==> After(l, p.acts).row == Some(p.end.value))
  }

  lemma AtRestKey(l: Lane, contracts: map<ContractKey, Contract>, tx: Transaction)
    requires AtRest(l, contracts, tx)
    ensures KeyOf(tx) in contracts
  {
    hide ContractHash, ProposalHash, Cleared, Disciplined, ActionsFit, ObservationsFit, OnTrack;
  }

  lemma NothingCarries(l: Lane, contracts: map<ContractKey, Contract>, tx: Transaction)
    requires AtRest(l, contracts, tx)
    ensures Carries(l, contracts, Plan([], Ok(tx))) && After(l, []) == l
  {
    hide LaneHolds, OnTrack;
  }

  lemma CarriesChain(l: Lane, contracts: map<ContractKey, Contract>, p: Plan, q: Plan)
    requires Carries(l, contracts, p) && Carries(After(l, p.acts), contracts, q)
    ensures Carries(l, contracts, Chain(p, q)) && After(l, Chain(p, q).acts) == After(After(l, p.acts), q.acts)
  {
    hide Safe, After;
    SafeConcat(l, contracts, p.acts, q.acts);
  }

  // ---------- steps that leave the row's status alone ----------

  /** Calls to verifiers and compensations neither start nor settle an execution. */
  predicate Quiet(call: Call) { call.VerifierReturned? || call.CompensateCalled? }

  lemma SourcedKeeps(c: Contract, observations: seq<Observation>, calls: seq<Call>, more: seq<Call>)
    requires ConfirmationsSourced(c, observations, calls) && forall call | call in calls :: call in more
    ensures ConfirmationsSourced(c, observations, more)
  {
    forall o | o in observations && o.result == EffectConfirmed ensures Sourced(c, o, more) {
      assert Sourced(c, o, calls);
      if c.verificationRequired {
        var call, rule :| call in calls && rule in c.rules
          && call.VerifierReturned? && call.verifier == rule.verifier && o == Adjusted(call.observation, rule);
        assert call in more;
      }
    }
  }

  lemma QuietCallIsSafe(l: Lane, contracts: map<ContractKey, Contract>, tx: Transaction, call: Call)
    requires AtRest(l, contracts, tx) && Quiet(call) && tx.status in AFTER_EFFECT
    ensures Safe(l, contracts, [Outside(tx.id, call)])
    ensures After(l, [Outside(tx.id, call)]) == l.(calls := l.calls + [call])
    ensures AtRest(l.(calls := l.calls + [call]), contracts, tx)
  {
    hide LaneHolds, Replay;
    QuietLaneHolds(l, contracts, tx, call);
    RowId(l, contracts);
    SafeOne(l, contracts, Outside(tx.id, call));
  }

  lemma QuietLaneHolds(l: Lane, contracts: map<ContractKey, Contract>, tx: Transaction, call: Call)
    requires LaneHolds(l, contracts) && l.row == Some(tx) && Quiet(call) && tx.status in AFTER_EFFECT
    ensures LaneHolds(l.(calls := l.calls + [call]), contracts)
  {
    hide RowFits, Disciplined, PhaseOf, ConfirmationsSourced, Summarize, Numbered;
    assert KeyOf(tx) in contracts && PhaseOf(l.calls) == Done(OutcomeExecuted) by { KeyIsKnown(tx, contracts); }
    DisciplinedMore(l.calls, call);
    SourcedKeeps(contracts[KeyOf(tx)], tx.observations, l.calls, l.calls + [call]);
  }

  lemma KeyIsKnown(tx: Transaction, contracts: map<ContractKey, Contract>)
    requires RowFits(tx, contracts)
    ensures KeyOf(tx) in contracts
  {
    hide ContractHash, ProposalHash, Cleared;
  }

  lemma ReplayIgnores(events: seq<Event>, event: Event)
    requires event.ActionFinished? || event.EffectObserved?
    ensures Replay(events + [event]) == Replay(events)
  {
    assert (events + [event])[..|events|] == events;
  }

  /** Evidence that reports no status change. */
  lemma NoteIsSafe(l: Lane, contracts: map<ContractKey, Contract>, tx: Transaction, event: Event)
    requires AtRest(l, contracts, tx) && (event.ActionFinished? || event.EffectObserved?) && tx.status !in BEFORE_RUN
    ensures Safe(l, contracts, [Append(tx.id, event)])
    ensures After(l, [Append(tx.id, event)]) == l.(events := l.events + [event])
    ensures AtRest(l.(events := l.events + [event]), contracts, tx)
  {
    hide RowFits, Disciplined, ActionsFit, ObservationsFit, Replay;
    ReplayIgnores(l.events, event);
    SafeOne(l, contracts, Append(tx.id, event));
  }

  /** A store write that changes columns of a running transaction but not its status. */
  lemma RewriteIsSafe(l: Lane, contracts: map<ContractKey, Contract>, tx: Transaction, next: Transaction)
    requires AtRest(l, contracts, tx) && tx.status !in BEFORE_RUN
    requires next == tx.(actions := next.actions, observations := next.observations)
    requires ActionsAdvance(tx.actions, next.actions)
    requires ActionsFit(next, l.calls) && ObservationsFit(next, contracts[KeyOf(tx)], l.calls)
    ensures Safe(l, contracts, [Put(next)]) && After(l, [Put(next)]) == l.(row := Some(next))
    ensures AtRest(l.(row := Some(next)), contracts, next)
  {
    hide ContractHash, ProposalHash, Disciplined, ActionsFit, ObservationsFit, Replay;
    hide ApprovalsSatisfy, ApprovalRejected;
    SafeOne(l, contracts, Put(next));
  }

  // ---------- reconciliation ----------

  lemma OpenCaseIsSafe(l: Lane, contracts: map<ContractKey, Contract>, tx: Transaction)
    requires AtRest(l, contracts, tx) && tx.status == ReconciliationRequired
    ensures Safe(l, contracts, [OpenCase(tx.id)])
    ensures After(l, [OpenCase(tx.id)]) == l.(caseOpen := true)
    ensures AtRest(l.(caseOpen := true), contracts, tx)
  {
    hide RowFits, Disciplined, ActionsFit, ObservationsFit, Replay;
    SafeOne(l, contracts, OpenCase(tx.id));
  }

  /** What a lane at rest knows about its row. */
  lemma RestFacts(l: Lane, contracts: map<ContractKey, Contract>, tx: Transaction)
    requires AtRest(l, contracts, tx)
    ensures KeyOf(tx) in contracts && ActionsFit(tx, l.calls) && Disciplined(l.calls)
    ensures ObservationsFit(tx, contracts[KeyOf(tx)], l.calls) && RowFits(tx, contracts)
    ensures l.caseOpen ==> tx.status == ReconciliationRequired
  {
    hide ContractHash, ProposalHash, Cleared, Disciplined, ActionsFit, ObservationsFit, OnTrack;
  }

  lemma ActionsFitOn(tx: Transaction, to: Status, calls: seq<Call>)
    requires ActionsFit(tx, calls)
    requires (tx.status in AFTER_EFFECT && to in AFTER_EFFECT + {UnknownEffect, ReconciliationRequired})
      || (tx.status == UnknownEffect && to == ReconciliationRequired)
    ensures ActionsFit(tx.(status := to), calls)
  {
    hide PhaseOf, Numbered, AllFailed, LastIs;
  }

  lemma ObservationsFitOn(tx: Transaction, to: Status, c: Contract, calls: seq<Call>)
    requires ObservationsFit(tx, c, calls) && to !in BEFORE_RUN + {FailedInfrastructure, Executing}
    requires to in {Committing, Verified} ==> Summarize(c, tx.observations).confirmed
    ensures ObservationsFit(tx.(status := to), c, calls)
  {
    hide ConfirmationsSourced, Summarize;
  }

  /** After an effect was reported the run may go on along the table. */
  lemma MayGoOn(l: Lane, contracts: map<ContractKey, Contract>, tx: Transaction, to: Status)
    requires AtRest(l, contracts, tx) && CanTransition(tx.status, to)
    requires (tx.status in AFTER_EFFECT && to in AFTER_EFFECT + {UnknownEffect, ReconciliationRequired})
      || (tx.status == UnknownEffect && to == ReconciliationRequired)
    requires to in {Committing, Verified} ==>
      KeyOf(tx) in contracts && Summarize(contracts[KeyOf(tx)], tx.observations).confirmed
    ensures MayMove(l, contracts, tx, to) && !l.caseOpen
  {
    hide LaneHolds, OnTrack, ActionsFit, ObservationsFit, Summarize, RowFits;
    RestFacts(l, contracts, tx);
    ActionsFitOn(tx, to, l.calls);
    ObservationsFitOn(tx, to, contracts[KeyOf(tx)], l.calls);
  }

  /** How a completed run leaves its lane. */
  predicate RunEnded(l: Lane, tx: Transaction) {
    && tx.status in {Verified, Compensated, ReconciliationRequired, FailedInfrastructure}
    && (tx.status == ReconciliationRequired <==> l.caseOpen)
  }

  lemma MoveCarries(l: Lane, contracts: map<ContractKey, Contract>, tx: Transaction, to: Status, kind: MoveKind)
    requires MayMove(l, contracts, tx, to)
    ensures var p := MovePlan(tx, to, kind);
      && Carries(l, contracts, p) && p.end == Ok(tx.(status := to))
      && AtRest(After(l, p.acts), contracts, tx.(status := to))
      && After(l, p.acts) == l.(row := Some(tx.(status := to)), events := l.events + [Moved(kind, tx.status, to)])
  {
    hide LaneHolds, MayMove, OnTrack, Safe, After;
    MoveIsSafe(l, contracts, tx, to, kind);
  }

  lemma OpenCaseCarries(l: Lane, contracts: map<ContractKey, Contract>, tx: Transaction)
    requires AtRest(l, contracts, tx) && tx.status == ReconciliationRequired
    ensures var p := Plan([OpenCase(tx.id)], Ok(tx));
      && Carries(l, contracts, p) && RunEnded(After(l, p.acts), tx)
  {
    hide LaneHolds, OnTrack, Safe, After;
    OpenCaseIsSafe(l, contracts, tx);
  }

  lemma ReconcileIsSafe(l: Lane, contracts: map<ContractKey, Contract>, tx: Transaction)
    requires AtRest(l, contracts, tx) && tx.status in {UnknownEffect, ReconciliationRequired}
    ensures var p := ReconcilePlan(tx);
      && Carries(l, contracts, p) && p.end.Ok? && RunEnded(After(l, p.acts), p.end.value)
  {
    hide MayMove, AtRest, Carries, After;
    if tx.status == ReconciliationRequired {
      OpenCaseCarries(l, contracts, tx);
    } else {
      MayGoOn(l, contracts, tx, ReconciliationRequired);
      MoveCarries(l, contracts, tx, ReconciliationRequired, MoveReconciliation);
      var p := MovePlan(tx, ReconciliationRequired, MoveReconciliation);
      OpenCaseCarries(After(l, p.acts), contracts, p.end.value);
      CarriesChain(l, contracts, p, Plan([OpenCase(tx.id)], p.end));
    }
  }

  lemma GiveUpIsSafe(l: Lane, contracts: map<ContractKey, Contract>, tx: Transaction, kind: MoveKind)
    requires AtRest(l, contracts, tx) && tx.status == Compensating
    ensures var p := GiveUpPlan(tx, kind);
      && Carries(l, contracts, p) && p.end.Ok? && RunEnded(After(l, p.acts), p.end.value)
  {
    hide MayMove, AtRest, Carries, After, ReconcilePlan;
    MayGoOn(l, contracts, tx, ReconciliationRequired);
    MoveCarries(l, contracts, tx, ReconciliationRequired, kind);
    var p := MovePlan(tx, ReconciliationRequired, kind);
    ReconcileIsSafe(After(l, p.acts), contracts, p.end.value);
    CarriesChain(l, contracts, p, ReconcilePlan(p.end.value));
  }

  // ---------- compensation and the verdict ----------

  lemma CompensateCallCarries(l: Lane, contracts: map<ContractKey, Contract>, tx: Transaction)
    requires AtRest(l, contracts, tx) && tx.status == Compensating
    ensures var p := Plan([Outside(tx.id, CompensateCalled)], Ok(tx));
      Carries(l, contracts, p) && AtRest(After(l, p.acts), contracts, tx)
  {
    hide LaneHolds, OnTrack, Safe, After;
    QuietCallIsSafe(l, contracts, tx, CompensateCalled);
  }

  lemma CompensateIsSafe(l: Lane, contracts: map<ContractKey, Contract>, tx: Transaction, adapter: Adapter, a: Answers)
    requires AtRest(l, contracts, tx) && tx.status == Compensating
    ensures var p := CompensatePlan(tx, adapter, a);
      && Carries(l, contracts, p) && p.end.Ok? && RunEnded(After(l, p.acts), p.end.value)
  {
    hide MayMove, AtRest, Carries, After, GiveUpPlan, MovePlan;
    if !adapter.compensates {
      GiveUpIsSafe(l, contracts, tx, MoveCompensationUnavailable);
    } else {
      var p := Plan([Outside(tx.id, CompensateCalled)], Ok(tx));
      CompensateCallCarries(l, contracts, tx);
      var mid := After(l, p.acts);
      if a.compensated == Some(OutcomeExecuted) {
        MayGoOn(mid, contracts, tx, Compensated);
        MoveCarries(mid, contracts, tx, Compensated, MoveCompensated);
        CarriesChain(l, contracts, p, MovePlan(tx, Compensated, MoveCompensated));
      } else {
        var kind := if a.compensated.Some? then MoveCompensationFailed else MoveCompensationException;
        GiveUpIsSafe(mid, contracts, tx, kind);
        CarriesChain(l, contracts, p, GiveUpPlan(tx, kind));
      }
    }
  }

  lemma ReplayDecides(events: seq<Event>, status: Status)
    requires Replay(events) == Some(Verifying)
    ensures Replay(events + [VerificationDecided(status)]) == Some(status)
  {
    assert (events + [VerificationDecided(status)])[..|events|] == events;
  }

  lemma DecidedHolds(l: Lane, contracts: map<ContractKey, Contract>, tx: Transaction, next: Transaction)
    requires AtRest(l, contracts, tx) && tx.status == Verifying && KeyOf(tx) in contracts
    requires DecideVerificationOutcome(tx, contracts[KeyOf(tx)]) == Ok(next)
    ensures MayMove(l, contracts, tx, next.status) && next == tx.(status := next.status)
    ensures next.status in {Committing, Compensating, ReconciliationRequired, UnknownEffect}
  {
    hide AtRest, MayMove, Summarize;
    MayGoOn(l, contracts, tx, next.status);
  }

  /** The verdict written without the transition check is an edge of the table all the same. */
  lemma DecideCarries(l: Lane, contracts: map<ContractKey, Contract>, tx: Transaction, next: Transaction)
    requires AtRest(l, contracts, tx) && tx.status == Verifying && KeyOf(tx) in contracts
    requires DecideVerificationOutcome(tx, contracts[KeyOf(tx)]) == Ok(next)
    ensures var p := Plan([Put(next), Append(next.id, VerificationDecided(next.status))], Ok(next));
      Carries(l, contracts, p) && AtRest(After(l, p.acts), contracts, next)
  {
    hide LaneHolds, MayMove, Replay, Safe, After, DecideVerificationOutcome;
    DecidedHolds(l, contracts, tx, next);
    if Replay(l.events) == Some(tx.status) {
      ReplayDecides(l.events, next.status);
    }
    ReportedMoveIsSafe(l, contracts, tx, next.status, VerificationDecided(next.status));
  }

  lemma MayCommit(l: Lane, contracts: map<ContractKey, Contract>, tx: Transaction)
    requires AtRest(l, contracts, tx) && tx.status == Committing
    ensures MayMove(l, contracts, tx, Verified) && !l.caseOpen && tx.retryCount == 0
  {
    hide AtRest, MayMove, Summarize, ContractHash, ProposalHash, Cleared, ConfirmationsSourced, ActionsFit;
    RestFacts(l, contracts, tx);
    MayGoOn(l, contracts, tx, Verified);
  }

  lemma DecideIsSafe(l: Lane, contracts: map<ContractKey, Contract>, tx: Transaction, adapter: Adapter, a: Answers)
    requires AtRest(l, contracts, tx) && tx.status == Verifying
    ensures KeyOf(tx) in contracts
    ensures var p := DecidePlan(tx, contracts[KeyOf(tx)], adapter, a);
      && Carries(l, contracts, p) && p.end.Ok? && RunEnded(After(l, p.acts), p.end.value)
  {
    hide MayMove, AtRest, Carries, After, CompensatePlan, MovePlan, ReconcilePlan, Summarize;
    AtRestKey(l, contracts, tx);
    var c := contracts[KeyOf(tx)];
    var next := DecideVerificationOutcome(tx, c).value;
    DecidedHolds(l, contracts, tx, next);
    DecideCarries(l, contracts, tx, next);
    var p := Plan([Put(next), Append(next.id, VerificationDecided(next.status))], Ok(next));
    var mid := After(l, p.acts);
    hide DecideVerificationOutcome;
    if next.status == Committing {
      MayCommit(mid, contracts, next);
      MoveCarries(mid, contracts, next, Verified, MoveVerified);
      CarriesChain(l, contracts, p, MovePlan(next, Verified, MoveVerified));
    } else if next.status == Compensating {
      CompensateIsSafe(mid, contracts, next, adapter, a);
      CarriesChain(l, contracts, p, CompensatePlan(next, adapter, a));
    } else {
      ReconcileIsSafe(mid, contracts, next);
      CarriesChain(l, contracts, p, ReconcilePlan(next));
    }
  }
}
