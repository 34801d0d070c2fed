/** What the control plane guarantees after every sequence of operations, stopped runs included. */
module Guarantees {
  import opened Wrappers
  import opened Domain
  import opened StateMachine
  import opened Approvals
  import opened Verification
  import opened CoreRuntime
  import opened Store
  import opened Plans
  import opened Lanes
  import opened RunSafety
  import opened EngineSafety
  import opened Lifecycle

  function CallsOf(s: System, id: string): seq<Call> { Lookup(s.state.calls, id) }

  predicate ReportsEffect(call: Call) { call.ExecuteReturned? && call.outcome != OutcomeFailed }

  predicate ReportsFailure(call: Call) { call.ExecuteThrew? || call == ExecuteReturned(OutcomeFailed) }

  lemma CallsAreDisciplined(ops: seq<Op>, id: string)
    requires Admissible(ops)
    ensures Disciplined(CallsOf(SystemAfter(ops), id))
  {
    hide Safe, SystemAfter, UniqueKeys;
    AlwaysHolds(ops);
    assert LaneSafe(SystemAfter(ops), id);
    LaneDiscipline(LaneOf(SystemAfter(ops), id), SystemAfter(ops).state.contracts, ActsOf(SystemAfter(ops), id));
  }

  lemma LaneDiscipline(l: Lane, contracts: map<ContractKey, Contract>, acts: seq<Act>)
    requires Safe(l, contracts, acts)
    ensures Disciplined(l.calls) && LaneHolds(l, contracts)
  {
    hide RowFits, ActionsFit, ObservationsFit, InPlace, Legal, OnTrack, Replay;
  }

  // ---------- at most one effect ----------

  /** Once an execution reported an effect, the phase stays done. */
  lemma {:induction false} EffectSettles(calls: seq<Call>, i: nat, j: nat)
    requires Disciplined(calls) && i < j <= |calls| && ReportsEffect(calls[i])
    ensures PhaseOf(calls[..j]).Done?
    decreases j
  {
    hide Cleared;
    var k := j - 1;
    assert calls[..j] == calls[..k] + [calls[k]];
    PhaseStep(calls[..k], calls[k]);
    if i < k {
      EffectSettles(calls, i, k);
      assert InPlace(calls[..k], calls[k]);
    }
  }

  /** A call sequence is fresh only at its start and right after a reported failure. */
  lemma FreshAfterFailure(calls: seq<Call>, j: nat)
    requires Disciplined(calls) && 0 < j <= |calls| && PhaseOf(calls[..j]) == Fresh
    ensures ReportsFailure(calls[j - 1])
  {
    hide Cleared;
    assert calls[..j] == calls[..j - 1] + [calls[j - 1]];
    PhaseStep(calls[..j - 1], calls[j - 1]);
    assert InPlace(calls[..j - 1], calls[j - 1]);
  }

  /**
    In every history an execution that reported EXECUTED or UNKNOWN_EFFECT is never followed by another
    execute call for that transaction: a second execute call comes only right after a reported failure.
   */
  lemma NoExecuteAfterEffect(ops: seq<Op>, id: string, i: nat, j: nat)
    requires Admissible(ops)
    requires var calls := CallsOf(SystemAfter(ops), id); i < j < |calls| && calls[j].Execute?
    ensures var calls := CallsOf(SystemAfter(ops), id);
      !ReportsEffect(calls[i]) && ReportsFailure(calls[j - 1])
  {
    hide SystemAfter, Cleared;
    CallsAreDisciplined(ops, id);
    var calls := CallsOf(SystemAfter(ops), id);
    assert InPlace(calls[..j], calls[j]);
    FreshAfterFailure(calls, j);
    if ReportsEffect(calls[i]) {
      EffectSettles(calls, i, j);
    }
  }

  predicate HasEffect(a: Action) { a.status in {Executed, EffectUnknown} }

  lemma RowHolds(ops: seq<Op>, id: string)
    requires Admissible(ops) && id in SystemAfter(ops).state.transactions
    ensures LaneHolds(LaneOf(SystemAfter(ops), id), SystemAfter(ops).state.contracts)
  {
    hide Safe, SystemAfter, UniqueKeys, LaneHolds;
    AlwaysHolds(ops);
    assert LaneSafe(SystemAfter(ops), id);
    SafeLaneHolds(LaneOf(SystemAfter(ops), id), SystemAfter(ops).state.contracts, ActsOf(SystemAfter(ops), id));
  }

  lemma SafeLaneHolds(l: Lane, contracts: map<ContractKey, Contract>, acts: seq<Act>)
    requires Safe(l, contracts, acts)
    ensures LaneHolds(l, contracts)
  {
    hide LaneHolds, Legal, OnTrack, Replay;
  }

  lemma EarlierActionsFailed(tx: Transaction, calls: seq<Call>, i: nat)
    requires ActionsFit(tx, calls) && tx.status in STORED && i < |tx.actions| - 1
    ensures tx.actions[i].status == Failed
  {
    hide PhaseOf, Numbered;
    assert tx.actions[i] in tx.actions && tx.actions[i] in tx.actions[..|tx.actions| - 1];
  }

  lemma OneRowPerKey(ops: seq<Op>, id1: string, id2: string)
    requires Admissible(ops)
    requires var rows := SystemAfter(ops).state.transactions;
      id1 in rows && id2 in rows && SameIdempotencyKey(rows[id1], rows[id2])
    ensures id1 == id2
  {
    hide SystemAfter, LaneSafe, KeyedContracts;
    AlwaysHolds(ops);
  }

  lemma OneEffectPerRow(tx: Transaction, calls: seq<Call>, i: nat, j: nat)
    requires ActionsFit(tx, calls) && tx.status in STORED && i < |tx.actions| && j < |tx.actions|
    ensures HasEffect(tx.actions[i]) && HasEffect(tx.actions[j]) ==> i == j
    ensures i < |tx.actions| - 1 ==> tx.actions[i].status == Failed
  {
    hide ActionsFit;
    if i < |tx.actions| - 1 { EarlierActionsFailed(tx, calls, i); }
    if j < |tx.actions| - 1 { EarlierActionsFailed(tx, calls, j); }
  }

  /**
    End to end: for each tenant, environment and idempotency key at most one transaction exists, and on it
    at most one action ever ends with an effect or an unknown effect; every action but the last failed.
   */
  lemma AtMostOneEffectPerKey(ops: seq<Op>, id1: string, id2: string, i: nat, j: nat)
    requires Admissible(ops)
    requires var rows := SystemAfter(ops).state.transactions;
      && id1 in rows && id2 in rows && SameIdempotencyKey(rows[id1], rows[id2])
      && i < |rows[id1].actions| && j < |rows[id2].actions|
    ensures var rows := SystemAfter(ops).state.transactions;
      && id1 == id2
      && (HasEffect(rows[id1].actions[i]) && HasEffect(rows[id2].actions[j]) ==> i == j)
      && (i < |rows[id1].actions| - 1 ==> rows[id1].actions[i].status == Failed)
  {
    hide SystemAfter, LaneHolds, ActionsFit, ObservationsFit, RowFits, Disciplined;
    OneRowPerKey(ops, id1, id2);
    RowHolds(ops, id1);
    var s := SystemAfter(ops);
    HeldRow(LaneOf(s, id1), s.state.contracts);
    OneEffectPerRow(s.state.transactions[id1], CallsOf(s, id1), i, j);
  }

  lemma HeldRow(l: Lane, contracts: map<ContractKey, Contract>)
    requires LaneHolds(l, contracts) && l.row.Some?
    ensures var tx := l.row.value;
      && RowFits(tx, contracts) && KeyOf(tx) in contracts && ActionsFit(tx, l.calls) && tx.status in STORED
      && ObservationsFit(tx, contracts[KeyOf(tx)], l.calls) && Disciplined(l.calls) && tx.id == l.id
      && (l.caseOpen ==> tx.status == ReconciliationRequired)
      && (l.events != [] ==> tx.status !in BEFORE_RUN)
      && (forall call | call in l.calls && call.Execute? :: SameIdentity(call.context, tx))
  {
    hide ContractHash, ProposalHash, Cleared, Disciplined, ActionsFit, ObservationsFit;
  }

  // ---------- authority at the moment of execution ----------

  /**
    At every execute call the policy had allowed the transaction, every required role had at least its
    count of distinct approvers bound to the proposal hash, nothing was rejected, and the prepared hash is
    that same hash: the hash of the published contract and the stored input. The stored row has been cleared
    ever since.
   */
  lemma ExecuteOnlyWithAuthority(ops: seq<Op>, id: string, call: Call)
    requires Admissible(ops) && id in SystemAfter(ops).state.transactions
    requires call in CallsOf(SystemAfter(ops), id) && call.Execute?
    ensures var s := SystemAfter(ops);
      var row, tx := s.state.transactions[id], call.context;
      && tx.policyDecision.Some? && tx.policyDecision.value.allow
      && (forall rule | rule in RequiredApprovals(tx.policyDecision.value) ::
            |Approvers(tx.approvals, rule.role, call.preparedHash)| >= rule.count)
      && (forall a | a in tx.approvals && a.proposalHash == call.preparedHash :: a.decision.Approved?)
      && KeyOf(row) in s.state.contracts
      && call.preparedHash == row.proposalHash
        == ProposalHash(ContractHash(s.state.contracts[KeyOf(row)]), row.input)
      && Cleared(row)
  {
    hide SystemAfter, LaneHolds, ContractHash, ProposalHash, ActionsFit, ObservationsFit;
    var s := SystemAfter(ops);
    RowHolds(ops, id);
    HeldRow(LaneOf(s, id), s.state.contracts);
    var calls := CallsOf(s, id);
    var i :| 0 <= i < |calls| && calls[i] == call;
    assert InPlace(calls[..i], calls[i]);
    ExecutedRowIsCleared(s.state.transactions[id], s.state.contracts, calls);
  }

  /** A row with calls has left the statuses before a run, so it is cleared. */
  lemma ExecutedRowIsCleared(tx: Transaction, contracts: map<ContractKey, Contract>, calls: seq<Call>)
    requires RowFits(tx, contracts) && ActionsFit(tx, calls) && calls != []
    ensures Cleared(tx)
  {
    hide Cleared, ContractHash, ProposalHash, PhaseOf, Numbered;
  }

  // ---------- verified means verified ----------

  /**
    A stored VERIFIED comes with a last action that is EXECUTED and, for each expected effect, a
    confirmation at or above the minimum strength, given by a verifier of one of the contract's rules
    after the execution reported EXECUTED whenever verification is required.
   */
  lemma VerifiedMeansConfirmed(ops: seq<Op>, id: string, effect: string)
    requires Admissible(ops) && id in SystemAfter(ops).state.transactions
    requires var tx := SystemAfter(ops).state.transactions[id];
      && tx.status == Verified && KeyOf(tx) in SystemAfter(ops).state.contracts
      && effect in SystemAfter(ops).state.contracts[KeyOf(tx)].effects
    ensures var s := SystemAfter(ops);
      var tx := s.state.transactions[id];
      var c := s.state.contracts[KeyOf(tx)];
      && LastIs(tx.actions, Executed)
      && exists o | o in tx.observations ::
           && o.effectId == effect && o.result == EffectConfirmed && o.strength >= Minimum(c)
           && (c.verificationRequired ==> AnsweredAfterExecution(c, o, CallsOf(s, id)))
  {
    hide SystemAfter, LaneHolds, ContractHash, ProposalHash, Cleared, RowFits, PhaseOf;
    var s := SystemAfter(ops);
    var tx := s.state.transactions[id];
    var c := s.state.contracts[KeyOf(tx)];
    RowHolds(ops, id);
    HeldRow(LaneOf(s, id), s.state.contracts);
    assert ConfirmedAt(tx.observations, effect, Minimum(c));
    var o :| o in tx.observations && o.effectId == effect && o.result == EffectConfirmed && o.strength >= Minimum(c);
    assert Sourced(c, o, CallsOf(s, id));
    if c.verificationRequired {
      SourcedAfterExecution(c, o, CallsOf(s, id));
    }
  }

  /** The observation is a rule's verifier's answer, adjusted, received when EXECUTED had been reported. */
  ghost predicate AnsweredAfterExecution(c: Contract, o: Observation, calls: seq<Call>) {
    exists i, rule | 0 <= i < |calls| && rule in c.rules ::
      && calls[i].VerifierReturned? && calls[i].verifier == rule.verifier
      && o == calls[i].observation.(strength := o.strength)
      && o.strength == (
           if calls[i].observation.strength != 0.0 then calls[i].observation.strength
           else if rule.strength.Some? then rule.strength.value else 0.0)
      && PhaseOf(calls[..i]) == Done(OutcomeExecuted)
  }

  lemma SourcedAfterExecution(c: Contract, o: Observation, calls: seq<Call>)
    requires c.verificationRequired && Sourced(c, o, calls) && Disciplined(calls)
    ensures AnsweredAfterExecution(c, o, calls)
  {
    hide PhaseOf, Cleared;
    var call, rule :| call in calls && rule in c.rules
      && call.VerifierReturned? && call.verifier == rule.verifier && o == Adjusted(call.observation, rule);
    var i :| 0 <= i < |calls| && calls[i] == call;
    assert InPlace(calls[..i], calls[i]);
  }

  // ---------- evidence ----------

  /**
    When no call is under way on a transaction, its evidence replays from READY to its stored status,
    unless some run on it stopped between a status write and the event that reports it.
   */
  lemma EvidenceTellsStatus(ops: seq<Op>, id: string)
    requires Admissible(ops) && id in SystemAfter(ops).state.transactions
    requires id !in SystemAfter(ops).pending && id !in SystemAfter(ops).torn
    ensures var s := SystemAfter(ops);
      var status := s.state.transactions[id].status;
      && (status in BEFORE_RUN ==> Lookup(s.state.evidence, id) == [])
      && (status !in {AwaitingApproval, RejectedByPolicy, Cancelled} ==>
            Replay(Lookup(s.state.evidence, id)) == Some(status))
  {
    hide SystemAfter, UniqueKeys, LaneHolds, Replay;
    AlwaysHolds(ops);
    var s := SystemAfter(ops);
    assert LaneSafe(s, id);
    RowHolds(ops, id);
    LaneEventsBeforeRun(LaneOf(s, id), s.state.contracts);
  }

  lemma LaneEventsBeforeRun(l: Lane, contracts: map<ContractKey, Contract>)
    requires LaneHolds(l, contracts) && l.row.Some?
    ensures l.row.value.status in BEFORE_RUN ==> l.events == []
  {
    hide RowFits, Disciplined, ActionsFit, ObservationsFit;
  }

  lemma {:induction false} ReplayPrefix(a: seq<Event>, b: seq<Event>)
    ensures Replay(a + b).Some? ==> Replay(a).Some?
    decreases |b|
  {
    if b == [] {
      assert a + b == a;
    } else {
      assert (a + b)[..|a + b| - 1] == a + b[..|b| - 1];
      ReplayPrefix(a, b[..|b| - 1]);
    }
  }

  lemma {:induction false} AfterKeepsEvents(l: Lane, acts: seq<Act>) returns (more: seq<Event>)
    ensures After(l, acts).events == l.events + more && After(l, acts).torn == l.torn
    decreases |acts|
  {
    if acts == [] {
      more := [];
      assert l.events + [] == l.events;
    } else {
      var rest := AfterKeepsEvents(Advance(l, acts[0]), acts[1..]);
      more := (if acts[0].Append? then [acts[0].event] else []) + rest;
      assert l.events + more == Advance(l, acts[0]).events + rest;
    }
  }

  lemma RunStartsWithMove(tx: Transaction, c: Contract, regs: Registries, a: Answers)
    requires tx.status in {Ready, FailedInfrastructure, UnknownEffect}
    ensures var acts := RunPlan(tx, c, regs, a).acts;
      && |acts| >= 2 && acts[0].Put? && acts[1].Append? && acts[1].event.Moved? && acts[1].event.from == tx.status
  {
    hide AttemptPlan;
  }

  /** A completed run leaves evidence that tells the status exactly when the evidence told it before. */
  lemma CompletedRunKeepsTrackExactly(
    l: Lane, contracts: map<ContractKey, Contract>, tx: Transaction, regs: Registries, a: Answers)
    requires AtRest(l, contracts, tx) && tx.status in {Ready, FailedInfrastructure, UnknownEffect}
    ensures KeyOf(tx) in contracts
    ensures var p := RunPlan(tx, contracts[KeyOf(tx)], regs, a);
      p.end.Ok? ==>
        (Replay(After(l, p.acts).events) == Some(p.end.value.status) <==> Replay(l.events) == Some(tx.status))
  {
    hide LaneHolds, RunPlan, After, Safe, Replay;
    AtRestKey(l, contracts, tx);
    var p := RunPlan(tx, contracts[KeyOf(tx)], regs, a);
    var clean := l.(torn := false);
    if p.end.Ok? && Replay(l.events) == Some(tx.status) {
      UntornAtRest(l, contracts, tx);
      RunIsSafe(clean, contracts, tx, regs, a);
      AfterIgnoresTorn(l, p.acts);
      TrackedEnd(clean, contracts, p);
    }
    if p.end.Ok? && Replay(After(l, p.acts).events).Some? {
      RunStartsWithMove(tx, contracts[KeyOf(tx)], regs, a);
      FirstEventTells(l, p.acts);
    }
  }

  lemma UntornAtRest(l: Lane, contracts: map<ContractKey, Contract>, tx: Transaction)
    requires AtRest(l, contracts, tx) && Replay(l.events) == Some(tx.status)
    ensures AtRest(l.(torn := false), contracts, tx)
  {
    hide RowFits, Disciplined, ActionsFit, ObservationsFit, Replay;
  }

  lemma {:induction false} AfterIgnoresTorn(l: Lane, acts: seq<Act>)
    ensures After(l.(torn := false), acts) == After(l, acts).(torn := false)
    decreases |acts|
  {
    if acts != [] {
      AfterIgnoresTorn(Advance(l, acts[0]), acts[1..]);
    }
  }

  lemma TrackedEnd(l: Lane, contracts: map<ContractKey, Contract>, p: Plan)
    requires Completes(l, contracts, p) && p.end.Ok? && !l.torn
    ensures Replay(After(l, p.acts).events) == Some(p.end.value.status)
  {
    hide LaneHolds, After, Replay;
    var more := AfterKeepsEvents(l, p.acts);
    assert Safe(After(l, p.acts), contracts, []);
  }

  lemma FirstEventTells(l: Lane, acts: seq<Act>)
    requires |acts| >= 2 && acts[0].Put? && acts[1].Append? && acts[1].event.Moved?
    requires Replay(After(l, acts).events).Some?
    ensures Replay(l.events) == Some(acts[1].event.from)
  {
    var mid := Advance(Advance(l, acts[0]), acts[1]);
    assert After(l, acts) == After(mid, acts[2..]) by {
      assert acts[1..][1..] == acts[2..];
    }
    var more := AfterKeepsEvents(mid, acts[2..]);
    ReplayPrefix(mid.events, more);
    assert mid.events[..|l.events|] == l.events;
  }

  /** Once a transaction has evidence, no API call can change it. */
  lemma EvidenceClosesTheApi(
    ops: seq<Op>, id: string, tenantId: string, role: string, actorId: string, decision: string)
    requires Admissible(ops) && id in SystemAfter(ops).state.transactions
    requires Lookup(SystemAfter(ops).state.evidence, id) != []
    ensures var s := SystemAfter(ops).state;
      && ApprovePlan(s, id, tenantId, role, actorId, decision).acts == []
      && CancelPlan(s, id, tenantId).acts == []
  {
    hide SystemAfter, LaneHolds, RowFits, ActionsFit, ObservationsFit, Disciplined, SameIdentity, RecordApproval;
    RowHolds(ops, id);
    HeldRow(LaneOf(SystemAfter(ops), id), SystemAfter(ops).state.contracts);
    RunningRowClosesTheApi(SystemAfter(ops).state, id, tenantId, role, actorId, decision);
  }

  lemma RunningRowClosesTheApi(s: State, id: string, tenantId: string, role: string, actorId: string, decision: string)
    requires id in s.transactions && s.transactions[id].status in STORED - BEFORE_RUN
    ensures ApprovePlan(s, id, tenantId, role, actorId, decision).acts == []
    ensures CancelPlan(s, id, tenantId).acts == []
  {}

  // ---------- status changes and identity ----------

  /** The next act of every pending list is for that transaction. */
  ghost predicate PendingOnTarget(s: System) {
    forall id | id in s.pending && s.pending[id] != [] :: Legal(LaneOf(s, id), s.pending[id][0])
  }

  lemma PendingStaysOnTarget(s: System)
    requires Holds(s)
    ensures PendingOnTarget(s)
  {
    hide Safe, UniqueKeys, Legal;
    forall id | id in s.pending && s.pending[id] != [] ensures Legal(LaneOf(s, id), s.pending[id][0]) {
      assert LaneSafe(s, id);
      SafeHead(LaneOf(s, id), s.state.contracts, s.pending[id]);
    }
  }

  lemma OtherOpsKeepRow(s: System, op: Op, id: string)
    requires PendingOnTarget(s) && Enabled(s, op) && op != Proceed(id) && id in s.state.transactions
    ensures id in Step(s, op).state.transactions && Step(s, op).state.transactions[id] == s.state.transactions[id]
  {
    hide PlanOf, CanTransition;
  }

  lemma ProceedMovesAlongTable(s: System, id: string)
    requires PendingOnTarget(s) && Enabled(s, Proceed(id)) && id in s.state.transactions
    ensures var s' := Step(s, Proceed(id));
      id in s'.state.transactions && RowAdvances(s.state.transactions[id], s'.state.transactions[id])
  {
    hide CanTransition, ActionsAdvance;
    NoChangeAdvances(s.state.transactions[id].actions);
    assert Legal(LaneOf(s, id), s.pending[id][0]);
  }

  /** A row changes its status along the table or not at all, its actions along theirs, the other columns never. */
  predicate RowAdvances(before: Transaction, after: Transaction) {
    && (before.status == after.status || CanTransition(before.status, after.status))
    && ActionsAdvance(before.actions, after.actions)
    && after == before.(
         status := after.status, policyDecision := after.policyDecision, approvals := after.approvals,
         actions := after.actions, observations := after.observations, retryCount := after.retryCount)
  }

  lemma NoChangeAdvances(actions: seq<Action>)
    ensures ActionsAdvance(actions, actions)
  {}

  /** Every operation moves every stored row along the two tables, also where the code checks no table. */
  lemma RowsMoveAlongTables(ops: seq<Op>, op: Op, id: string)
    requires Admissible(ops) && Enabled(SystemAfter(ops), op) && id in SystemAfter(ops).state.transactions
    ensures var s, s' := SystemAfter(ops), Step(SystemAfter(ops), op);
      id in s'.state.transactions && RowAdvances(s.state.transactions[id], s'.state.transactions[id])
  {
    hide ActionsAdvance, SystemAfter, Holds, PendingOnTarget, Step, CanTransition;
    AlwaysHolds(ops);
    PendingStaysOnTarget(SystemAfter(ops));
    if op == Proceed(id) {
      ProceedMovesAlongTable(SystemAfter(ops), id);
    } else {
      OtherOpsKeepRow(SystemAfter(ops), op, id);
      NoChangeAdvances(SystemAfter(ops).state.transactions[id].actions);
    }
  }

  /** A published contract version never changes, whatever is published or run later. */
  lemma ContractsNeverChange(s: System, op: Op, key: ContractKey)
    requires Enabled(s, op) && key in s.state.contracts
    ensures key in Step(s, op).state.contracts && Step(s, op).state.contracts[key] == s.state.contracts[key]
  {
    hide PlanOf;
  }

  /** The contract a run loads is the one whose hash the transaction recorded. */
  lemma RunLoadsRecordedContract(ops: seq<Op>, id: string)
    requires Admissible(ops) && id in SystemAfter(ops).state.transactions
    ensures var s := SystemAfter(ops).state;
      var tx := s.transactions[id];
      KeyOf(tx) in s.contracts && ContractHash(s.contracts[KeyOf(tx)]) == tx.contractSnapshotHash
  {
    hide SystemAfter, LaneHolds, ContractHash, ProposalHash, ActionsFit, ObservationsFit, Disciplined, Cleared;
    RowHolds(ops, id);
    HeldRow(LaneOf(SystemAfter(ops), id), SystemAfter(ops).state.contracts);
  }

  /** Of the twenty statuses only thirteen are ever stored; VERIFIED_AFTER_RETRY is not one of them. */
  lemma StatusesNeverStored(ops: seq<Op>, id: string)
    requires Admissible(ops) && id in SystemAfter(ops).state.transactions
    ensures var tx := SystemAfter(ops).state.transactions[id];
      && tx.status !in {Created, Validating, PolicyEvaluation, Preparing}
      && tx.status !in {HaltedBeforeEffect, PartiallyCommitted, VerifiedAfterRetry}
      && tx.retryCount == 0
  {
    hide SystemAfter, LaneHolds, ContractHash, ProposalHash, ActionsFit, ObservationsFit, Disciplined, Cleared;
    RowHolds(ops, id);
    HeldRow(LaneOf(SystemAfter(ops), id), SystemAfter(ops).state.contracts);
  }

  // ---------- how runs end, and what a stop leaves ----------

  /**
    A run from READY, FAILED_INFRASTRUCTURE or UNKNOWN_EFFECT that is not stopped either throws because
    credentials or a verifier failed, never because of a transition, or it ends VERIFIED, COMPENSATED,
    RECONCILIATION_REQUIRED or FAILED_INFRASTRUCTURE, and in RECONCILIATION_REQUIRED exactly with an open case.
   */
  lemma RunEndsAsPromised(ops: seq<Op>, id: string, tenantId: string, regs: Registries, a: Answers)
    requires Admissible(ops) && id in SystemAfter(ops).state.transactions && id !in SystemAfter(ops).pending
    requires GetTransaction(SystemAfter(ops).state, id, tenantId).Ok?
    requires SystemAfter(ops).state.transactions[id].status in {Ready, FailedInfrastructure, UnknownEffect}
    ensures var s := SystemAfter(ops);
      var p := EnginePlan(s.state, id, tenantId, regs, a);
      var done := After(LaneOf(s, id), p.acts);
      match p.end
      case Err(e) => e in {CredentialFailure, VerifierFailure}
      case Ok(tx) =>
        && done.row == Some(tx)
        && tx.status in {Verified, Compensated, ReconciliationRequired, FailedInfrastructure}
        && (tx.status == ReconciliationRequired <==> done.caseOpen)
  {
    hide SystemAfter, UniqueKeys, Safe, RunPlan, After;
    AlwaysHolds(ops);
    var s := SystemAfter(ops);
    assert LaneSafe(s, id);
    LaneAtRest(s, id);
    RunIsSafe(LaneOf(s, id), s.state.contracts, s.state.transactions[id], regs, a);
  }

  /** The statuses from which nothing the system does leads anywhere. */
  const AT_A_STANDSTILL: set<Status> :=
    {Executing, Verifying, Committing, Compensating}
    + {Verified, Compensated, ReconciliationRequired, RejectedByPolicy, Cancelled}

  lemma StandstillStartsNothing(s: System, op: Op, id: string)
    requires id in s.state.transactions && s.state.transactions[id].status in AT_A_STANDSTILL
    requires (op.ApproveTx? || op.CancelTx? || op.RunTx?) && op.id == id
    ensures PlanOf(s.state, op).acts == []
  {
    hide RunPlan;
    if op.RunTx? {
      IdleRunDoesNothing(s.state, id, op.tenantId, op.regs, op.answers);
    }
  }

  lemma StandstillStays(s: System, op: Op, id: string)
    requires PendingOnTarget(s) && Enabled(s, op) && id in s.state.transactions && id !in s.pending
    requires s.state.transactions[id].status in AT_A_STANDSTILL
    ensures id !in Step(s, op).pending && LaneOf(Step(s, op), id) == LaneOf(s, id)
  {
    hide PlanOf, PendingOnTarget, Violates, Apply;
    if op.Proceed? {
      OtherProceedLeavesLane(s, op.id, id);
    } else if (op.ApproveTx? || op.CancelTx? || op.RunTx?) && op.id == id {
      StandstillStartsNothing(s, op, id);
    }
  }

  lemma OtherProceedLeavesLane(s: System, other: string, id: string)
    requires PendingOnTarget(s) && Enabled(s, Proceed(other)) && other != id
    ensures LaneOf(Step(s, Proceed(other)), id) == LaneOf(s, id)
    ensures id in Step(s, Proceed(other)).pending <==> id in s.pending
  {
    hide Legal, Violates, Apply;
    var s' := Step(s, Proceed(other));
    assert Legal(LaneOf(s, other), s.pending[other][0]);
    if !Violates(s.state, s.pending[other][0]) {
      ActStaysInLane(s, other, s'.pending);
    }
  }

  /**
    A run that stopped in mid-execution stays where it stopped: whatever operations follow, no statement,
    no event and no outside call touches that transaction again.
   */
  lemma {:induction false} StoppedRunStaysPut(ops: seq<Op>, more: seq<Op>, id: string)
    requires Admissible(ops) && Admissible(ops + more)
    requires var s := SystemAfter(ops);
      id in s.state.transactions && id !in s.pending && s.state.transactions[id].status in AT_A_STANDSTILL
    ensures var s := SystemAfter(ops + more);
      id !in s.pending && LaneOf(s, id) == LaneOf(SystemAfter(ops), id)
    decreases |more|
  {
    hide Step, Enabled, Holds, PendingOnTarget;
    if more == [] {
      assert ops + more == ops;
    } else {
      var front, op := more[..|more| - 1], more[|more| - 1];
      assert (ops + more)[..|ops + more| - 1] == ops + front && (ops + more)[|ops + more| - 1] == op;
      StoppedRunStaysPut(ops, front, id);
      AlwaysHolds(ops + front);
      PendingStaysOnTarget(SystemAfter(ops + front));
      SameLaneSameRow(SystemAfter(ops), SystemAfter(ops + front), id);
      StandstillStays(SystemAfter(ops + front), op, id);
    }
  }

  lemma SameLaneSameRow(s: System, t: System, id: string)
    requires LaneOf(s, id) == LaneOf(t, id) && id in s.state.transactions
    ensures id in t.state.transactions && t.state.transactions[id] == s.state.transactions[id]
  {}
}
