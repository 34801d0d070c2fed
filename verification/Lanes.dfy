/**
  One transaction's share of the state, the invariant it keeps, and what it means for a list of acts
  to be safe: the invariant holds before, between and after them, wherever the process stops.
 */
module Lanes {
  import opened Wrappers
  import opened Domain
  import opened StateMachine
  import opened Approvals
  import opened Verification
  import opened CoreRuntime
  import opened Store
  import opened Plans

  /** `torn`: some process stopped between a status write and the event that reports it. */
  datatype Lane = Lane(
    id: string, row: Option<Transaction>, events: seq<Event>, caseOpen: bool, calls: seq<Call>, torn: bool)

  function Advance(l: Lane, a: Act): Lane {
    match a
    case Put(tx) => l.(row := Some(if l.row.Some? then Merge(l.row.value, tx) else tx))
    case Append(_, event) => l.(events := l.events + [event])
    case OpenCase(_) => l.(caseOpen := true)
    case Outside(_, call) => l.(calls := l.calls + [call])
  }

  function After(l: Lane, acts: seq<Act>): Lane
    decreases |acts|
  {
    if acts == [] then l else After(Advance(l, acts[0]), acts[1..])
  }

  // ---------- the execute discipline ----------

  /** Fresh: nothing is known to have reached the outside; Open: a call is out; Done: it reported an effect. */
  datatype Phase = Fresh | Open | Done(outcome: Outcome)

  function NextPhase(p: Phase, call: Call): Phase {
    match call
    case Execute(_, _) => Open
    case ExecuteReturned(outcome) => if outcome == OutcomeFailed then Fresh else Done(outcome)
    case ExecuteThrew => Fresh
    case _ => p
  }

  function PhaseOf(calls: seq<Call>): Phase {
    if calls == [] then Fresh else NextPhase(PhaseOf(calls[..|calls| - 1]), calls[|calls| - 1])
  }

  /** The columns no later statement overwrites. */
  predicate SameIdentity(a: Transaction, b: Transaction) { Merge(a, b) == b }

  /**
    A call in its place: an execute call comes when nothing is out or reported, on a cleared transaction
    and with the approved hash; it is answered once; verifiers and compensations are called only after an
    execution reported EXECUTED.
   */
  ghost predicate InPlace(before: seq<Call>, call: Call) {
    match call
    case Execute(context, hash) => PhaseOf(before) == Fresh && Cleared(context) && hash == context.proposalHash
    case VerifierReturned(_, _) => PhaseOf(before) == Done(OutcomeExecuted)
    case CompensateCalled => PhaseOf(before) == Done(OutcomeExecuted)
    case ExecuteReturned(_) => PhaseOf(before) == Open
    case ExecuteThrew => PhaseOf(before) == Open
  }

  ghost predicate Disciplined(calls: seq<Call>) {
    forall i | 0 <= i < |calls| :: InPlace(calls[..i], calls[i])
  }

  lemma DisciplinedMore(calls: seq<Call>, call: Call)
    requires Disciplined(calls) && InPlace(calls, call)
    ensures Disciplined(calls + [call]) && PhaseOf(calls + [call]) == NextPhase(PhaseOf(calls), call)
  {
    hide InPlace, PhaseOf;
    var more := calls + [call];
    assert more[..|calls|] == calls;
    forall i | 0 <= i < |more| ensures InPlace(more[..i], more[i]) {
      assert more[..i] == calls[..i];
      if i < |calls| {
        assert more[i] == calls[i];
      }
    }
    PhaseStep(calls, call);
  }

  lemma PhaseStep(calls: seq<Call>, call: Call)
    ensures PhaseOf(calls + [call]) == NextPhase(PhaseOf(calls), call)
  {
    assert (calls + [call])[..|calls|] == calls;
  }

  // ---------- actions ----------

  predicate AllFailed(actions: seq<Action>) { forall a | a in actions :: a.status == Failed }

  predicate Numbered(actions: seq<Action>) { forall i | 0 <= i < |actions| :: actions[i].id == i + 1 }

  predicate AllButLastFailed(actions: seq<Action>) { actions != [] && AllFailed(actions[..|actions| - 1]) }

  predicate LastIs(actions: seq<Action>, status: ActionStatus) {
    AllButLastFailed(actions) && actions[|actions| - 1].status == status
  }

  const BEFORE_RUN: set<Status> := {AwaitingApproval, RejectedByPolicy, Cancelled, Ready}
  const AFTER_EFFECT: set<Status> := {Verifying, Committing, Verified, Compensating, Compensated}
  const STORED: set<Status> :=
    BEFORE_RUN + AFTER_EFFECT + {FailedInfrastructure, Executing, UnknownEffect, ReconciliationRequired}

  /** What the recorded actions and the calls say at each stored status. */
  ghost predicate ActionsFit(tx: Transaction, calls: seq<Call>) {
    var phase := PhaseOf(calls);
    && Numbered(tx.actions)
    && (tx.status in BEFORE_RUN ==> tx.actions == [] && calls == [])
    && (tx.status == FailedInfrastructure ==> AllFailed(tx.actions) && phase == Fresh)
    && (tx.status == Executing ==> AllFailed(tx.actions) || AllButLastFailed(tx.actions))
    && (tx.status == Executing && AllFailed(tx.actions) ==> phase == Fresh)
    && (tx.status in AFTER_EFFECT ==> LastIs(tx.actions, Executed))
    && (tx.status in {UnknownEffect, ReconciliationRequired} ==>
          LastIs(tx.actions, Executed) || LastIs(tx.actions, EffectUnknown))
    && (LastIs(tx.actions, Executed) ==> phase == Done(OutcomeExecuted))
    && (LastIs(tx.actions, EffectUnknown) ==> phase == Done(OutcomeUnknown))
  }

  // ---------- observations ----------

  /** Where a confirmation came from: a registered verifier's answer, or no verification being required. */
  ghost predicate Sourced(c: Contract, o: Observation, calls: seq<Call>) {
    if c.verificationRequired then
      exists call, rule | call in calls && rule in c.rules ::
        call.VerifierReturned? && call.verifier == rule.verifier && o == Adjusted(call.observation, rule)
    else o.strength == 0.0 && o.source == "verification-not-required" && o.effectId in c.effects
  }

  ghost predicate ConfirmationsSourced(c: Contract, observations: seq<Observation>, calls: seq<Call>) {
    forall o | o in observations && o.result == EffectConfirmed :: Sourced(c, o, calls)
  }

  ghost predicate ObservationsFit(tx: Transaction, c: Contract, calls: seq<Call>) {
    && (tx.status in BEFORE_RUN + {FailedInfrastructure, Executing} ==> tx.observations == [])
    && ConfirmationsSourced(c, tx.observations, calls)
    && (tx.status in {Committing, Verified} ==> Summarize(c, tx.observations).confirmed)
  }

  // ---------- the invariant of a lane ----------

  ghost predicate RowFits(tx: Transaction, contracts: map<ContractKey, Contract>) {
    && KeyOf(tx) in contracts
    && tx.contractSnapshotHash == ContractHash(contracts[KeyOf(tx)])
    && tx.proposalHash == ProposalHash(tx.contractSnapshotHash, tx.input)
    && tx.retryCount == 0
    && tx.status in STORED
    && tx.policyDecision.Some?
    && (forall a | a in tx.approvals :: a.proposalHash == tx.proposalHash)
    && (tx.status == AwaitingApproval ==>
          tx.policyDecision.value.allow && !ApprovalRejected(tx.approvals, tx.proposalHash))
    && (tx.status !in {AwaitingApproval, RejectedByPolicy, Cancelled} ==> Cleared(tx))
  }

  ghost predicate LaneHolds(l: Lane, contracts: map<ContractKey, Contract>) {
    if l.row.None? then l.events == [] && !l.caseOpen && l.calls == []
    else
      var tx := l.row.value;
      && tx.id == l.id
      && RowFits(tx, contracts)
      && Disciplined(l.calls)
      && (forall call | call in l.calls && call.Execute? :: SameIdentity(call.context, tx))
      && ActionsFit(tx, l.calls)
      && ObservationsFit(tx, contracts[KeyOf(tx)], l.calls)
      && (l.caseOpen ==> tx.status == ReconciliationRequired)
      && (l.events != [] ==> tx.status !in BEFORE_RUN)
  }

  // ---------- evidence replay ----------

  /** Replaying the evidence of a transaction from READY; none when an event starts from another status. */
  function Replay(events: seq<Event>): Option<Status> {
    if events == [] then Some(Ready)
    else
      var before := Replay(events[..|events| - 1]);
      if before.None? then None
      else match events[|events| - 1]
        case Moved(_, from, to) => if from == before.value then Some(to) else None
        case VerificationDecided(status) => if before.value == Verifying then Some(status) else None
        case _ => before
  }

  /** An event that reports a status change, and the change it reports. */
  predicate IsReportEvent(e: Event) { e.Moved? || e.VerificationDecided? }

  function From(e: Event): Status
    requires IsReportEvent(e)
  {
    if e.Moved? then e.from else Verifying
  }

  function To(e: Event): Status
    requires IsReportEvent(e)
  {
    if e.Moved? then e.to else e.status
  }

  /** The evidence tells the stored status; before any run there is none to tell. */
  predicate OnTrack(l: Lane) {
    || l.row.None?
    || (l.row.value.status in {AwaitingApproval, RejectedByPolicy, Cancelled} && l.events == [])
    || Replay(l.events) == Some(l.row.value.status)
  }

  /** The next act is the event that reports the status just written. */
  predicate Reports(l: Lane, acts: seq<Act>) {
    && acts != [] && acts[0].Append? && IsReportEvent(acts[0].event)
    && l.row.Some? && Replay(l.events + [acts[0].event]) == Some(l.row.value.status)
  }

  // ---------- safety of a list of acts ----------

  predicate EdgeOrSame(from: Status, to: Status) { from == to || CanTransition(from, to) }

  /** Recorded actions stay and change along their own table; a new one is recorded as being executed. */
  predicate ActionsAdvance(before: seq<Action>, after: seq<Action>) {
    && |before| <= |after|
    && (forall i | 0 <= i < |before| ::
          && after[i].id == before[i].id && after[i].executor == before[i].executor
          && (after[i].status == before[i].status || CanTransitionAction(before[i].status, after[i].status)))
    && (forall i | |before| <= i < |after| :: after[i].status == ActionExecuting)
  }

  /** What may be done next: statements on this lane only, and status writes only along the table. */
  predicate Legal(l: Lane, a: Act) {
    && Target(a) == l.id
    && (l.row.None? ==> a.Put? && a.tx.status in {AwaitingApproval, RejectedByPolicy, Ready})
    && (l.row.Some? && a.Put? ==>
          && SameIdentity(l.row.value, a.tx) && EdgeOrSame(l.row.value.status, a.tx.status)
          && ActionsAdvance(l.row.value.actions, a.tx.actions))
  }

  ghost predicate Safe(l: Lane, contracts: map<ContractKey, Contract>, acts: seq<Act>)
    decreases |acts|
  {
    && LaneHolds(l, contracts)
    && (!l.torn ==> OnTrack(l) || Reports(l, acts))
    && (acts != [] ==> Legal(l, acts[0]) && Safe(Advance(l, acts[0]), contracts, acts[1..]))
  }

  lemma {:induction false} SafeConcat(l: Lane, contracts: map<ContractKey, Contract>, a: seq<Act>, b: seq<Act>)
    requires Safe(l, contracts, a) && Safe(After(l, a), contracts, b)
    ensures Safe(l, contracts, a + b) && After(l, a + b) == After(After(l, a), b)
    decreases |a|
  {
    hide LaneHolds, OnTrack, Legal, Advance, Replay;
    if a == [] {
      assert a + b == b;
    } else {
      SafeConcat(Advance(l, a[0]), contracts, a[1..], b);
      assert (a + b)[0] == a[0] && (a + b)[1..] == a[1..] + b;
    }
  }

  lemma AdvanceKeepsTorn(l: Lane, a: Act)
    ensures Advance(l, a).torn == l.torn && Advance(l, a).id == l.id
  {}

  lemma SafeCons(l: Lane, contracts: map<ContractKey, Contract>, a: Act, rest: seq<Act>)
    requires LaneHolds(l, contracts) && Legal(l, a) && Safe(Advance(l, a), contracts, rest)
    requires !l.torn ==> OnTrack(l) || Reports(l, [a])
    ensures Safe(l, contracts, [a] + rest) && After(l, [a] + rest) == After(Advance(l, a), rest)
  {
    hide LaneHolds, OnTrack, Legal, Advance, Replay;
    assert ([a] + rest)[0] == a && ([a] + rest)[1..] == rest;
  }

  lemma SafeOne(l: Lane, contracts: map<ContractKey, Contract>, a: Act)
    requires LaneHolds(l, contracts) && Legal(l, a) && Safe(Advance(l, a), contracts, [])
    requires !l.torn ==> OnTrack(l) || Reports(l, [a])
    ensures Safe(l, contracts, [a]) && After(l, [a]) == Advance(l, a)
  {
    hide LaneHolds, OnTrack, Legal, Advance, Replay, Safe;
    SafeCons(l, contracts, a, []);
    assert [a] + [] == [a];
  }

  /** A status write followed by the event that reports it. */
  lemma SafeReported(l: Lane, contracts: map<ContractKey, Contract>, a: Act, b: Act)
    requires Safe(l, contracts, []) && Legal(l, a) && LaneHolds(Advance(l, a), contracts)
    requires !l.torn ==> OnTrack(Advance(l, a)) || Reports(Advance(l, a), [b])
    requires Legal(Advance(l, a), b) && Safe(Advance(Advance(l, a), b), contracts, [])
    ensures Safe(l, contracts, [a, b]) && After(l, [a, b]) == Advance(Advance(l, a), b)
  {
    hide LaneHolds, OnTrack, Legal, Advance, Replay;
    AdvanceKeepsTorn(l, a);
    SafeOne(Advance(l, a), contracts, b);
    hide Safe;
    SafeCons(l, contracts, a, [b]);
    assert [a] + [b] == [a, b];
  }

  lemma {:induction false} SafeWithMoreContracts(
    l: Lane, contracts: map<ContractKey, Contract>, more: map<ContractKey, Contract>, acts: seq<Act>)
    requires Safe(l, contracts, acts) && forall k | k in contracts :: k in more && more[k] == contracts[k]
    ensures Safe(l, more, acts)
    decreases |acts|
  {
    assert LaneHolds(l, more) by {
      hide ContractHash, ProposalHash, Disciplined, ActionsFit, ObservationsFit, Cleared;
    }
    hide LaneHolds, OnTrack, Legal, Advance, Replay;
    if acts != [] {
      SafeWithMoreContracts(Advance(l, acts[0]), contracts, more, acts[1..]);
    }
  }

  // ---------- status changes ----------

  /** What must be known to move a running transaction to another running status. */
  ghost predicate MayMove(l: Lane, contracts: map<ContractKey, Contract>, tx: Transaction, to: Status) {
    && Safe(l, contracts, []) && l.row == Some(tx)
    && tx.status !in {AwaitingApproval, RejectedByPolicy, Cancelled} && to in STORED - BEFORE_RUN
    && CanTransition(tx.status, to)
    && ActionsFit(tx.(status := to), l.calls)
    && ObservationsFit(tx.(status := to), contracts[KeyOf(tx)], l.calls)
    && (l.caseOpen ==> to == ReconciliationRequired)
  }

  lemma SafeRow(l: Lane, contracts: map<ContractKey, Contract>, tx: Transaction)
    requires Safe(l, contracts, []) && l.row == Some(tx)
    ensures LaneHolds(l, contracts) && RowFits(tx, contracts)
  {
    hide RowFits, ActionsFit, ObservationsFit, Disciplined, OnTrack;
  }

  lemma MovedRowFits(tx: Transaction, to: Status, contracts: map<ContractKey, Contract>)
    requires RowFits(tx, contracts) && tx.status !in {AwaitingApproval, RejectedByPolicy, Cancelled}
    requires to in STORED - BEFORE_RUN
    ensures RowFits(tx.(status := to), contracts)
  {
    hide ContractHash, ProposalHash, ApprovalsSatisfy, ApprovalRejected;
  }

  lemma MovedLaneHolds(l: Lane, contracts: map<ContractKey, Contract>, tx: Transaction, to: Status)
    requires MayMove(l, contracts, tx, to)
    ensures LaneHolds(l.(row := Some(tx.(status := to))), contracts)
    ensures forall events :: LaneHolds(l.(row := Some(tx.(status := to)), events := events), contracts)
  {
    hide Safe, RowFits, ActionsFit, ObservationsFit, Disciplined, CanTransition;
    SafeRow(l, contracts, tx);
    MovedRowFits(tx, to, contracts);
  }

  lemma ReplayMove(events: seq<Event>, from: Status, kind: MoveKind, to: Status)
    requires Replay(events) == Some(from)
    ensures Replay(events + [Moved(kind, from, to)]) == Some(to)
  {
    assert (events + [Moved(kind, from, to)])[..|events|] == events;
  }

  lemma MovingRow(l: Lane, contracts: map<ContractKey, Contract>, tx: Transaction, to: Status)
    requires MayMove(l, contracts, tx, to)
    ensures tx.id == l.id && CanTransition(tx.status, to) && l.row == Some(tx)
    ensures Safe(l, contracts, []) && LaneHolds(l, contracts)
    ensures !l.torn ==> Replay(l.events) == Some(tx.status)
  {
    hide RowFits, ActionsFit, ObservationsFit, Disciplined, Replay;
  }

  /** A status write and its event keep everything, a stop between them included. */
  lemma ReportedMoveIsSafe(
    l: Lane, contracts: map<ContractKey, Contract>, tx: Transaction, to: Status, event: Event)
    requires MayMove(l, contracts, tx, to) && (event.Moved? || event.VerificationDecided?)
    requires Replay(l.events) == Some(tx.status) ==> Replay(l.events + [event]) == Some(to)
    ensures var acts := [Put(tx.(status := to)), Append(tx.id, event)];
      var done := l.(row := Some(tx.(status := to)), events := l.events + [event]);
      Safe(l, contracts, acts) && After(l, acts) == done && Safe(done, contracts, [])
  {
    hide LaneHolds, MayMove, Replay, Safe, After;
    MovingRow(l, contracts, tx, to);
    MovedLaneHolds(l, contracts, tx, to);
    var mid := l.(row := Some(tx.(status := to)));
    var done := mid.(events := l.events + [event]);
    SafeAtRest(done, contracts);
    SafeReported(l, contracts, Put(tx.(status := to)), Append(tx.id, event));
  }

  lemma SafeAtRest(l: Lane, contracts: map<ContractKey, Contract>)
    requires LaneHolds(l, contracts) && (l.torn || OnTrack(l))
    ensures Safe(l, contracts, [])
  {
    hide LaneHolds, OnTrack;
  }

  /** transition keeps everything, stops in the middle included. */
  lemma MoveIsSafe(l: Lane, contracts: map<ContractKey, Contract>, tx: Transaction, to: Status, kind: MoveKind)
    requires MayMove(l, contracts, tx, to)
    ensures var next := tx.(status := to);
      var done := l.(row := Some(next), events := l.events + [Moved(kind, tx.status, to)]);
      && MovePlan(tx, to, kind).end == Ok(next)
      && Safe(l, contracts, MovePlan(tx, to, kind).acts)
      && After(l, MovePlan(tx, to, kind).acts) == done && Safe(done, contracts, [])
  {
    hide LaneHolds, MayMove, Replay, Safe, After;
    MovingRow(l, contracts, tx, to);
    if Replay(l.events) == Some(tx.status) {
      ReplayMove(l.events, tx.status, kind, to);
    }
    ReportedMoveIsSafe(l, contracts, tx, to, Moved(kind, tx.status, to));
  }

  lemma RowId(l: Lane, contracts: map<ContractKey, Contract>)
    requires LaneHolds(l, contracts) && l.row.Some?
    ensures l.row.value.id == l.id
  {}
}
