/** The API handlers' store writes are safe on their lane. */
module ApiSafety {
  import opened Wrappers
  import opened Domain
  import opened StateMachine
  import opened Approvals
  import opened Verification
  import opened CoreRuntime
  import opened Store
  import opened Plans
  import opened Lanes
  import opened RunSafety

  function EmptyLane(id: string): Lane { Lane(id, None, [], false, [], false) }

  /** What a fresh submission stores: never a status past READY, and READY only when cleared. */
  lemma SubmitFacts(created: Transaction, decision: PolicyDecision)
    requires created.status == Created && created.approvals == []
    ensures Submit(created, decision).Ok?
    ensures var tx := Submit(created, decision).value;
      && tx == created.(status := tx.status, policyDecision := Some(decision))
      && tx.status in {AwaitingApproval, RejectedByPolicy, Ready}
      && (tx.status == RejectedByPolicy <==> !decision.allow)
      && (tx.status == AwaitingApproval <==> decision.allow && RequiredApprovals(decision) != [])
      && (tx.status == Ready ==> Cleared(tx))
  {}

  /** Before any run the actions, calls and observations are empty, whatever the status. */
  lemma BeforeRunFits(tx: Transaction, c: Contract)
    requires tx.status in BEFORE_RUN && tx.actions == [] && tx.observations == []
    ensures ActionsFit(tx, []) && ObservationsFit(tx, c, []) && Disciplined([])
  {
    hide Summarize;
  }

  /** A lane no run has touched. */
  predicate Untouched(l: Lane) { l.events == [] && l.calls == [] && !l.caseOpen }

  lemma UntouchedRowHolds(l: Lane, contracts: map<ContractKey, Contract>, tx: Transaction)
    requires Untouched(l) && tx.id == l.id && RowFits(tx, contracts) && tx.status in BEFORE_RUN
    requires tx.actions == [] && tx.observations == []
    ensures LaneHolds(l.(row := Some(tx)), contracts) && OnTrack(l.(row := Some(tx)))
  {
    hide ActionsFit, ObservationsFit, Disciplined, ContractHash, ProposalHash, Cleared;
    BeforeRunFits(tx, contracts[KeyOf(tx)]);
    assert Replay([]) == Some(Ready);
  }

  lemma EmptyLaneIsSafe(id: string, contracts: map<ContractKey, Contract>)
    ensures Safe(EmptyLane(id), contracts, [])
  {}

  lemma SubmittedRowFits(
    contracts: map<ContractKey, Contract>, c: Contract, created: Transaction, decision: PolicyDecision)
    requires KeyOf(created) in contracts && contracts[KeyOf(created)] == c
    requires created.status == Created && created.approvals == [] && created.retryCount == 0
    requires created.contractSnapshotHash == ContractHash(c)
    requires created.proposalHash == ProposalHash(ContractHash(c), created.input)
    ensures Submit(created, decision).Ok? && RowFits(Submit(created, decision).value, contracts)
  {
    hide ContractHash, ProposalHash, Cleared, Submit;
    SubmitFacts(created, decision);
  }

  lemma CreateIsSafe(
    contracts: map<ContractKey, Contract>, id: string, r: CreateRequest, decision: PolicyDecision)
    requires var key := ContractKey(r.tenantId, r.name, r.version);
      key in contracts && contracts[key].name == r.name && contracts[key].version == r.version
    ensures var c := contracts[ContractKey(r.tenantId, r.name, r.version)];
      var created := CreateTransaction(id, r.tenantId, r.environmentId, r.actorId, c, r.input, r.idempotencyKey);
      var p := PutPlan(Submit(created, decision));
      Carries(EmptyLane(id), contracts, p) && p.end.Ok? && p.acts == [Put(p.end.value)] && p.end.value.id == id
  {
    hide ContractHash, ProposalHash, Cleared, Submit, LaneHolds, Replay, After, Safe;
    var c := contracts[ContractKey(r.tenantId, r.name, r.version)];
    var created := CreateTransaction(id, r.tenantId, r.environmentId, r.actorId, c, r.input, r.idempotencyKey);
    SubmitFacts(created, decision);
    SubmittedRowFits(contracts, c, created, decision);
    var tx := Submit(created, decision).value;
    FreshRowIsSafe(id, contracts, tx);
  }

  lemma FreshRowIsSafe(id: string, contracts: map<ContractKey, Contract>, tx: Transaction)
    requires tx.id == id && RowFits(tx, contracts) && tx.status in {AwaitingApproval, RejectedByPolicy, Ready}
    requires tx.actions == [] && tx.observations == []
    ensures Carries(EmptyLane(id), contracts, Plan([Put(tx)], Ok(tx)))
  {
    EmptyLaneIsSafe(id, contracts);
    hide LaneHolds, OnTrack, RowFits, Safe, After;
    UntouchedRowHolds(EmptyLane(id), contracts, tx);
    PutIsSafe(EmptyLane(id), contracts, tx, tx);
  }

  /** One store write between two lanes at rest. */
  lemma PutIsSafe(l: Lane, contracts: map<ContractKey, Contract>, tx: Transaction, stored: Transaction)
    requires Safe(l, contracts, []) && Legal(l, Put(tx)) && Advance(l, Put(tx)) == l.(row := Some(stored))
    requires LaneHolds(l.(row := Some(stored)), contracts) && OnTrack(l.(row := Some(stored))) && tx == stored
    ensures Carries(l, contracts, Plan([Put(tx)], Ok(tx)))
  {
    hide LaneHolds, OnTrack, Legal, Advance, Replay;
    SafeAtRest(l.(row := Some(stored)), contracts);
    SafeOne(l, contracts, Put(tx));
  }

  lemma BeforeRunRow(l: Lane, contracts: map<ContractKey, Contract>, tx: Transaction)
    requires AtRest(l, contracts, tx) && tx.status in BEFORE_RUN
    ensures Untouched(l) && tx.actions == [] && tx.observations == [] && tx.id == l.id && Safe(l, contracts, [])
  {
    hide RowFits, Disciplined, PhaseOf, Summarize, ConfirmationsSourced, OnTrack;
  }

  /** A write by an API handler: the row is before any run, and stays so. */
  lemma BeforeRunWriteIsSafe(l: Lane, contracts: map<ContractKey, Contract>, tx: Transaction, next: Transaction)
    requires AtRest(l, contracts, tx) && tx.status in BEFORE_RUN
    requires next == tx.(status := next.status, approvals := next.approvals)
    requires RowFits(next, contracts) && next.status in BEFORE_RUN && EdgeOrSame(tx.status, next.status)
    ensures Carries(l, contracts, Plan([Put(next)], Ok(next)))
  {
    hide LaneHolds, OnTrack, RowFits, Safe, After, CanTransition;
    BeforeRunRow(l, contracts, tx);
    UntouchedRowHolds(l, contracts, next);
    PutIsSafe(l, contracts, next, next);
  }

  lemma ApprovedRowFits(contracts: map<ContractKey, Contract>, tx: Transaction, a: Approval)
    requires RowFits(tx, contracts) && tx.status == AwaitingApproval && a.proposalHash == tx.proposalHash
    ensures RecordApproval(tx, a).Ok?
    ensures var next := RecordApproval(tx, a).value;
      && RowFits(next, contracts) && next == tx.(status := next.status, approvals := next.approvals)
      && next.status in {AwaitingApproval, RejectedByPolicy, Ready}
  {
    hide ContractHash, ProposalHash, ApprovalRejected, ApprovalsSatisfy;
    ReadyExactlyWhenCleared(tx, a);
  }

  lemma ApproveIsSafe(
    l: Lane, contracts: map<ContractKey, Contract>, tx: Transaction, role: string, actorId: string, decision: string)
    requires AtRest(l, contracts, tx)
    ensures var r := RecordApproval(tx, ApprovalFor(tx, role, actorId, decision));
      && (r.Ok? <==> tx.status == AwaitingApproval)
      && (r.Ok? ==> Carries(l, contracts, PutPlan(r)))
  {
    hide AtRest, Carries, RowFits, ActionsFit, ObservationsFit;
    if tx.status == AwaitingApproval {
      RestFacts(l, contracts, tx);
      var a := ApprovalFor(tx, role, actorId, decision);
      ApprovedRowFits(contracts, tx, a);
      hide RecordApproval;
      BeforeRunWriteIsSafe(l, contracts, tx, RecordApproval(tx, a).value);
    }
  }

  lemma CancelIsSafe(l: Lane, contracts: map<ContractKey, Contract>, tx: Transaction)
    requires AtRest(l, contracts, tx)
    ensures TransitionTransaction(tx, Cancelled).Ok? <==> tx.status in {AwaitingApproval, Ready}
    ensures TransitionTransaction(tx, Cancelled).Ok? ==>
      Carries(l, contracts, PutPlan(TransitionTransaction(tx, Cancelled)))
  {
    hide AtRest, Carries, ContractHash, ProposalHash, ActionsFit, ObservationsFit, Cleared;
    RestFacts(l, contracts, tx);
    if TransitionTransaction(tx, Cancelled).Ok? {
      BeforeRunWriteIsSafe(l, contracts, tx, tx.(status := Cancelled));
    }
  }
}
