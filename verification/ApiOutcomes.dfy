/** What the handlers store and answer, decided from the request and the stored row alone. */
module ApiOutcomes {
  import opened Utf16
  import opened Json
  import Hashing
  import opened Wrappers
  import opened Domain
  import opened StateMachine
  import opened Approvals
  import opened CoreRuntime
  import opened Store
  import opened Plans
  import opened Lanes
  import opened ApiSafety
  import opened Lifecycle
  import opened Guarantees
  import Evidence
  import Fingerprint

  // ---------- approvals ----------

  /** The actors whose approval of this proposal in this role is recorded. */
  function ApprovingActors(approvals: seq<Approval>, role: string, proposalHash: Text): set<string> {
    set a | a in approvals && a.role == role && a.decision == Approved && a.proposalHash == proposalHash :: a.actorId
  }

  predicate EveryRoleApproved(tx: Transaction, approvals: seq<Approval>) {
    tx.policyDecision.Some? && tx.policyDecision.value.requiredApprovals.Some? ==>
      forall rule | rule in tx.policyDecision.value.requiredApprovals.value ::
        |ApprovingActors(approvals, rule.role, tx.proposalHash)| >= rule.count
  }

  /** What an approval call finds and may write, before its decision is looked at. */
  lemma ApprovalRecordsExactly(s: State, id: string, tenantId: string, role: string, actorId: string, decision: string)
    ensures var p := ApprovePlan(s, id, tenantId, role, actorId, decision);
      if id !in s.transactions || s.transactions[id].tenantId != tenantId then p == Plan([], Err(NotFound))
      else if s.transactions[id].status != AwaitingApproval then p == Plan([], Err(WrongStatus))
      else
        var tx := s.transactions[id];
        var given := if decision == "REJECTED" then Rejected else Approved;
        && p.end.Ok? && p.acts == [Put(p.end.value)]
        && p.end.value == tx.(
             status := p.end.value.status,
             approvals := tx.approvals + [Approval(role, actorId, given, tx.proposalHash)])
  {
    hide ApprovalsSatisfy, ApprovalRejected;
  }

  lemma ApprovalsCounted(tx: Transaction, approvals: seq<Approval>)
    ensures var rules := if tx.policyDecision.Some? then RequiredApprovals(tx.policyDecision.value) else [];
      ApprovalsSatisfy(rules, approvals, tx.proposalHash) <==> EveryRoleApproved(tx, approvals)
  {
    forall rule: ApprovalRule
      ensures Approvers(approvals, rule.role, tx.proposalHash) == ApprovingActors(approvals, rule.role, tx.proposalHash)
    {}
  }

  /**
    On every stored row an accepted approval call rejects exactly for the literal REJECTED; otherwise the
    transaction is READY exactly when every required role then has its count of different approving actors.
   */
  lemma ApprovalDecidesExactly(
    ops: seq<Op>, id: string, tenantId: string, role: string, actorId: string, decision: string)
    requires Admissible(ops) && GetTransaction(SystemAfter(ops).state, id, tenantId).Ok?
    requires SystemAfter(ops).state.transactions[id].status == AwaitingApproval
    ensures var s := SystemAfter(ops).state;
      var tx, p := s.transactions[id], ApprovePlan(s, id, tenantId, role, actorId, decision);
      && p.end.Ok?
      && var next := p.end.value;
      && (next.status == RejectedByPolicy <==> decision == "REJECTED")
      && (next.status == Ready <==> decision != "REJECTED" && EveryRoleApproved(tx, next.approvals))
      && (next.status == AwaitingApproval <==> decision != "REJECTED" && !EveryRoleApproved(tx, next.approvals))
  {
    hide SystemAfter, LaneHolds, ContractHash, ProposalHash, ActionsFit, ObservationsFit, ApprovalsSatisfy;
    var s := SystemAfter(ops);
    RowHolds(ops, id);
    HeldRow(LaneOf(s, id), s.state.contracts);
    ApprovalRecordsExactly(s.state, id, tenantId, role, actorId, decision);
    var tx := s.state.transactions[id];
    var next := ApprovePlan(s.state, id, tenantId, role, actorId, decision).end.value;
    var given := next.approvals[|tx.approvals|];
    assert next.approvals == tx.approvals + [given];
    assert ApprovalRejected(next.approvals, tx.proposalHash) <==> given.decision == Rejected by {
      assert given in next.approvals;
    }
    ApprovalsCounted(tx, next.approvals);
  }

  // ---------- cancelling, and other tenants ----------

  lemma CancelWrites(s: State, id: string, tenantId: string)
    requires GetTransaction(s, id, tenantId).Ok? && s.transactions[id].status in STORED
    ensures var p, tx := CancelPlan(s, id, tenantId), s.transactions[id];
      if tx.status in {AwaitingApproval, Ready} then
        p == Plan([Put(tx.(status := Cancelled))], Ok(tx.(status := Cancelled)))
      else p.acts == [] && p.end.Err?
  {}

  /**
    On every stored row a cancellation is accepted exactly while awaiting approval or READY, and changes
    only the status.
   */
  lemma CancellationExactly(ops: seq<Op>, id: string, tenantId: string)
    requires Admissible(ops)
    ensures var s := SystemAfter(ops).state;
      var p := CancelPlan(s, id, tenantId);
      if id !in s.transactions || s.transactions[id].tenantId != tenantId then p == Plan([], Err(NotFound))
      else
        var tx := s.transactions[id];
        if tx.status in {AwaitingApproval, Ready} then
          p == Plan([Put(tx.(status := Cancelled))], Ok(tx.(status := Cancelled)))
        else p.acts == [] && p.end.Err?
  {
    hide SystemAfter, LaneHolds, ActionsFit, ObservationsFit, RowFits, Disciplined, SameIdentity, TransitionTransaction;
    var s := SystemAfter(ops);
    if GetTransaction(s.state, id, tenantId).Ok? {
      RowHolds(ops, id);
      HeldRow(LaneOf(s, id), s.state.contracts);
      CancelWrites(s.state, id, tenantId);
    }
  }

  /** A call under another tenant finds nothing and does nothing. */
  lemma OtherTenantsFindNothing(
    s: State, id: string, tenantId: string, role: string, actorId: string, decision: string, regs: Registries,
    a: Answers)
    requires id in s.transactions ==> s.transactions[id].tenantId != tenantId
    ensures ApprovePlan(s, id, tenantId, role, actorId, decision) == Plan([], Err(NotFound))
    ensures CancelPlan(s, id, tenantId) == Plan([], Err(NotFound))
    ensures EnginePlan(s, id, tenantId, regs, a) == Plan([], Err(NotFound))
  {}

  // ---------- creation ----------

  /** The row carries the request, under the key that was sent or else the fingerprint of the request. */
  ghost predicate CarriesRequest(tx: Transaction, id: string, r: CreateRequest, c: Contract) {
    && tx.id == id && tx.tenantId == r.tenantId && tx.environmentId == r.environmentId && tx.actorId == r.actorId
    && tx.contractName == c.name && tx.contractVersion == c.version && tx.input == r.input
    && tx.idempotencyKey == (
         if r.idempotencyKey.Some? then r.idempotencyKey.value
         else Hashing.StableHash(c.name + [0x40] + Evidence.Decimal(c.version) + [0x3A] + CanonicalJson(r.input)))
    && tx.contractSnapshotHash == Hashing.StableHash(CanonicalJson(c.document))
    && tx.proposalHash == Hashing.StableHash(CanonicalJson(Obj([
         Member(Evidence.Ascii("contract"), Str(tx.contractSnapshotHash)), Member(Evidence.Ascii("input"), r.input)])))
    && tx.approvals == [] && tx.actions == [] && tx.observations == [] && tx.retryCount == 0
  }

  lemma CreatedAsRequested(id: string, r: CreateRequest, c: Contract)
    ensures var tx := CreateTransaction(id, r.tenantId, r.environmentId, r.actorId, c, r.input, r.idempotencyKey);
      CarriesRequest(tx, id, r, c) && tx.status == Created && tx.approvals == []
  {
    hide Hashing.StableHash, CanonicalJson, Evidence.Decimal, Evidence.Ascii;
    assert Fingerprint.FingerprintText(c.name, Evidence.Decimal(c.version), r.input)
      == c.name + [0x40] + Evidence.Decimal(c.version) + [0x3A] + CanonicalJson(r.input);
  }

  lemma DecidingKeepsRequest(
    tx: Transaction, id: string, r: CreateRequest, c: Contract, status: Status, d: PolicyDecision)
    requires CarriesRequest(tx, id, r, c)
    ensures CarriesRequest(tx.(status := status, policyDecision := Some(d)), id, r, c)
  {
    hide Hashing.StableHash, CanonicalJson, Evidence.Decimal, Evidence.Ascii;
  }

  /** What the policy's decision makes of a submission. */
  predicate Decided(tx: Transaction, d: PolicyDecision) {
    && tx.policyDecision == Some(d) && tx.status in {RejectedByPolicy, AwaitingApproval, Ready}
    && (tx.status == RejectedByPolicy <==> !d.allow)
    && (tx.status == AwaitingApproval <==> d.allow && d.requiredApprovals.Some? && d.requiredApprovals.value != [])
  }

  /** A creation that finds a contract, no row and a decision writes what the policy makes of the new row. */
  lemma CreationIsSubmitted(
    s: State, id: string, r: CreateRequest, existing: Option<Transaction>, decision: Option<PolicyDecision>)
    requires ContractKey(r.tenantId, r.name, r.version) in s.contracts && existing.None? && decision.Some?
    ensures var c := s.contracts[ContractKey(r.tenantId, r.name, r.version)];
      var created := CreateTransaction(id, r.tenantId, r.environmentId, r.actorId, c, r.input, r.idempotencyKey);
      CreatePlan(s, id, r, existing, decision) == PutPlan(Submit(created, decision.value))
  {
    hide CreateTransaction, Submit, PutPlan;
  }

  /** A creation without an existing row stores exactly the request and its decision, or nothing. */
  lemma CreationStoresTheRequest(
    s: State, id: string, r: CreateRequest, existing: Option<Transaction>, decision: Option<PolicyDecision>)
    ensures var p := CreatePlan(s, id, r, existing, decision);
      var key := ContractKey(r.tenantId, r.name, r.version);
      if key !in s.contracts then p == Plan([], Err(NotFound))
      else if existing.Some? then p == Plan([], Ok(existing.value))
      else if decision.None? then p == Plan([], Err(PolicyFailure))
      else
        && p.end.Ok? && p.acts == [Put(p.end.value)]
        && CarriesRequest(p.end.value, id, r, s.contracts[key]) && Decided(p.end.value, decision.value)
  {
    hide CarriesRequest, CreateTransaction, Submit;
    var key := ContractKey(r.tenantId, r.name, r.version);
    if key in s.contracts && existing.None? && decision.Some? {
      CreationIsSubmitted(s, id, r, existing, decision);
      hide CreatePlan;
      var c := s.contracts[key];
      var created := CreateTransaction(id, r.tenantId, r.environmentId, r.actorId, c, r.input, r.idempotencyKey);
      CreatedAsRequested(id, r, c);
      SubmitFacts(created, decision.value);
      DecidingKeepsRequest(created, id, r, c, Submit(created, decision.value).value.status, decision.value);
    }
  }

  // ---------- one key, one row ----------

  /** The row stored under this tenant, environment and sent key is what the key lookup finds, and what is answered. */
  lemma RepeatedKeyReturnsTheRow(
    ops: seq<Op>, id: string, r: CreateRequest, existing: Option<Transaction>, decision: Option<PolicyDecision>,
    newId: string)
    requires Admissible(ops) && id in SystemAfter(ops).state.transactions
    requires FoundByKey(SystemAfter(ops).state.transactions, r, existing)
    requires var tx := SystemAfter(ops).state.transactions[id];
      && tx.tenantId == r.tenantId && tx.environmentId == r.environmentId
      && r.idempotencyKey == Some(tx.idempotencyKey) && tx.idempotencyKey != []
    ensures var s := SystemAfter(ops).state;
      && existing == Some(s.transactions[id])
      && (ContractKey(r.tenantId, r.name, r.version) in s.contracts ==>
            CreatePlan(s, newId, r, existing, decision) == Plan([], Ok(s.transactions[id])))
  {
    hide SystemAfter;
    var rows := SystemAfter(ops).state.transactions;
    assert CarriesKey(rows[id], r);
    if existing.Some? {
      var other :| other in rows && rows[other] == existing.value && CarriesKey(existing.value, r);
      OneRowPerKey(ops, id, other);
    }
  }

  /** The latest creation under an id. */
  function LastRequest(ops: seq<Op>, id: string): Option<CreateRequest> {
    if ops == [] then None
    else
      var last := ops[|ops| - 1];
      if last.CreateTx? && last.id == id then Some(last.request) else LastRequest(ops[..|ops| - 1], id)
  }

  /** The key that was sent, or else the digest of name@version:input. */
  function RequestKey(r: CreateRequest): Text {
    if r.idempotencyKey.Some? then r.idempotencyKey.value
    else Hashing.StableHash(r.name + [0x40] + Evidence.Decimal(r.version) + [0x3A] + CanonicalJson(r.input))
  }

  /** The columns no statement overwrites are those of the request, under its key. */
  ghost predicate AsRequested(tx: Transaction, id: string, r: CreateRequest) {
    && tx.id == id && tx.tenantId == r.tenantId && tx.environmentId == r.environmentId && tx.actorId == r.actorId
    && tx.contractName == r.name && tx.contractVersion == r.version && tx.input == r.input
    && tx.idempotencyKey == RequestKey(r)
  }

  /** What is stored or about to be stored under an id carries its latest creation's request. */
  ghost predicate FromRequest(s: System, id: string, asked: Option<CreateRequest>) {
    && (id in s.state.transactions ==> asked.Some? && AsRequested(s.state.transactions[id], id, asked.value))
    && (id !in s.state.transactions && id in s.pending ==>
          && asked.Some? && |s.pending[id]| == 1 && s.pending[id][0].Put?
          && AsRequested(s.pending[id][0].tx, id, asked.value))
  }

  lemma CreationStartsFromRequest(s: System, op: Op)
    requires Enabled(s, op) && op.CreateTx? && KeyedContracts(s.state.contracts)
    ensures FromRequest(Step(s, op), op.id, Some(op.request))
  {
    var r := op.request;
    CreationStoresTheRequest(s.state, op.id, r, op.existing, op.policy);
    hide CreatePlan, Hashing.StableHash, CanonicalJson, Evidence.Decimal, Evidence.Ascii, FoundByKey, Decided;
  }

  lemma CallOnNothingDoesNothing(s: State, op: Op)
    requires (op.ApproveTx? || op.CancelTx? || op.RunTx?) && op.id !in s.transactions
    ensures PlanOf(s, op).acts == []
  {}

  lemma MergeKeepsRequest(row: Transaction, tx: Transaction, id: string, r: CreateRequest)
    requires AsRequested(row, id, r)
    ensures AsRequested(Merge(row, tx), id, r)
  {
    hide Hashing.StableHash, CanonicalJson, Evidence.Decimal;
  }

  lemma ProceedKeepsRequest(s: System, id: string, asked: Option<CreateRequest>)
    requires PendingOnTarget(s) && Enabled(s, Proceed(id)) && FromRequest(s, id, asked)
    ensures FromRequest(Step(s, Proceed(id)), id, asked)
  {
    hide AsRequested, Violates, CanTransition, ActionsAdvance;
    var a := s.pending[id][0];
    assert Legal(LaneOf(s, id), a);
    if a.Put? && id in s.state.transactions {
      MergeKeepsRequest(s.state.transactions[id], a.tx, id, asked.value);
    }
  }

  lemma OtherStepsKeepRequest(s: System, op: Op, id: string, asked: Option<CreateRequest>)
    requires PendingOnTarget(s) && Enabled(s, op) && FromRequest(s, id, asked)
    requires !(op.CreateTx? && op.id == id)
    ensures FromRequest(Step(s, op), id, asked)
  {
    hide AsRequested, PlanOf, Violates, Apply, Legal, FoundByKey;
    if op == Proceed(id) {
      ProceedKeepsRequest(s, id, asked);
    } else if op.Proceed? {
      OtherProceedKeepsRow(s, op.id, id);
    } else if (op.ApproveTx? || op.CancelTx? || op.RunTx?) && op.id == id && id !in s.state.transactions {
      CallOnNothingDoesNothing(s.state, op);
    }
  }

  lemma OtherProceedKeepsRow(s: System, other: string, id: string)
    requires PendingOnTarget(s) && Enabled(s, Proceed(other)) && other != id
    ensures var s' := Step(s, Proceed(other));
      && (id in s'.state.transactions <==> id in s.state.transactions)
      && (id in s.state.transactions ==> s'.state.transactions[id] == s.state.transactions[id])
      && (id in s'.pending <==> id in s.pending) && (id in s.pending ==> s'.pending[id] == s.pending[id])
  {
    hide Violates, CanTransition, ActionsAdvance;
    assert Legal(LaneOf(s, other), s.pending[other][0]);
  }

  lemma {:induction false} AlwaysFromRequest(ops: seq<Op>, id: string)
    requires Admissible(ops)
    ensures FromRequest(SystemAfter(ops), id, LastRequest(ops, id))
    decreases |ops|
  {
    hide Holds, Step, Enabled, FromRequest, PendingOnTarget;
    if ops == [] {
      NothingIsFromRequest(id);
    } else {
      var before, op := ops[..|ops| - 1], ops[|ops| - 1];
      AlwaysFromRequest(before, id);
      AlwaysHolds(before);
      PendingStaysOnTarget(SystemAfter(before));
      if op.CreateTx? && op.id == id {
        HoldsKeyed(SystemAfter(before));
        CreationStartsFromRequest(SystemAfter(before), op);
      } else {
        OtherStepsKeepRequest(SystemAfter(before), op, id, LastRequest(before, id));
      }
    }
  }

  lemma NothingIsFromRequest(id: string)
    ensures FromRequest(INITIAL, id, None)
  {}

  lemma HoldsKeyed(s: System)
    requires Holds(s)
    ensures KeyedContracts(s.state.contracts)
  {
    hide LaneSafe, UniqueKeys, KeyedContracts;
  }

  /** In every history a stored row carries its creation's tenant, actor, contract, input and key, for good. */
  lemma StoredRowCarriesItsRequest(ops: seq<Op>, id: string)
    requires Admissible(ops) && id in SystemAfter(ops).state.transactions
    ensures var asked := LastRequest(ops, id);
      asked.Some? && AsRequested(SystemAfter(ops).state.transactions[id], id, asked.value)
  {
    hide SystemAfter, AsRequested;
    AlwaysFromRequest(ops, id);
  }

  /** The creation at position i is the latest under its id, and its row is stored. */
  ghost predicate StoredARow(ops: seq<Op>, i: nat)
    requires Admissible(ops)
  {
    && i < |ops| && ops[i].CreateTx? && ops[i].id in SystemAfter(ops).state.transactions
    && forall j | i < j < |ops| :: !(ops[j].CreateTx? && ops[j].id == ops[i].id)
  }

  lemma {:induction false} LatestRequest(ops: seq<Op>, i: nat)
    requires i < |ops| && ops[i].CreateTx?
    requires forall j | i < j < |ops| :: !(ops[j].CreateTx? && ops[j].id == ops[i].id)
    ensures LastRequest(ops, ops[i].id) == Some(ops[i].request)
    decreases |ops|
  {
    if i < |ops| - 1 {
      LatestRequest(ops[..|ops| - 1], i);
    }
  }

  /**
    Exactly-once creation: in every history, of all creations with one tenant, environment and key, sent or
    derived from the request, only one ever stores a row.
   */
  lemma OneCreationStoresPerKey(ops: seq<Op>, i: nat, j: nat)
    requires Admissible(ops) && StoredARow(ops, i) && StoredARow(ops, j)
    requires var r, q := ops[i].request, ops[j].request;
      r.tenantId == q.tenantId && r.environmentId == q.environmentId && RequestKey(r) == RequestKey(q)
    ensures i == j
  {
    hide SystemAfter, Admissible, RequestKey;
    LatestRequest(ops, i);
    LatestRequest(ops, j);
    StoredRowCarriesItsRequest(ops, ops[i].id);
    StoredRowCarriesItsRequest(ops, ops[j].id);
    OneRowPerKey(ops, ops[i].id, ops[j].id);
  }
}
