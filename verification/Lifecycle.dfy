/**
  The control plane as a step system. A call starts by reading the tables and fixing its acts; the acts
  are then performed one at a time, interleaved with those of other transactions, and the process may
  stop before any of them. At most one call at a time acts on one transaction.
 */
module Lifecycle {
  import opened Wrappers
  import opened Domain
  import opened StateMachine
  import opened CoreRuntime
  import opened Store
  import opened Plans
  import opened Lanes
  import opened RunSafety
  import opened EngineSafety
  import opened ApiSafety

  /** `torn` remembers the transactions on which a process stopped between a status write and its event. */
  datatype System = System(state: State, pending: map<string, seq<Act>>, torn: set<string>)

  datatype Op =
    | PublishContract(tenant: string, c: Contract)
    | CreateTx(id: string, request: CreateRequest, existing: Option<Transaction>, policy: Option<PolicyDecision>)
    | ApproveTx(id: string, tenantId: string, role: string, actorId: string, decision: string)
    | CancelTx(id: string, tenantId: string)
    | RunTx(id: string, tenantId: string, regs: Registries, answers: Answers)
    | Proceed(id: string)
    | Stop(id: string)

  const INITIAL := System(State(map[], map[], map[], {}, map[]), map[], {})

  /** Ids are fresh, and a transaction with acts under way admits no second call. */
  ghost predicate Enabled(s: System, op: Op) {
    match op
    case PublishContract(_, _) => true
    case CreateTx(id, r, existing, _) =>
      && id !in s.state.transactions && id !in s.pending
      && FoundByKey(s.state.transactions, r, existing)
    case ApproveTx(id, _, _, _, _) => id !in s.pending
    case CancelTx(id, _) => id !in s.pending
    case RunTx(id, _, _, _) => id !in s.pending
    case Proceed(id) => id in s.pending && s.pending[id] != []
    case Stop(id) => id in s.pending && s.pending[id] != []
  }

  /** The plan a call fixes when it starts. */
  function PlanOf(s: State, op: Op): Plan {
    match op
    case CreateTx(id, r, existing, policy) => CreatePlan(s, id, r, existing, policy)
    case ApproveTx(id, tenantId, role, actorId, decision) => ApprovePlan(s, id, tenantId, role, actorId, decision)
    case CancelTx(id, tenantId) => CancelPlan(s, id, tenantId)
    case RunTx(id, tenantId, regs, answers) => EnginePlan(s, id, tenantId, regs, answers)
    case _ => Plan([], Err(NotFound))
  }

  function Begin(s: System, id: string, acts: seq<Act>): System {
    if acts == [] then s else s.(pending := s.pending[id := acts])
  }

  predicate IsReport(a: Act) { a.Append? && IsReportEvent(a.event) }

  function Step(s: System, op: Op): System
    requires Enabled(s, op)
  {
    match op
    case PublishContract(tenant, c) => s.(state := s.state.(contracts := Publish(s.state.contracts, tenant, c)))
    case Proceed(id) =>
      var acts := s.pending[id];
      if Violates(s.state, acts[0]) then s.(pending := s.pending - {id})
      else
        System(
          Apply(s.state, acts[0]),
          if |acts| == 1 then s.pending - {id} else s.pending[id := acts[1..]],
          s.torn)
    case Stop(id) =>
      s.(pending := s.pending - {id}, torn := if IsReport(s.pending[id][0]) then s.torn + {id} else s.torn)
    case CreateTx(id, _, _, _) => Begin(s, id, PlanOf(s.state, op).acts)
    case ApproveTx(id, _, _, _, _) => Begin(s, id, PlanOf(s.state, op).acts)
    case CancelTx(id, _) => Begin(s, id, PlanOf(s.state, op).acts)
    case RunTx(id, _, _, _) => Begin(s, id, PlanOf(s.state, op).acts)
  }

  /** Every operation is enabled when its turn comes. */
  ghost predicate Admissible(ops: seq<Op>)
    decreases |ops|, 0
  {
    ops == [] || (Admissible(ops[..|ops| - 1]) && Enabled(SystemAfter(ops[..|ops| - 1]), ops[|ops| - 1]))
  }

  /** The system after a sequence of operations. */
  ghost function SystemAfter(ops: seq<Op>): System
    requires Admissible(ops)
    decreases |ops|, 1
  {
    if ops == [] then INITIAL else Step(SystemAfter(ops[..|ops| - 1]), ops[|ops| - 1])
  }

  // ---------- the invariant ----------

  function LaneOf(s: System, id: string): Lane {
    Lane(
      id, if id in s.state.transactions then Some(s.state.transactions[id]) else None,
      Lookup(s.state.evidence, id), id in s.state.cases, Lookup(s.state.calls, id), id in s.torn)
  }

  function ActsOf(s: System, id: string): seq<Act> { if id in s.pending then s.pending[id] else [] }

  ghost predicate UniqueKeys(transactions: map<string, Transaction>) {
    forall i, j | i in transactions && j in transactions ::
      SameIdempotencyKey(transactions[i], transactions[j]) ==> i == j
  }

  predicate KeyedContracts(contracts: map<ContractKey, Contract>) {
    forall k | k in contracts :: contracts[k].name == k.name && contracts[k].version == k.version
  }

  ghost predicate LaneSafe(s: System, id: string) { Safe(LaneOf(s, id), s.state.contracts, ActsOf(s, id)) }

  ghost predicate Holds(s: System) {
    && (forall id :: LaneSafe(s, id))
    && UniqueKeys(s.state.transactions)
    && KeyedContracts(s.state.contracts)
    && s.torn <= s.state.transactions.Keys
  }

  lemma InitialHolds()
    ensures Holds(INITIAL)
  {
    forall id ensures LaneSafe(INITIAL, id) {
      EmptyLaneIsSafe(id, map[]);
      assert LaneOf(INITIAL, id) == EmptyLane(id);
    }
  }

  lemma LaneAtRest(s: System, id: string)
    requires LaneSafe(s, id) && id !in s.pending && id in s.state.transactions
    ensures AtRest(LaneOf(s, id), s.state.contracts, s.state.transactions[id])
  {
    hide Safe;
  }

  lemma CarriesIsSafe(l: Lane, contracts: map<ContractKey, Contract>, p: Plan)
    requires Carries(l, contracts, p)
    ensures Safe(l, contracts, p.acts)
  {
    hide Safe, After;
  }

  lemma CreateStartsSafely(s: System, op: Op)
    requires Holds(s) && Enabled(s, op) && op.CreateTx?
    ensures Safe(LaneOf(s, op.id), s.state.contracts, PlanOf(s.state, op).acts)
  {
    hide Safe, Carries, CreateTransaction, Submit, UniqueKeys, FoundByKey;
    assert LaneSafe(s, op.id);
    var r := op.request;
    if ContractKey(r.tenantId, r.name, r.version) in s.state.contracts && op.existing.None? && op.policy.Some? {
      CreateIsSafe(s.state.contracts, op.id, r, op.policy.value);
      EmptyRowLane(s, op.id);
      CarriesIsSafe(EmptyLane(op.id), s.state.contracts, PlanOf(s.state, op));
    }
  }

  lemma ApiStartsSafely(s: System, op: Op)
    requires Holds(s) && Enabled(s, op) && (op.ApproveTx? || op.CancelTx?)
    ensures Safe(LaneOf(s, op.id), s.state.contracts, PlanOf(s.state, op).acts)
  {
    hide Safe, Carries, AtRest, RecordApproval, CanTransition, UniqueKeys;
    assert LaneSafe(s, op.id);
    if GetTransaction(s.state, op.id, op.tenantId).Ok? && PlanOf(s.state, op).acts != [] {
      var tx := s.state.transactions[op.id];
      LaneAtRest(s, op.id);
      if op.ApproveTx? {
        ApproveIsSafe(LaneOf(s, op.id), s.state.contracts, tx, op.role, op.actorId, op.decision);
      } else {
        CancelIsSafe(LaneOf(s, op.id), s.state.contracts, tx);
      }
      CarriesIsSafe(LaneOf(s, op.id), s.state.contracts, PlanOf(s.state, op));
    }
  }

  lemma RunStartsSafely(s: System, op: Op)
    requires Holds(s) && Enabled(s, op) && op.RunTx?
    ensures Safe(LaneOf(s, op.id), s.state.contracts, PlanOf(s.state, op).acts)
  {
    hide Safe, AtRest, RunPlan, Completes, UniqueKeys;
    assert LaneSafe(s, op.id);
    if GetTransaction(s.state, op.id, op.tenantId).Ok? {
      var tx := s.state.transactions[op.id];
      if tx.status in {Ready, FailedInfrastructure, UnknownEffect} {
        LaneAtRest(s, op.id);
        RunIsSafe(LaneOf(s, op.id), s.state.contracts, tx, op.regs, op.answers);
        CompletesIsSafe(LaneOf(s, op.id), s.state.contracts, PlanOf(s.state, op));
      } else {
        IdleRunDoesNothing(s.state, op.id, op.tenantId, op.regs, op.answers);
      }
    }
  }

  /** The acts a call fixes are safe on its transaction's lane. */
  lemma StartedActsAreSafe(s: System, op: Op)
    requires Holds(s) && Enabled(s, op) && (op.CreateTx? || op.ApproveTx? || op.CancelTx? || op.RunTx?)
    ensures Safe(LaneOf(s, op.id), s.state.contracts, PlanOf(s.state, op).acts)
  {
    hide Safe, Holds, Enabled, PlanOf;
    if op.CreateTx? {
      CreateStartsSafely(s, op);
    } else if op.RunTx? {
      RunStartsSafely(s, op);
    } else {
      ApiStartsSafely(s, op);
    }
  }

  lemma CompletesIsSafe(l: Lane, contracts: map<ContractKey, Contract>, p: Plan)
    requires Completes(l, contracts, p)
    ensures Safe(l, contracts, p.acts)
  {
    hide Safe, After;
  }

  lemma IdleRunDoesNothing(s: State, id: string, tenantId: string, regs: Registries, a: Answers)
    requires id in s.transactions && s.transactions[id].status !in {Ready, FailedInfrastructure, UnknownEffect}
    ensures EnginePlan(s, id, tenantId, regs, a).acts == []
  {}

  lemma EmptyRowLane(s: System, id: string)
    requires LaneSafe(s, id) && id !in s.state.transactions && s.torn <= s.state.transactions.Keys
    ensures LaneOf(s, id) == EmptyLane(id)
  {}

  // ---------- every operation keeps the invariant ----------

  lemma SafeHead(l: Lane, contracts: map<ContractKey, Contract>, acts: seq<Act>)
    requires Safe(l, contracts, acts) && acts != []
    ensures Legal(l, acts[0]) && Safe(Advance(l, acts[0]), contracts, acts[1..]) && LaneHolds(l, contracts)
    ensures !l.torn ==> OnTrack(l) || Reports(l, acts)
  {
    hide LaneHolds, OnTrack, Legal, Advance, Replay;
  }

  /** One act changes its own lane as Advance says, and no other lane. */
  lemma ActStaysInLane(s: System, id: string, pending: map<string, seq<Act>>)
    requires id in s.pending && s.pending[id] != [] && Legal(LaneOf(s, id), s.pending[id][0])
    requires !Violates(s.state, s.pending[id][0])
    ensures var s' := System(Apply(s.state, s.pending[id][0]), pending, s.torn);
      && LaneOf(s', id) == Advance(LaneOf(s, id), s.pending[id][0])
      && (forall other | other != id :: LaneOf(s', other) == LaneOf(s, other))
      && s'.state.contracts == s.state.contracts
      && s.state.transactions.Keys <= s'.state.transactions.Keys
  {}

  lemma ActKeepsKeysUnique(s: System, a: Act)
    requires UniqueKeys(s.state.transactions) && !Violates(s.state, a)
    ensures UniqueKeys(Apply(s.state, a).transactions)
  {
    if a.Put? {
      var rows, rows' := s.state.transactions, Apply(s.state, a).transactions;
      forall i, j | i in rows' && j in rows' && SameIdempotencyKey(rows'[i], rows'[j]) ensures i == j {
        if i in rows && j in rows {
          assert SameIdempotencyKey(rows[i], rows[j]);
        }
      }
    }
  }

  lemma DroppedActsAreSafe(l: Lane, contracts: map<ContractKey, Contract>, acts: seq<Act>)
    requires Safe(l, contracts, acts) && acts != []
    ensures Safe(l.(torn := true), contracts, [])
    ensures !IsReport(acts[0]) ==> Safe(l, contracts, [])
  {
    hide LaneHolds, OnTrack, Replay;
    TornLaneHolds(l, contracts);
  }

  lemma TornLaneHolds(l: Lane, contracts: map<ContractKey, Contract>)
    ensures LaneHolds(l.(torn := true), contracts) == LaneHolds(l, contracts)
  {
    hide RowFits, Disciplined, ActionsFit, ObservationsFit;
  }

  lemma ProceedHolds(s: System, id: string)
    requires Holds(s) && Enabled(s, Proceed(id))
    ensures Holds(Step(s, Proceed(id)))
  {
    hide Safe, Legal, Violates, UniqueKeys;
    var acts := s.pending[id];
    var s' := Step(s, Proceed(id));
    assert LaneSafe(s, id);
    SafeHead(LaneOf(s, id), s.state.contracts, acts);
    if Violates(s.state, acts[0]) {
      PutIsNoReport(s, acts[0]);
      DroppedActsAreSafe(LaneOf(s, id), s.state.contracts, acts);
      forall other ensures LaneSafe(s', other) {
        assert LaneSafe(s, other) && LaneOf(s', other) == LaneOf(s, other);
      }
    } else {
      ActStaysInLane(s, id, s'.pending);
      ActKeepsKeysUnique(s, acts[0]);
      forall other ensures LaneSafe(s', other) {
        assert LaneSafe(s, other);
        assert acts[1..] == [] || |acts| > 1;
      }
    }
  }

  lemma PutIsNoReport(s: System, a: Act)
    requires Violates(s.state, a)
    ensures !IsReport(a)
  {}

  lemma StopHolds(s: System, id: string)
    requires Holds(s) && Enabled(s, Stop(id))
    ensures Holds(Step(s, Stop(id)))
  {
    hide Safe, UniqueKeys, LaneHolds, OnTrack;
    var acts := s.pending[id];
    var s' := Step(s, Stop(id));
    assert LaneSafe(s, id);
    SafeHead(LaneOf(s, id), s.state.contracts, acts);
    DroppedActsAreSafe(LaneOf(s, id), s.state.contracts, acts);
    assert LaneOf(s', id) == LaneOf(s, id).(torn := id in s'.torn);
    forall other ensures LaneSafe(s', other) {
      assert LaneSafe(s, other);
      if other != id {
        assert LaneOf(s', other) == LaneOf(s, other);
      } else if !IsReport(acts[0]) {
        assert LaneOf(s', id) == LaneOf(s, id);
      }
    }
  }

  lemma PublishHolds(s: System, tenant: string, c: Contract)
    requires Holds(s)
    ensures Holds(Step(s, PublishContract(tenant, c)))
  {
    hide Safe, UniqueKeys;
    var s' := Step(s, PublishContract(tenant, c));
    forall id ensures LaneSafe(s', id) {
      assert LaneSafe(s, id) && LaneOf(s', id) == LaneOf(s, id);
      SafeWithMoreContracts(LaneOf(s, id), s.state.contracts, s'.state.contracts, ActsOf(s, id));
    }
  }

  lemma BeginHolds(s: System, op: Op)
    requires Holds(s) && Enabled(s, op) && (op.CreateTx? || op.ApproveTx? || op.CancelTx? || op.RunTx?)
    ensures Holds(Step(s, op))
  {
    hide Safe, UniqueKeys, PlanOf;
    StartedActsAreSafe(s, op);
    var s' := Step(s, op);
    forall id ensures LaneSafe(s', id) {
      assert LaneSafe(s, id) && LaneOf(s', id) == LaneOf(s, id);
    }
  }

  lemma StepHolds(s: System, op: Op)
    requires Holds(s) && Enabled(s, op)
    ensures Holds(Step(s, op))
  {
    hide Holds, Step, Enabled;
    match op
    case PublishContract(tenant, c) => PublishHolds(s, tenant, c);
    case Proceed(id) => ProceedHolds(s, id);
    case Stop(id) => StopHolds(s, id);
    case _ => BeginHolds(s, op);
  }

  /** The invariant holds after every sequence of operations. */
  lemma {:induction false} AlwaysHolds(ops: seq<Op>)
    requires Admissible(ops)
    ensures Holds(SystemAfter(ops))
    decreases |ops|
  {
    hide Holds, Step, Enabled;
    if ops == [] {
      InitialHolds();
    } else {
      AlwaysHolds(ops[..|ops| - 1]);
      StepHolds(SystemAfter(ops[..|ops| - 1]), ops[|ops| - 1]);
    }
  }
}
