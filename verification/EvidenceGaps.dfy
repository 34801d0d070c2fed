/**
  When evidence misses a status: after a process stopped between a status write and the event that
  reports it, and no later run repairs it. Only in EXECUTING can such a tear be invisible.
 */
module EvidenceGaps {
  import opened Wrappers
  import opened Domain
  import opened Approvals
  import Fingerprint
  import opened CoreRuntime
  import opened Store
  import opened Plans
  import opened Lanes
  import opened RunSafety
  import opened ApiSafety
  import opened Lifecycle
  import opened Guarantees
  import opened Reachability
  import opened Pacing
  import opened Db
  import opened Json

  // ---------- what the evidence tells, act by act ----------

  /** What a replay of the evidence ends in after one more report. */
  lemma ReplayReport(events: seq<Event>, e: Event)
    requires IsReportEvent(e)
    ensures Replay(events + [e]) == if Replay(events) == Some(From(e)) then Some(To(e)) else None
  {
    assert (events + [e])[..|events|] == events;
  }

  /** Of a transaction at rest: a tear shows, except in EXECUTING, and there is none before a run. */
  predicate RestTold(l: Lane) {
    l.row.Some? && l.torn ==>
      && l.row.value.status !in BEFORE_RUN && Replay(l.events) != Some(ReconciliationRequired)
      && (l.row.value.status != Executing ==> Replay(l.events) != Some(l.row.value.status))
  }

  /** `told` is the status the evidence should tell by now. */
  predicate TearShows(l: Lane, told: Status) {
    && (l.torn <==> Replay(l.events) != Some(told))
    && (l.torn ==> Replay(l.events) != Some(ReconciliationRequired) && (Replay(l.events).None? || told in RESTARTABLE))
  }

  /** A run with these acts to come, in between its acts: at a report the evidence is one status behind. */
  predicate RunTold(l: Lane, acts: seq<Act>) {
    && l.row.Some?
    && var status := l.row.value.status;
      if acts != [] && IsReport(acts[0]) then
        var from := From(acts[0].event);
        && To(acts[0].event) == status && RunMove(from, status) && Pace(status, acts[1..]).Some?
        && TearShows(l, from)
      else
        Pace(status, acts).Some? && TearShows(l, status) && (l.torn ==> status !in BEFORE_RUN)
  }

  /** A handler's one write, before any run. */
  predicate ApiTold(l: Lane, acts: seq<Act>) {
    |acts| == 1 && acts[0].Put? && acts[0].tx.status in BEFORE_RUN && !l.torn
  }

  predicate Told(l: Lane, acts: seq<Act>) {
    if acts == [] then RestTold(l) else ApiTold(l, acts) || RunTold(l, acts)
  }

  lemma EndedRunIsAtRest(l: Lane)
    requires RunTold(l, [])
    ensures RestTold(l)
  {}

  lemma WriteKeepsRunTold(l: Lane, acts: seq<Act>)
    requires RunTold(l, acts) && acts != [] && acts[0].Put?
    ensures RunTold(Advance(l, acts[0]), acts[1..])
  {
    hide Replay, RunMove;
    assert !IsReport(acts[0]);
    var status := l.row.value.status;
    if acts[0].tx.status != status {
      assert acts[1..][0] == acts[1] && acts[1..][1..] == acts[2..];
    } else if acts[1..] != [] {
      PacedHeadIsNoReport(status, acts[1..]);
    }
  }

  lemma PacedHeadIsNoReport(status: Status, acts: seq<Act>)
    requires Pace(status, acts).Some? && acts != []
    ensures !IsReport(acts[0])
  {}

  lemma ReportKeepsRunTold(l: Lane, acts: seq<Act>)
    requires RunTold(l, acts) && acts != [] && IsReport(acts[0])
    ensures RunTold(Advance(l, acts[0]), acts[1..])
  {
    hide Replay, Pace;
    ReplayReport(l.events, acts[0].event);
    if acts[1..] != [] { PacedHeadIsNoReport(l.row.value.status, acts[1..]); }
  }

  lemma NoteKeepsRunTold(l: Lane, acts: seq<Act>)
    requires RunTold(l, acts) && acts != [] && !acts[0].Put? && !IsReport(acts[0])
    ensures RunTold(Advance(l, acts[0]), acts[1..])
  {
    hide Replay, RunMove;
    if acts[0].Append? { ReplayIgnores(l.events, acts[0].event); }
    if acts[1..] != [] { PacedHeadIsNoReport(l.row.value.status, acts[1..]); }
  }

  lemma AdvanceKeepsTold(l: Lane, acts: seq<Act>)
    requires Told(l, acts) && acts != []
    ensures Told(Advance(l, acts[0]), acts[1..])
  {
    hide Replay, Pace, RunTold, TearShows;
    if RunTold(l, acts) {
      if acts[0].Put? {
        WriteKeepsRunTold(l, acts);
      } else if IsReport(acts[0]) {
        ReportKeepsRunTold(l, acts);
      } else {
        NoteKeepsRunTold(l, acts);
      }
      if acts[1..] == [] { EndedRunIsAtRest(Advance(l, acts[0])); }
    }
  }

  lemma StopKeepsTold(l: Lane, acts: seq<Act>)
    requires Told(l, acts) && acts != []
    ensures RestTold(l.(torn := l.torn || IsReport(acts[0])))
  {
    hide Replay, Pace;
  }

  // ---------- calls start told ----------

  lemma RunStartsTold(l: Lane, contracts: map<ContractKey, Contract>, tx: Transaction, regs: Registries, a: Answers)
    requires AtRest(l, contracts, tx) && tx.status in RESTARTABLE && RestTold(l) && KeyOf(tx) in contracts
    ensures RunTold(l, RunPlan(tx, contracts[KeyOf(tx)], regs, a).acts)
  {
    hide Replay, Pace, RunPlan, LaneHolds;
    var acts := RunPlan(tx, contracts[KeyOf(tx)], regs, a).acts;
    RunPaced(tx, contracts[KeyOf(tx)], regs, a);
    if acts != [] { PacedHeadIsNoReport(tx.status, acts); }
  }

  lemma ApprovalWritesBeforeRun(tx: Transaction, a: Approval)
    requires RecordApproval(tx, a).Ok?
    ensures tx.status in BEFORE_RUN && RecordApproval(tx, a).value.status in BEFORE_RUN
  {
    hide ApprovalsSatisfy, ApprovalRejected;
  }

  lemma ApiWritesBeforeRun(s: State, op: Op)
    requires (op.ApproveTx? || op.CancelTx?) && PlanOf(s, op).acts != []
    requires op.id in s.transactions ==> s.transactions[op.id].status in STORED
    ensures op.id in s.transactions && s.transactions[op.id].status in BEFORE_RUN
    ensures var acts := PlanOf(s, op).acts; |acts| == 1 && acts[0].Put? && acts[0].tx.status in BEFORE_RUN
  {
    hide RecordApproval;
    if op.ApproveTx? {
      var tx := s.transactions[op.id];
      ApprovalWritesBeforeRun(tx, ApprovalFor(tx, op.role, op.actorId, op.decision));
    }
  }

  lemma CreateWritesBeforeRun(s: State, op: Op)
    requires op.CreateTx? && PlanOf(s, op).acts != []
    ensures var acts := PlanOf(s, op).acts; |acts| == 1 && acts[0].Put? && acts[0].tx.status in BEFORE_RUN
  {
    hide Fingerprint.TransactionFingerprint, ContractHash, ProposalHash, Cleared, RequiredApprovals;
    var r := op.request;
    var c := s.contracts[ContractKey(r.tenantId, r.name, r.version)];
    var created := CreateTransaction(op.id, r.tenantId, r.environmentId, r.actorId, c, r.input, r.idempotencyKey);
    SubmitFacts(created, op.policy.value);
  }

  ghost predicate AllTold(s: System) { forall id :: Told(LaneOf(s, id), ActsOf(s, id)) }

  lemma CallStartsTold(s: System, op: Op)
    requires Holds(s) && AllTold(s) && Enabled(s, op) && (op.CreateTx? || op.ApproveTx? || op.CancelTx? || op.RunTx?)
    ensures PlanOf(s.state, op).acts != [] ==> Told(LaneOf(s, op.id), PlanOf(s.state, op).acts)
  {
    hide Safe, UniqueKeys, PlanOf, RestTold, RunTold, FoundByKey;
    assert LaneSafe(s, op.id);
    assert Told(LaneOf(s, op.id), ActsOf(s, op.id));
    if PlanOf(s.state, op).acts != [] {
      if op.CreateTx? {
        CreateWritesBeforeRun(s.state, op);
      } else if op.RunTx? {
        RunCallStartsTold(s, op);
      } else {
        if op.id in s.state.transactions { RestingRow(s, op.id); }
        ApiWritesBeforeRun(s.state, op);
        RestIsUntornBeforeRun(LaneOf(s, op.id));
      }
    }
  }

  lemma RestIsUntornBeforeRun(l: Lane)
    requires RestTold(l) && l.row.Some? && l.row.value.status in BEFORE_RUN
    ensures !l.torn
  {}

  lemma RestingRow(s: System, id: string)
    requires LaneSafe(s, id) && id in s.state.transactions
    ensures s.state.transactions[id].status in STORED && KeyOf(s.state.transactions[id]) in s.state.contracts
  {
    hide Safe, LaneHolds;
    SafeLaneHolds(LaneOf(s, id), s.state.contracts, ActsOf(s, id));
    HeldRow(LaneOf(s, id), s.state.contracts);
  }

  lemma RunCallStartsTold(s: System, op: Op)
    requires op.RunTx? && op.id !in s.pending && LaneSafe(s, op.id) && RestTold(LaneOf(s, op.id))
    requires PlanOf(s.state, op).acts != []
    ensures RunTold(LaneOf(s, op.id), PlanOf(s.state, op).acts)
  {
    hide Safe, RestTold, RunTold, RunPlan, AtRest;
    var tx := s.state.transactions[op.id];
    if tx.status !in RESTARTABLE {
      IdleRunDoesNothing(s.state, op.id, op.tenantId, op.regs, op.answers);
    }
    LaneAtRest(s, op.id);
    RestingRow(s, op.id);
    RunStartsTold(LaneOf(s, op.id), s.state.contracts, tx, op.regs, op.answers);
  }

  // ---------- every history ----------

  lemma ProceedKeepsTold(s: System, id: string)
    requires Holds(s) && AllTold(s) && Enabled(s, Proceed(id))
    ensures AllTold(Step(s, Proceed(id)))
  {
    PendingStaysOnTarget(s);
    hide Holds, Told, Legal, Violates, Apply;
    var acts := s.pending[id];
    var s' := Step(s, Proceed(id));
    assert Told(LaneOf(s, id), ActsOf(s, id)) && Legal(LaneOf(s, id), acts[0]);
    if Violates(s.state, acts[0]) {
      PutIsNoReport(s, acts[0]);
      StopIsTold(LaneOf(s, id), acts);
      forall other ensures Told(LaneOf(s', other), ActsOf(s', other)) {
        assert Told(LaneOf(s, other), ActsOf(s, other)) && LaneOf(s', other) == LaneOf(s, other);
      }
    } else {
      ActStaysInLane(s, id, s'.pending);
      AdvanceKeepsTold(LaneOf(s, id), acts);
      forall other ensures Told(LaneOf(s', other), ActsOf(s', other)) {
        assert Told(LaneOf(s, other), ActsOf(s, other));
        assert |acts| > 1 || acts[1..] == [];
      }
    }
  }

  lemma StopIsTold(l: Lane, acts: seq<Act>)
    requires Told(l, acts) && acts != []
    ensures Told(l.(torn := l.torn || IsReport(acts[0])), [])
  {
    hide RestTold, RunTold;
    StopKeepsTold(l, acts);
  }

  lemma StepKeepsTold(s: System, op: Op)
    requires Holds(s) && AllTold(s) && Enabled(s, op)
    ensures AllTold(Step(s, op))
  {
    hide Told, PlanOf, UniqueKeys, LaneSafe, Violates;
    var s' := Step(s, op);
    if op.Proceed? {
      ProceedKeepsTold(s, op.id);
    } else {
      forall id ensures Told(LaneOf(s', id), ActsOf(s', id)) {
        assert Told(LaneOf(s, id), ActsOf(s, id));
        if op.Stop? && op.id == id {
          StopIsTold(LaneOf(s, id), s.pending[id]);
          assert LaneOf(s', id) == LaneOf(s, id).(torn := id in s'.torn);
        } else {
          assert LaneOf(s', id) == LaneOf(s, id);
          if !op.Stop? && !op.PublishContract? && op.id == id { CallStartsTold(s, op); }
        }
      }
    }
  }

  lemma {:induction false} AlwaysTold(ops: seq<Op>)
    requires Admissible(ops)
    ensures AllTold(SystemAfter(ops))
    decreases |ops|
  {
    hide Holds, Step, Enabled, AllTold;
    if ops == [] {
      NothingToldYet();
    } else {
      AlwaysTold(ops[..|ops| - 1]);
      AlwaysHolds(ops[..|ops| - 1]);
      StepKeepsTold(SystemAfter(ops[..|ops| - 1]), ops[|ops| - 1]);
    }
  }

  lemma NothingToldYet()
    ensures AllTold(INITIAL)
  {}

  // ---------- when evidence tells the status ----------

  /** Some stop in the history came when the next act was the report of a status just written. */
  ghost predicate StoppedBeforeReport(ops: seq<Op>, k: nat, id: string) {
    && k < |ops| && ops[k] == Stop(id) && Admissible(ops[..k])
    && id in SystemAfter(ops[..k]).pending && SystemAfter(ops[..k]).pending[id] != []
    && IsReport(SystemAfter(ops[..k]).pending[id][0])
  }

  lemma TornByLast(ops: seq<Op>, id: string)
    requires ops != [] && Admissible(ops)
    ensures id in SystemAfter(ops).torn <==>
      id in SystemAfter(ops[..|ops| - 1]).torn || StoppedBeforeReport(ops, |ops| - 1, id)
  {
    FrontAdmissible(ops);
    TornByStep(SystemAfter(ops[..|ops| - 1]), ops[|ops| - 1], id);
    hide Enabled, Step;
  }

  lemma TornByStep(s: System, op: Op, id: string)
    requires Enabled(s, op)
    ensures id in Step(s, op).torn <==>
      id in s.torn || (op == Stop(id) && id in s.pending && s.pending[id] != [] && IsReport(s.pending[id][0]))
  {
    hide PlanOf, Apply, Violates, FoundByKey, IsReport;
  }

  /** `torn` is history: a transaction is torn exactly when such a stop happened to it. */
  lemma {:induction false} TornExactlyWhenStopped(ops: seq<Op>, id: string)
    requires Admissible(ops)
    ensures id in SystemAfter(ops).torn <==> exists k :: StoppedBeforeReport(ops, k, id)
    decreases |ops|
  {
    if ops != [] {
      hide SystemAfter, Admissible;
      var front := ops[..|ops| - 1];
      FrontAdmissible(ops);
      TornExactlyWhenStopped(front, id);
      TornByLast(ops, id);
      forall k: nat | k < |front| ensures StoppedBeforeReport(front, k, id) <==> StoppedBeforeReport(ops, k, id) {
        assert front[..k] == ops[..k];
      }
    }
  }

  lemma FrontAdmissible(ops: seq<Op>)
    requires ops != [] && Admissible(ops)
    ensures Admissible(ops[..|ops| - 1])
  {
    hide Enabled;
  }

  /**
    With no call under way, evidence fails to tell the status exactly of torn transactions; only in
    EXECUTING can a tear hide, and a transaction no run has touched has none.
   */
  lemma EvidenceMissesStatusExactly(ops: seq<Op>, id: string)
    requires Admissible(ops) && id in SystemAfter(ops).state.transactions && id !in SystemAfter(ops).pending
    ensures var s := SystemAfter(ops);
      var status, told := s.state.transactions[id].status, Replay(Lookup(s.state.evidence, id));
      && (status in BEFORE_RUN ==> id !in s.torn)
      && (status !in {AwaitingApproval, RejectedByPolicy, Cancelled, Executing} ==>
            (id in s.torn <==> told != Some(status)))
      && (status == Executing && told != Some(status) ==> id in s.torn)
  {
    hide SystemAfter, Replay;
    AlwaysTold(ops);
    var s := SystemAfter(ops);
    assert Told(LaneOf(s, id), ActsOf(s, id));
    if id !in s.torn { EvidenceTellsStatus(ops, id); }
  }

  /** A run that completes leaves evidence that tells its end exactly when the transaction was not torn. */
  lemma CompletedRunTellsExactlyWhenUntorn(ops: seq<Op>, id: string, tenantId: string, regs: Registries, a: Answers)
    requires Admissible(ops) && id in SystemAfter(ops).state.transactions && id !in SystemAfter(ops).pending
    requires GetTransaction(SystemAfter(ops).state, id, tenantId).Ok?
    requires SystemAfter(ops).state.transactions[id].status in RESTARTABLE
    ensures var s := SystemAfter(ops);
      var p := EnginePlan(s.state, id, tenantId, regs, a);
      p.end.Ok? ==>
        (Replay(After(LaneOf(s, id), p.acts).events) == Some(p.end.value.status) <==> id !in s.torn)
  {
    hide SystemAfter, UniqueKeys, Safe, RunPlan, After, Replay;
    EvidenceMissesStatusExactly(ops, id);
    AlwaysHolds(ops);
    var s := SystemAfter(ops);
    assert LaneSafe(s, id);
    LaneAtRest(s, id);
    CompletedRunKeepsTrackExactly(LaneOf(s, id), s.state.contracts, s.state.transactions[id], regs, a);
  }

  // ---------- histories that show it ----------

  const NOBODY: Registries := Registries(map[], {})

  const SILENT: Answers := Answers(true, true, None, None, [], None)

  /** Without a registered executor a run is two reported moves. */
  lemma RunWithoutExecutor(tx: Transaction, c: Contract)
    requires tx.status in {Ready, FailedInfrastructure}
    ensures var executing, failed := tx.(status := Executing), tx.(status := FailedInfrastructure);
      var kind := if tx.status == FailedInfrastructure then MoveRetrying else MoveExecuting;
      RunPlan(tx, c, NOBODY, SILENT) == Plan(
        [Put(executing), Append(tx.id, Moved(kind, tx.status, Executing)),
         Put(failed), Append(tx.id, Moved(MoveNoExecutor, Executing, FailedInfrastructure))], Ok(failed))
  {
    SelectFindsFirst(c.preferred + c.fallback, NOBODY.executors);
  }

  /** A stored transaction of this tenant in this status, with this evidence. */
  predicate Stands(s: State, id: string, status: Status, events: seq<Event>) {
    && id in s.transactions && s.transactions[id].id == id && s.transactions[id].status == status
    && KeyOf(s.transactions[id]) in s.contracts && Lookup(s.evidence, id) == events
  }

  function RunHere(s: State, id: string): Op
    requires id in s.transactions
  {
    RunTx(id, s.transactions[id].tenantId, NOBODY, SILENT)
  }

  lemma OneMoreAct(s: State, acts: seq<Act>, n: nat)
    requires n < |acts|
    ensures ApplyAll(s, acts[..n + 1]) == Apply(ApplyAll(s, acts[..n]), acts[n])
  {
    hide Apply;
    ApplyOneMore(s, acts[..n], acts[n]);
    assert acts[..n] + [acts[n]] == acts[..n + 1];
  }

  /** A status write and its report. */
  lemma MoveStands(s: State, id: string, from: Status, events: seq<Event>, tx: Transaction, to: Status, e: Event)
    requires Stands(s, id, from, events) && s.transactions[id] == tx.(status := from)
    ensures var written := Apply(s, Put(tx.(status := to)));
      && Stands(written, id, to, events) && Stands(Apply(written, Append(id, e)), id, to, events + [e])
      && Apply(written, Append(id, e)).transactions[id] == tx.(status := to)
  {}

  lemma FourActs(s: State, acts: seq<Act>)
    requires |acts| == 4
    ensures ApplyAll(s, acts[..1]) == Apply(s, acts[0])
    ensures ApplyAll(s, acts[..3]) == Apply(Apply(Apply(s, acts[0]), acts[1]), acts[2])
    ensures ApplyAll(s, acts[..4]) == Apply(ApplyAll(s, acts[..3]), acts[3])
  {
    hide Apply, ApplyAll;
    NothingApplied(s, acts);
    OneMoreAct(s, acts, 0);
    OneMoreAct(s, acts, 1);
    OneMoreAct(s, acts, 2);
    OneMoreAct(s, acts, 3);
  }

  function TwoMoves(tx: Transaction, first: Event, second: Event): seq<Act> {
    [Put(tx.(status := Executing)), Append(tx.id, first),
     Put(tx.(status := FailedInfrastructure)), Append(tx.id, second)]
  }

  /** What the first, third and fourth of these acts leave stored. */
  lemma TwoMovesStand(s: State, id: string, events: seq<Event>, tx: Transaction, first: Event, second: Event)
    requires Stands(s, id, tx.status, events) && s.transactions[id] == tx
    ensures var acts := TwoMoves(tx, first, second);
      && Stands(ApplyAll(s, acts[..1]), id, Executing, events)
      && Stands(ApplyAll(s, acts[..3]), id, FailedInfrastructure, events + [first])
      && Stands(ApplyAll(s, acts[..4]), id, FailedInfrastructure, events + [first] + [second])
  {
    assert tx.id == id && tx.(status := tx.status) == tx;
    hide Stands, Apply, ApplyAll;
    var acts := TwoMoves(tx, first, second);
    FourActs(s, acts);
    MoveStands(s, id, tx.status, events, tx, Executing, first);
    var mid := Apply(Apply(s, acts[0]), acts[1]);
    MoveStands(mid, id, Executing, events + [first], tx, FailedInfrastructure, second);
  }

  lemma RunHereMoves(s: State, id: string, status: Status, events: seq<Event>)
    requires Stands(s, id, status, events) && status in {Ready, FailedInfrastructure}
    ensures var kind := if status == FailedInfrastructure then MoveRetrying else MoveExecuting;
      var first, second := Moved(kind, status, Executing), Moved(MoveNoExecutor, Executing, FailedInfrastructure);
      var p := PlanOf(s, RunHere(s, id));
      p.acts == TwoMoves(s.transactions[id], first, second) && p.end.Ok?
  {
    hide RunPlan;
    var tx := s.transactions[id];
    RunWithoutExecutor(tx, s.contracts[KeyOf(tx)]);
  }

  lemma ActsWithoutExecutor(s: State, id: string, status: Status, events: seq<Event>)
    requires Stands(s, id, status, events) && status in {Ready, FailedInfrastructure}
    ensures var kind := if status == FailedInfrastructure then MoveRetrying else MoveExecuting;
      var first, second := Moved(kind, status, Executing), Moved(MoveNoExecutor, Executing, FailedInfrastructure);
      var p := PlanOf(s, RunHere(s, id));
      && |p.acts| == 4 && p.end.Ok? && IsReport(p.acts[1]) && IsReport(p.acts[3])
      && Stands(ApplyAll(s, p.acts[..1]), id, Executing, events)
      && Stands(ApplyAll(s, p.acts[..3]), id, FailedInfrastructure, events + [first])
      && Stands(ApplyAll(s, p.acts[..4]), id, FailedInfrastructure, events + [first] + [second])
  {
    RunHereMoves(s, id, status, events);
    assert s.transactions[id].status == status;
    hide PlanOf, ApplyAll, Stands;
    var kind := if status == FailedInfrastructure then MoveRetrying else MoveExecuting;
    TwoMovesStand(
      s, id, events, s.transactions[id], Moved(kind, status, Executing),
      Moved(MoveNoExecutor, Executing, FailedInfrastructure));
  }

  /** Such a run, stopped before its second or fourth act or completed. */
  lemma RunWithoutExecutorArrives(
    s: State, id: string, status: Status, events: seq<Event>, torn: set<string>, n: nat)
    requires Arrives(System(s, map[], torn)) && Stands(s, id, status, events)
    requires status in {Ready, FailedInfrastructure} && n in {1, 3, 4}
    ensures var acts := PlanOf(s, RunHere(s, id)).acts;
      |acts| == 4 && Arrives(System(ApplyAll(s, acts[..n]), map[], if n == 4 then torn else torn + {id}))
  {
    hide Arrives, ApplyAll, PlanOf, IsReport;
    ActsWithoutExecutor(s, id, status, events);
    var acts := PlanOf(s, RunHere(s, id)).acts;
    CallArrives(s, RunHere(s, id), torn, n);
    if n == 4 {
      assert acts[4..] == [] && torn + {} == torn;
    } else {
      assert acts[n..][0] == acts[n];
    }
  }

  lemma NothingApplied(s: State, acts: seq<Act>)
    ensures ApplyAll(s, acts[..0]) == s
  {}

  const SOME_CONTRACT: Contract :=
    Contract([], 1, [], [], [], [], false, None, [], false, false, Null)

  const SOME_REQUEST: CreateRequest := CreateRequest("t", "e", "a", [], 1, Obj([]), Some([0]))

  /** A published contract, and a transaction created under it that the policy allowed outright. */
  lemma SomethingIsReady() returns (s: State)
    ensures Arrives(System(s, map[], {})) && Stands(s, "x", Ready, [])
  {
    hide Arrives, ContractHash, ProposalHash;
    EmptySystemArrives();
    ArrivesStep(INITIAL, PublishContract("t", SOME_CONTRACT));
    var key := ContractKey("t", [], 1);
    var published := State(map[], map[key := SOME_CONTRACT], map[], {}, map[]);
    assert Step(INITIAL, PublishContract("t", SOME_CONTRACT)) == System(published, map[], {});
    var op := CreateTx("x", SOME_REQUEST, None, Some(PolicyDecision(true, None)));
    CallArrives(published, op, {}, 1);
    var acts := PlanOf(published, op).acts;
    assert acts[..1] == acts && acts[1..] == [] && {} + TornBy("x", acts[1..]) == {};
    OneMoreAct(published, acts, 0);
    NothingApplied(published, acts);
    s := ApplyAll(published, acts);
  }

  lemma EmptySystemArrives()
    ensures Arrives(INITIAL)
  {
    assert Admissible([]) && SystemAfter([]) == INITIAL;
  }

  /**
    A run stopped between storing FAILED_INFRASTRUCTURE and reporting it leaves evidence at EXECUTING; a
    second run that completes leaves evidence that replays to nothing; and a second run stopped right after
    its first write stores EXECUTING, where the evidence already was, and so hides the tear.
   */
  lemma EvidenceCanMissTheStatus() returns (stopped: State, rerun: State, hidden: State)
    ensures Arrives(System(stopped, map[], {"x"}))
    ensures Stands(stopped, "x", FailedInfrastructure, Lookup(stopped.evidence, "x"))
    ensures Replay(Lookup(stopped.evidence, "x")) == Some(Executing)
    ensures var p := PlanOf(stopped, RunHere(stopped, "x")); p.end.Ok? && rerun == ApplyAll(stopped, p.acts)
    ensures Arrives(System(rerun, map[], {"x"}))
    ensures Stands(rerun, "x", FailedInfrastructure, Lookup(rerun.evidence, "x"))
    ensures Replay(Lookup(rerun.evidence, "x")) == None
    ensures Arrives(System(hidden, map[], {"x"})) && Stands(hidden, "x", Executing, Lookup(hidden.evidence, "x"))
    ensures Replay(Lookup(hidden.evidence, "x")) == Some(Executing)
  {
    hide Arrives, PlanOf, ApplyAll, Stands, Replay, IsReport;
    var ready := SomethingIsReady();
    StandsLooksUp(ready, "x", Ready, []);
    RunWithoutExecutorArrives(ready, "x", Ready, [], {}, 3);
    ActsWithoutExecutor(ready, "x", Ready, []);
    assert {} + {"x"} == {"x"} && {"x"} + {"x"} == {"x"};
    var first, again := Moved(MoveExecuting, Ready, Executing), Moved(MoveRetrying, FailedInfrastructure, Executing);
    var failed := Moved(MoveNoExecutor, Executing, FailedInfrastructure);
    stopped := ApplyAll(ready, PlanOf(ready, RunHere(ready, "x")).acts[..3]);
    assert Replay([]) == Some(Ready) by { NothingReplayed(); }
    ReplayReport([], first);
    ReplayReport([] + [first], again);
    ReplayReport([] + [first] + [again], failed);
    StandsLooksUp(stopped, "x", FailedInfrastructure, [] + [first]);
    RunWithoutExecutorArrives(stopped, "x", FailedInfrastructure, [] + [first], {"x"}, 4);
    RunWithoutExecutorArrives(stopped, "x", FailedInfrastructure, [] + [first], {"x"}, 1);
    ActsWithoutExecutor(stopped, "x", FailedInfrastructure, [] + [first]);
    var acts := PlanOf(stopped, RunHere(stopped, "x")).acts;
    assert acts[..4] == acts;
    rerun, hidden := ApplyAll(stopped, acts), ApplyAll(stopped, acts[..1]);
    StandsLooksUp(rerun, "x", FailedInfrastructure, [] + [first] + [again] + [failed]);
    StandsLooksUp(hidden, "x", Executing, [] + [first]);
  }

  lemma NothingReplayed()
    ensures Replay([]) == Some(Ready)
  {}

  lemma StandsLooksUp(s: State, id: string, status: Status, events: seq<Event>)
    requires Stands(s, id, status, events)
    ensures Lookup(s.evidence, id) == events && id in s.transactions
  {}
}
