/**
  The mutable store and the step system meet here: whatever one call on the store performs, stopped or
  not, is what the step system does in a start, some proceeds and perhaps a stop. So every guarantee
  about reachable states is a guarantee about the store.
 */
module Reachability {
  import opened Utf16
  import opened Wrappers
  import opened Domain
  import opened CoreRuntime
  import opened Store
  import opened Plans
  import opened Lanes
  import opened Lifecycle
  import opened Guarantees
  import opened Db
  import opened StoredEvidence
  import Evidence
  import EvidenceTable

  ghost predicate Arrives(s: System) { exists ops :: Admissible(ops) && SystemAfter(ops) == s }

  /** A state some history leaves behind with no call under way. */
  ghost predicate Reachable(s: State) { exists torn :: Arrives(System(s, map[], torn)) }

  lemma ArrivesStep(s: System, op: Op)
    requires Arrives(s) && Enabled(s, op)
    ensures Arrives(Step(s, op))
  {
    hide Enabled, Step;
    var ops :| Admissible(ops) && SystemAfter(ops) == s;
    assert (ops + [op])[..|ops|] == ops;
    assert Admissible(ops + [op]) && SystemAfter(ops + [op]) == Step(s, op);
  }

  lemma ArrivesHolds(s: System)
    requires Arrives(s)
    ensures PendingOnTarget(s)
  {
    hide Holds, PendingOnTarget;
    var ops :| Admissible(ops) && SystemAfter(ops) == s;
    AlwaysHolds(ops);
    PendingStaysOnTarget(s);
  }

  // ---------- calls ----------

  predicate IsCall(op: Op) { op.CreateTx? || op.ApproveTx? || op.CancelTx? || op.RunTx? }

  /** What a call may rely on: fresh ids for new transactions, and the answer of the key lookup. */
  ghost predicate MayCall(s: State, op: Op) {
    && IsCall(op)
    && (op.CreateTx? ==> op.id !in s.transactions && FoundByKey(s.transactions, op.request, op.existing))
  }

  /** The acts meet no unique key: they are on a stored transaction, or one insertion under a free key. */
  predicate Unhindered(s: State, id: string, acts: seq<Act>) {
    id in s.transactions || (|acts| == 1 && !Violates(s, acts[0]))
  }

  function Remaining(id: string, acts: seq<Act>): map<string, seq<Act>> {
    if acts == [] then map[] else map[id := acts]
  }

  lemma ProceedPerforms(s: State, id: string, acts: seq<Act>, torn: set<string>)
    requires Arrives(System(s, map[id := acts], torn)) && acts != [] && Unhindered(s, id, acts)
    ensures Arrives(System(Apply(s, acts[0]), Remaining(id, acts[1..]), torn))
    ensures |acts| > 1 ==> Unhindered(Apply(s, acts[0]), id, acts[1..])
  {
    hide Arrives, Holds, EdgeOrSame, PlanOf;
    var t := System(s, map[id := acts], torn);
    ArrivesHolds(t);
    assert Legal(LaneOf(t, id), t.pending[id][0]);
    ArrivesStep(t, Proceed(id));
    assert t.pending - {id} == map[] && t.pending[id := acts[1..]] == map[id := acts[1..]];
  }

  /** Performing any number of the acts of a call under way. */
  lemma {:induction false} ProceedsPerform(s: State, id: string, acts: seq<Act>, torn: set<string>, n: nat)
    requires Arrives(System(s, map[id := acts], torn)) && acts != [] && Unhindered(s, id, acts) && n <= |acts|
    ensures Arrives(System(ApplyAll(s, acts[..n]), Remaining(id, acts[n..]), torn))
    decreases n
  {
    hide Arrives, Unhindered, Apply;
    if n > 0 {
      ProceedPerforms(s, id, acts, torn);
      assert acts[..n][0] == acts[0] && acts[..n][1..] == acts[1..][..n - 1] && acts[1..][n - 1..] == acts[n..];
      if |acts| > 1 {
        ProceedsPerform(Apply(s, acts[0]), id, acts[1..], torn, n - 1);
      }
    }
  }

  lemma CallsAreUnhindered(s: State, op: Op)
    requires MayCall(s, op) && PlanOf(s, op).acts != []
    requires op.CreateTx? ==> !Violates(s, PlanOf(s, op).acts[0])
    ensures Unhindered(s, op.id, PlanOf(s, op).acts)
  {
    hide RunPlan, Submit, RecordApproval, Violates, FoundByKey;
  }

  /** What a stop with these acts still to come adds to the torn transactions. */
  function TornBy(id: string, acts: seq<Act>): set<string> { if acts != [] && IsReport(acts[0]) then {id} else {} }

  lemma StopArrives(s: State, id: string, acts: seq<Act>, torn: set<string>)
    requires Arrives(System(s, Remaining(id, acts), torn))
    ensures Arrives(System(s, map[], torn + TornBy(id, acts)))
  {
    hide Arrives;
    var t := System(s, Remaining(id, acts), torn);
    if acts == [] {
      assert torn + {} == torn;
    } else {
      ArrivesStep(t, Stop(id));
      assert Step(t, Stop(id)) == System(s, map[], torn + TornBy(id, acts));
    }
  }

  /** A call that performed its first n acts and was then stopped, if any were left. */
  lemma CallArrives(s: State, op: Op, torn: set<string>, n: nat)
    requires Arrives(System(s, map[], torn)) && MayCall(s, op) && n <= |PlanOf(s, op).acts|
    requires op.CreateTx? && PlanOf(s, op).acts != [] ==> !Violates(s, PlanOf(s, op).acts[0])
    ensures var acts := PlanOf(s, op).acts;
      Arrives(System(ApplyAll(s, acts[..n]), map[], torn + TornBy(op.id, acts[n..])))
  {
    hide Arrives, Violates, PlanOf, FoundByKey;
    var acts := PlanOf(s, op).acts;
    if acts == [] {
      assert ApplyAll(s, acts[..n]) == s && torn + {} == torn;
    } else {
      ArrivesStep(System(s, map[], torn), op);
      CallsAreUnhindered(s, op);
      assert Step(System(s, map[], torn), op) == System(s, map[op.id := acts], torn);
      ProceedsPerform(s, op.id, acts, torn, n);
      StopArrives(ApplyAll(s, acts[..n]), op.id, acts[n..], torn);
    }
  }

  /**
    Whatever a call on a reachable store performed, all of its acts or those before a stop, it leaves a
    reachable store.
   */
  lemma PerformedCallStaysReachable(s: State, op: Op, before: seq<Act>, after: seq<Act>, stopped: bool)
    requires Reachable(s) && MayCall(s, op) && Performs(before, PlanOf(s, op).acts, after, stopped)
    requires op.CreateTx? && PlanOf(s, op).acts != [] ==> !Violates(s, PlanOf(s, op).acts[0])
    ensures before <= after && Reachable(ApplyAll(s, after[|before|..]))
  {
    hide Arrives, Violates, PlanOf, MayCall;
    var torn :| Arrives(System(s, map[], torn));
    var acts, n := PlanOf(s, op).acts, |after| - |before|;
    assert after[|before|..] == acts[..n];
    CallArrives(s, op, torn, n);
  }

  lemma PublishingStaysReachable(s: State, tenant: string, c: Contract)
    requires Reachable(s)
    ensures Reachable(s.(contracts := Publish(s.contracts, tenant, c)))
  {
    hide Arrives;
    var torn :| Arrives(System(s, map[], torn));
    ArrivesStep(System(s, map[], torn), PublishContract(tenant, c));
  }

  /** The same for a store whose log grew by what the call performed. */
  lemma LoggedCallStaysReachable(origin: State, op: Op, before: seq<Act>, after: seq<Act>, stopped: bool)
    requires var s := ApplyAll(origin, before);
      && Reachable(s) && MayCall(s, op) && Performs(before, PlanOf(s, op).acts, after, stopped)
      && (op.CreateTx? && PlanOf(s, op).acts != [] ==> !Violates(s, PlanOf(s, op).acts[0]))
    ensures Reachable(ApplyAll(origin, after))
  {
    hide Reachable, MayCall, PlanOf, Violates, ApplyAll;
    PerformedCallStaysReachable(ApplyAll(origin, before), op, before, after, stopped);
    ApplyAllConcat(origin, before, after[|before|..]);
    assert after == before + after[|before|..];
  }

  lemma EmptyStoreIsReachable()
    ensures Reachable(INITIAL.state)
  {
    assert Admissible([]) && SystemAfter([]) == INITIAL;
    assert Arrives(System(INITIAL.state, map[], {}));
  }

  // ---------- the guarantees, of every reachable store ----------

  /** The history behind a reachable store. */
  lemma HistoryOf(s: State) returns (ops: seq<Op>)
    requires Reachable(s)
    ensures Admissible(ops) && SystemAfter(ops).state == s && SystemAfter(ops).pending == map[]
  {
    hide SystemAfter, Admissible;
    var torn :| Arrives(System(s, map[], torn));
    ops :| Admissible(ops) && SystemAfter(ops) == System(s, map[], torn);
  }

  /** On every reachable store a tenant, environment and key have at most one row. */
  lemma ReachableStoreHasOneRowPerKey(s: State, id1: string, id2: string)
    requires Reachable(s) && id1 in s.transactions && id2 in s.transactions
    requires SameIdempotencyKey(s.transactions[id1], s.transactions[id2])
    ensures id1 == id2
  {
    hide SystemAfter, Admissible, Reachable;
    var ops := HistoryOf(s);
    OneRowPerKey(ops, id1, id2);
  }

  /** On every reachable store a transaction has at most one action with an effect, and earlier ones failed. */
  lemma ReachableRowHasOneEffect(s: State, id: string, i: nat, j: nat)
    requires Reachable(s) && id in s.transactions
    requires i < |s.transactions[id].actions| && j < |s.transactions[id].actions|
    ensures HasEffect(s.transactions[id].actions[i]) && HasEffect(s.transactions[id].actions[j]) ==> i == j
    ensures i < |s.transactions[id].actions| - 1 ==> s.transactions[id].actions[i].status == Failed
  {
    hide SystemAfter, Admissible, Reachable;
    var ops := HistoryOf(s);
    AtMostOneEffectPerKey(ops, id, id, i, j);
  }

  /** On every reachable store no execute call follows one that reported an effect. */
  lemma ReachableStoreStopsAfterEffect(s: State, id: string, m: nat, n: nat)
    requires Reachable(s)
    requires var calls := Lookup(s.calls, id); m < n < |calls| && calls[n].Execute?
    ensures var calls := Lookup(s.calls, id); !ReportsEffect(calls[m]) && ReportsFailure(calls[n - 1])
  {
    hide SystemAfter, Admissible, Reachable;
    var ops := HistoryOf(s);
    NoExecuteAfterEffect(ops, id, m, n);
  }

  /** Between calls, untorn and past approval: the status is what the transaction's evidence replays to. */
  ghost predicate Settled(s: System, id: string) {
    && Arrives(s) && id in s.state.transactions && id !in s.pending && id !in s.torn
    && s.state.transactions[id].status !in {AwaitingApproval, RejectedByPolicy, Cancelled}
  }

  lemma SettledStatusIsReplayed(s: System, id: string)
    requires Settled(s, id)
    ensures Replay(Lookup(s.state.evidence, id)) == Some(s.state.transactions[id].status)
  {
    hide SystemAfter, Admissible, Replay;
    var ops :| Admissible(ops) && SystemAfter(ops) == s;
    EvidenceTellsStatus(ops, id);
  }

  /**
    The digest of a transaction's last persisted row pins down its status: wherever two settled
    transactions share it, their statuses agree, or their rows exhibit a collision of the digest.
   */
  lemma LastRowTellsStatus(
    sha: Text -> Text, s: System, id: string, a: seq<Evidence.Entry>, t: System, jd: string, b: seq<Evidence.Entry>)
    requires forall text :: sha(text) != Evidence.GENESIS
    requires Settled(s, id) && RowsCarry(sha, a, id, Lookup(s.state.evidence, id))
    requires Settled(t, jd) && RowsCarry(sha, b, jd, Lookup(t.state.evidence, jd))
    requires Evidence.HeadHash(a) == Evidence.HeadHash(b)
    ensures s.state.transactions[id].status == t.state.transactions[jd].status
      || EvidenceTable.ExhibitsShaCollision(sha, a, b)
  {
    hide Settled, RowsCarry, Replay, EvidenceTable.ExhibitsShaCollision;
    SettledStatusIsReplayed(s, id);
    SettledStatusIsReplayed(t, jd);
    LastRowTellsReplay(sha, a, id, Lookup(s.state.evidence, id), b, jd, Lookup(t.state.evidence, jd));
  }
}
