/** apps/api: the handlers that create, approve and cancel a transaction. */
module Api {
  import opened Wrappers
  import opened Domain
  import opened StateMachine
  import opened Approvals
  import opened CoreRuntime
  import opened Store
  import opened Plans
  import opened Db
  import opened StoredEvidence
  import opened Lifecycle
  import opened Reachability

  class Handlers {
    const db: FlowCommitDb

    constructor (db: FlowCommitDb)
      ensures this.db == db && (db.Contents() == INITIAL.state ==> Reachable(db.Contents()))
    {
      this.db := db;
      EmptyStoreIsReachable();
    }

    /** The validated contract is published under its name and version unless one already is. */
    method PublishContract(tenantId: string, c: Contract)
      requires db.Valid()
      modifies db
      ensures db.Valid() && db.log == old(db.log) && db.life == old(db.life)
      ensures db.Contents() == old(db.Contents()).(contracts := Publish(old(db.contracts), tenantId, c))
      ensures old(Reachable(db.Contents())) ==> Reachable(db.Contents())
    {
      hide AllRowsCarry, PlainPayloads, Reachable, ApplyAll;
      if Reachable(db.Contents()) { PublishingStaysReachable(db.Contents(), tenantId, c); }
      db.PutContract(tenantId, c);
    }

    /**
      From CREATED to what is stored; `decision` is the policy's answer, none when it throws. Past the first
      transition no step can fail.
     */
    method Evaluate(created: Transaction, decision: Option<PolicyDecision>) returns (r: Result<Transaction>)
      ensures decision.Some? ==> r == Submit(created, decision.value)
      ensures decision.None? && created.status == Created ==> r == Err(PolicyFailure)
      ensures r != Err(Stopped)
    {
      var tx :- TransitionTransaction(created, Validating);
      tx := TransitionTransaction(tx, PolicyEvaluation).value;
      if decision.None? { return Err(PolicyFailure); }
      tx := ApplyPolicy(tx, decision.value).value;
      if tx.status == Preparing { tx := TransitionTransaction(tx, Ready).value; }
      r := Ok(tx);
    }

    /** A unique key in the way makes the store write throw, and nothing is written. */
    method Save(tx: Transaction) returns (r: Result<Transaction>)
      requires db.Valid()
      modifies db
      ensures var clash := old(db.life) > 0 && Violates(old(db.Contents()), Put(tx));
        if clash then db.Did([], false) && r == Err(KeyConflict) else db.Ran(Plan([Put(tx)], Ok(tx)), r)
      ensures r.Err? ==> db.log == old(db.log)
    {
      hide AllRowsCarry, PlainPayloads, ApplyAll, Apply;
      var _ :- db.PutTransaction(tx);
      r := Ok(tx);
    }

    /**
      `id` is the fresh random id. The existing transaction is returned exactly when a key was sent and
      some row carries it.
     */
    method Create(id: string, r: CreateRequest, decision: Option<PolicyDecision>)
      returns (result: Result<Transaction>, deduplicated: bool)
      requires db.Valid() && id !in db.transactions
      modifies db
      ensures deduplicated ==> result.Ok?
      ensures result != Err(NotFound) ==>
        FoundByKey(old(db.transactions), r, if deduplicated then Some(result.value) else None)
      ensures var existing := if deduplicated then Some(result.value) else None;
        var p := CreatePlan(old(db.Contents()), id, r, existing, decision);
        var clash := p.acts != [] && old(db.life) > 0 && Violates(old(db.Contents()), p.acts[0]);
        if clash then db.Did([], false) && result == Err(KeyConflict) else db.Ran(p, result)
      ensures old(Reachable(db.Contents())) ==> Reachable(db.Contents())
    {
      deduplicated := false;
      hide AllRowsCarry, PlainPayloads, Reachable, ApplyAll, Violates, ContractHash, ProposalHash, Submit;
      var contract := db.GetContract(r.tenantId, r.name, r.version);
      if contract.None? { return Err(NotFound), false; }
      if r.idempotencyKey.Some? && r.idempotencyKey.value != [] {
        var existing := db.FindByIdempotency(r.tenantId, r.environmentId, r.idempotencyKey.value);
        if existing.Some? { return Ok(existing.value), true; }
      }
      assert FoundByKey(db.transactions, r, None);
      hide FoundByKey;
      var created := CreateTransaction(
        id, r.tenantId, r.environmentId, r.actorId, contract.value, r.input, r.idempotencyKey);
      var tx :- Evaluate(created, decision);
      result := Save(tx);
      if old(Reachable(db.Contents())) && result.Ok? {
        LoggedCallStaysReachable(
          db.origin, CreateTx(id, r, None, decision), old(db.log), db.log, result == Err(Stopped));
      }
    }

    method Approve(id: string, tenantId: string, role: string, actorId: string, decision: string)
      returns (result: Result<Transaction>)
      requires db.Valid()
      modifies db
      ensures db.Ran(ApprovePlan(old(db.Contents()), id, tenantId, role, actorId, decision), result)
      ensures old(Reachable(db.Contents())) ==> Reachable(db.Contents())
    {
      hide AllRowsCarry, PlainPayloads, Reachable, ApplyAll, ApprovalsSatisfy, ApprovalRejected;
      var tx :- db.GetTransaction(id, tenantId);
      tx :- RecordApproval(tx, ApprovalFor(tx, role, actorId, decision));
      result := Save(tx);
      if old(Reachable(db.Contents())) {
        LoggedCallStaysReachable(
          db.origin, ApproveTx(id, tenantId, role, actorId, decision), old(db.log), db.log, result == Err(Stopped));
      }
    }

    method Cancel(id: string, tenantId: string) returns (result: Result<Transaction>)
      requires db.Valid()
      modifies db
      ensures db.Ran(CancelPlan(old(db.Contents()), id, tenantId), result)
      ensures old(Reachable(db.Contents())) ==> Reachable(db.Contents())
    {
      hide AllRowsCarry, PlainPayloads, Reachable, ApplyAll, CanTransition;
      var tx :- db.GetTransaction(id, tenantId);
      if tx.status in TERMINAL { return Err(WrongStatus); }
      tx :- TransitionTransaction(tx, Cancelled);
      result := Save(tx);
      if old(Reachable(db.Contents())) {
        LoggedCallStaysReachable(db.origin, CancelTx(id, tenantId), old(db.log), db.log, result == Err(Stopped));
      }
    }
  }
}
