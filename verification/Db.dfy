/** packages/db: the persistent tables, changed one statement at a time. */
module Db {
  import opened Utf16
  import opened Wrappers
  import opened Domain
  import opened Store
  import opened Plans
  import opened StoredEvidence
  import Evidence
  import EvidenceTable

  /** The log grew by all the acts, or, when the process was stopped, by a proper prefix of them. */
  ghost predicate Performs(before: seq<Act>, acts: seq<Act>, after: seq<Act>, stopped: bool) {
    if stopped then before <= after < before + acts else after == before + acts
  }

  /** Acts compose, and a stop on the way to more acts is a stop. */
  lemma PerformsCompose()
    ensures forall before :: Performs(before, [], before, false)
    ensures forall before, a, b, after :: Performs(before, a, after, true) ==> Performs(before, a + b, after, true)
    ensures forall before, a, mid, b, after, stopped ::
      Performs(before, a, mid, false) && Performs(mid, b, after, stopped) ==> Performs(before, a + b, after, stopped)
  {
    forall before, a, mid, b, after, stopped | Performs(before, a, mid, false) && Performs(mid, b, after, stopped)
      ensures Performs(before, a + b, after, stopped)
    {
      assert before + (a + b) == mid + b;
    }
  }

  lemma {:induction false} ApplyAllIgnoresContracts(s: State, acts: seq<Act>, contracts: map<ContractKey, Contract>)
    ensures ApplyAll(s.(contracts := contracts), acts) == ApplyAll(s, acts).(contracts := contracts)
    decreases |acts|
  {
    if acts != [] {
      assert Apply(s.(contracts := contracts), acts[0]) == Apply(s, acts[0]).(contracts := contracts);
      ApplyAllIgnoresContracts(Apply(s, acts[0]), acts[1..], contracts);
    }
  }

  lemma ApplyOneMore(s: State, acts: seq<Act>, a: Act)
    ensures ApplyAll(s, acts + [a]) == Apply(ApplyAll(s, acts), a)
  {
    ApplyAllConcat(s, acts, [a]);
    assert ApplyAll(Apply(ApplyAll(s, acts), a), []) == Apply(ApplyAll(s, acts), a);
  }

  lemma AppendedEvent(s: State, t: State, id: string, e: Event)
    requires t == s.(evidence := s.evidence[id := Lookup(s.evidence, id) + [e]])
    ensures t == Apply(s, Append(id, e))
  {}

  /**
    The tables, and beside them what the process has done to the world: `log` holds the acts performed
    since `origin`, and `life` how many more will succeed before the process is stopped. `evidence` holds
    linked rows, `events` what they report.
   */
  class FlowCommitDb {
    var transactions: map<string, Transaction>
    var contracts: map<ContractKey, Contract>
    var evidence: map<string, seq<Evidence.Entry>>
    var cases: set<string>
    var life: nat
    const world: World
    ghost var events: map<string, seq<Event>>
    ghost var calls: map<string, seq<Call>>
    ghost var origin: State
    ghost var log: seq<Act>

    ghost function Contents(): State
      reads this
    {
      State(transactions, contracts, events, cases, calls)
    }

    ghost predicate Valid()
      reads this
    {
      && Contents() == ApplyAll(origin, log)
      && (forall id | id in transactions :: transactions[id].id == id)
      && PlainPayloads(world) && AllRowsCarry(world.sha, evidence, events)
    }

    /** What a call did: these acts, or a proper prefix of them when the process was stopped on the way. */
    twostate predicate Did(acts: seq<Act>, stopped: bool)
      reads this
    {
      && Valid() && origin == old(origin) && |log| + life == old(|log| + life)
      && contracts == old(contracts) && old(transactions.Keys) <= transactions.Keys
      && Performs(old(log), acts, log, stopped) && (stopped ==> life == 0)
    }

    /** The call performed its plan and ended as the plan does, or was stopped on the way. */
    twostate predicate Ran(new p: Plan, new r: Result<Transaction>)
      reads this
    {
      Did(p.acts, r == Err(Stopped)) && (r != Err(Stopped) ==> r == p.end)
    }

    /** An empty database, for a process that performs `acts` acts before it is stopped. */
    constructor (acts: nat, world: World)
      requires PlainPayloads(world)
      ensures this.world == world && Valid() && log == [] && life == acts
      ensures Contents() == State(map[], map[], map[], {}, map[])
    {
      transactions, contracts, evidence, cases, life := map[], map[], map[], {}, acts;
      this.world := world;
      events, calls, log := map[], map[], [];
      NoRowsCarryNothing(world.sha);
      origin := State(map[], map[], map[], {}, map[]);
    }

    /** A new process on the same tables. */
    method Restart(acts: nat)
      requires Valid()
      modifies this`life
      ensures Valid() && life == acts
    {
      life := acts;
    }

    /**
      A new id is inserted unless another row has its tenant, environment and key; of a known id six columns
      are overwritten.
     */
    method PutTransaction(tx: Transaction) returns (r: Result<()>)
      requires Valid()
      modifies this
      ensures r.Err? ==> transactions == old(transactions)
      ensures r.Ok? ==> tx.id in transactions && transactions == old(transactions)[tx.id := transactions[tx.id]]
      ensures r.Ok? && tx.id !in old(transactions) ==> transactions[tx.id] == tx
      ensures r.Ok? && tx.id in old(transactions) ==>
        transactions[tx.id] == old(transactions[tx.id]).(
          status := tx.status, policyDecision := tx.policyDecision, approvals := tx.approvals,
          actions := tx.actions, observations := tx.observations, retryCount := tx.retryCount)
      ensures r == Err(KeyConflict) <==> (
        && old(life) > 0 && tx.id !in old(transactions)
        && exists id | id in old(transactions) ::
             var row := old(transactions)[id];
             && row.tenantId == tx.tenantId && row.environmentId == tx.environmentId
             && row.idempotencyKey == tx.idempotencyKey)
      ensures var fails := old(life) > 0 && Violates(old(Contents()), Put(tx));
        Did(if fails then [] else [Put(tx)], old(life) == 0)
      ensures r == if old(life) == 0 then Err(Stopped)
                   else if Violates(old(Contents()), Put(tx)) then Err(KeyConflict) else Ok(())
    {
      hide AllRowsCarry, PlainPayloads;
      if life == 0 { return Err(Stopped); }
      if tx.id in transactions {
        var row := transactions[tx.id];
        transactions := transactions[tx.id := row.(
          status := tx.status, policyDecision := tx.policyDecision, approvals := tx.approvals,
          actions := tx.actions, observations := tx.observations, retryCount := tx.retryCount)];
      } else {
        if KeyTaken(transactions, tx) { return Err(KeyConflict); }
        transactions := transactions[tx.id := tx];
      }
      ApplyOneMore(origin, log, Put(tx));
      log, life := log + [Put(tx)], life - 1;
      return Ok(());
    }

    method GetTransaction(id: string, organizationId: string) returns (r: Result<Transaction>)
      ensures r == Plans.GetTransaction(Contents(), id, organizationId)
    {
      if id in transactions && transactions[id].tenantId == organizationId { return Ok(transactions[id]); }
      return Err(NotFound);
    }

    /** Some row under the key, when there is one. */
    method FindByIdempotency(organizationId: string, environmentId: string, key: Text)
      returns (found: Option<Transaction>)
      ensures found.Some? ==> exists id | id in transactions :: transactions[id] == found.value
      ensures found.Some? ==> var tx := found.value;
        tx.tenantId == organizationId && tx.environmentId == environmentId && tx.idempotencyKey == key
      ensures found.None? ==> forall id | id in transactions :: var tx := transactions[id];
        !(tx.tenantId == organizationId && tx.environmentId == environmentId && tx.idempotencyKey == key)
    {
      var rest := transactions.Keys;
      while rest != {}
        invariant rest <= transactions.Keys
        invariant forall id | id in transactions && id !in rest :: var tx := transactions[id];
          !(tx.tenantId == organizationId && tx.environmentId == environmentId && tx.idempotencyKey == key)
      {
        var id :| id in rest;
        var tx := transactions[id];
        if tx.tenantId == organizationId && tx.environmentId == environmentId && tx.idempotencyKey == key {
          return Some(tx);
        }
        rest := rest - {id};
      }
      return None;
    }

    /** The row for an event, linked to the rows its transaction has. */
    method RenderRow(txId: string, event: Event) returns (row: Evidence.Entry)
      requires Valid()
      ensures EvidenceTable.Linked(world.sha, Lookup(evidence, txId) + [row]) && Renders(row.input, txId, event)
    {
      hide HeadMembers, TypeOf, Units, EvidenceTable.Linked, ApplyAll;
      var payload := HeadMembers(event) + world.extras(life, event);
      var x := Evidence.Input(Units(txId), TypeOf(event), world.clock(life), None, payload);
      assert RowsCarry(world.sha, Lookup(evidence, txId), txId, Lookup(events, txId));
      row := EvidenceTable.NextRow(world.sha, Lookup(evidence, txId), x);
    }

    /** One linked row more for that transaction, after the rows it has; no other row changes. */
    method AppendEvidence(txId: string, event: Event) returns (r: Result<()>)
      requires Valid()
      modifies this
      ensures Did([Append(txId, event)], r == Err(Stopped))
      ensures if r.Err? then evidence == old(evidence) else
        var before, after := old(Lookup(evidence, txId)), Lookup(evidence, txId);
        && |after| == |before| + 1 && after[..|before|] == before && Renders(after[|before|].input, txId, event)
        && evidence == old(evidence)[txId := after]
      ensures (r == Err(Stopped) <==> old(life) == 0) && (r.Ok? || r == Err(Stopped))
    {
      hide Renders, RowsCarry, EvidenceTable.Linked, PlainPayloads, Apply;
      if life == 0 { return Err(Stopped); }
      var before := Lookup(evidence, txId);
      var row := RenderRow(txId, event);
      OneMoreRowCarries(world.sha, evidence, events, txId, row, event);
      evidence := evidence[txId := before + [row]];
      events := events[txId := Lookup(events, txId) + [event]];
      ApplyOneMore(origin, log, Append(txId, event));
      AppendedEvent(old(Contents()), Contents(), txId, event);
      log, life := log + [Append(txId, event)], life - 1;
      return Ok(());
    }

    method OpenReconciliation(txId: string) returns (r: Result<()>)
      requires Valid()
      modifies this
      ensures Did([OpenCase(txId)], r == Err(Stopped))
      ensures (r == Err(Stopped) <==> old(life) == 0) && (r.Ok? || r == Err(Stopped))
    {
      hide AllRowsCarry, PlainPayloads;
      if life == 0 { return Err(Stopped); }
      cases := cases + {txId};
      ApplyOneMore(origin, log, OpenCase(txId));
      log, life := log + [OpenCase(txId)], life - 1;
      return Ok(());
    }

    /** A call to an adapter or verifier, or its answer; no table changes. */
    method Outside(txId: string, call: Call) returns (r: Result<()>)
      requires Valid()
      modifies this
      ensures Did([Act.Outside(txId, call)], r == Err(Stopped))
      ensures (r == Err(Stopped) <==> old(life) == 0) && (r.Ok? || r == Err(Stopped))
    {
      hide AllRowsCarry, PlainPayloads;
      if life == 0 { return Err(Stopped); }
      calls := calls[txId := Lookup(calls, txId) + [call]];
      ApplyOneMore(origin, log, Act.Outside(txId, call));
      log, life := log + [Act.Outside(txId, call)], life - 1;
      return Ok(());
    }

    /** ON CONFLICT DO NOTHING: a version already published stays as it is. */
    method PutContract(organizationId: string, c: Contract)
      requires Valid()
      modifies this
      ensures Valid() && log == old(log) && life == old(life)
      ensures Contents() == old(Contents()).(contracts := Publish(old(contracts), organizationId, c))
      ensures var key := ContractKey(organizationId, c.name, c.version);
        contracts == if key in old(contracts) then old(contracts) else old(contracts)[key := c]
    {
      hide AllRowsCarry, PlainPayloads;
      var key := ContractKey(organizationId, c.name, c.version);
      if key !in contracts {
        contracts := contracts[key := c];
        ApplyAllIgnoresContracts(origin, log, contracts);
        origin := origin.(contracts := contracts);
      }
    }

    method GetContract(organizationId: string, name: Text, version: int) returns (found: Option<Contract>)
      ensures var key := ContractKey(organizationId, name, version);
        found == if key in contracts then Some(contracts[key]) else None
    {
      var key := ContractKey(organizationId, name, version);
      if key in contracts { return Some(contracts[key]); }
      return None;
    }
  }
}
