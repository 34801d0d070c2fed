/**
  The persistent tables, the calls the outside world has received, and the single effects a process
  has on them. Tables are keyed as the schema keys them.
 */
module Store {
  import opened Utf16
  import opened Domain

  datatype ContractKey = ContractKey(tenant: string, name: Text, version: int)

  /** Evidence event types that carry a status change. */
  datatype MoveKind =
    | MoveExecuting | MoveRetrying | MoveNoExecutor | MoveUnknownEffect | MoveExecutionFailed | MoveVerifying
    | MoveVerified | MoveCompensated | MoveCompensationUnavailable | MoveCompensationFailed
    | MoveCompensationException | MoveReconciliation

  datatype Event =
    | Moved(kind: MoveKind, from: Status, to: Status)
    | ActionFinished(executor: string, result: Outcome)
    | EffectObserved(effectId: string, verifier: string, observed: EffectResult, strength: real)
    | VerificationDecided(status: Status)

  /** A call to an adapter or verifier, or what came back from one. */
  datatype Call =
    | Execute(context: Transaction, preparedHash: Text)
    | ExecuteReturned(outcome: Outcome)
    | ExecuteThrew
    | VerifierReturned(verifier: string, observation: Observation)
    | CompensateCalled

  datatype State = State(
    transactions: map<string, Transaction>,
    contracts: map<ContractKey, Contract>,
    evidence: map<string, seq<Event>>,
    cases: set<string>,
    calls: map<string, seq<Call>>)

  /** One effect of a running process: a statement on the tables or a call outside. */
  datatype Act =
    | Put(tx: Transaction)
    | Append(txId: string, event: Event)
    | OpenCase(txId: string)
    | Outside(txId: string, call: Call)

  function Target(a: Act): string { if a.Put? then a.tx.id else a.txId }

  function KeyOf(tx: Transaction): ContractKey { ContractKey(tx.tenantId, tx.contractName, tx.contractVersion) }

  predicate SameIdempotencyKey(a: Transaction, b: Transaction) {
    a.tenantId == b.tenantId && a.environmentId == b.environmentId && a.idempotencyKey == b.idempotencyKey
  }

  /** Inserting a new row would break the unique constraint on tenant, environment and key. */
  predicate KeyTaken(transactions: map<string, Transaction>, tx: Transaction) {
    tx.id !in transactions && exists id | id in transactions :: SameIdempotencyKey(transactions[id], tx)
  }

  /** ON CONFLICT(id): only the listed columns are overwritten. */
  function Merge(row: Transaction, tx: Transaction): Transaction {
    row.(status := tx.status, policyDecision := tx.policyDecision, approvals := tx.approvals,
         actions := tx.actions, observations := tx.observations, retryCount := tx.retryCount)
  }

  function Lookup<T>(m: map<string, seq<T>>, id: string): seq<T> { if id in m then m[id] else [] }

  /** The act fails, and changes nothing, when its statement violates a constraint. */
  predicate Violates(s: State, a: Act) { a.Put? && KeyTaken(s.transactions, a.tx) }

  function Apply(s: State, a: Act): State {
    match a
    case Put(tx) =>
      if tx.id in s.transactions then s.(transactions := s.transactions[tx.id := Merge(s.transactions[tx.id], tx)])
      else if KeyTaken(s.transactions, tx) then s
      else s.(transactions := s.transactions[tx.id := tx])
    case Append(id, event) => s.(evidence := s.evidence[id := Lookup(s.evidence, id) + [event]])
    case OpenCase(id) => s.(cases := s.cases + {id})
    case Outside(id, call) => s.(calls := s.calls[id := Lookup(s.calls, id) + [call]])
  }

  function ApplyAll(s: State, acts: seq<Act>): State
    decreases |acts|
  {
    if acts == [] then s else ApplyAll(Apply(s, acts[0]), acts[1..])
  }

  lemma {:induction false} ApplyAllConcat(s: State, a: seq<Act>, b: seq<Act>)
    ensures ApplyAll(s, a + b) == ApplyAll(ApplyAll(s, a), b)
    decreases |a|
  {
    if a == [] {
      assert a + b == b;
    } else {
      ApplyAllConcat(Apply(s, a[0]), a[1..], b);
      assert (a + b)[1..] == a[1..] + b;
    }
  }

  /** The first version published under a key stays: ON CONFLICT DO NOTHING. */
  function Publish(contracts: map<ContractKey, Contract>, tenant: string, c: Contract): map<ContractKey, Contract> {
    var key := ContractKey(tenant, c.name, c.version);
    if key in contracts then contracts else contracts[key := c]
  }
}
