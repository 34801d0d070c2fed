/** The pure step functions of packages/core: each returns a new transaction record or an error. */
module CoreRuntime {
  import opened Utf16
  import opened Json
  import opened Canonical
  import opened Hashing
  import opened Fingerprint
  import opened Wrappers
  import opened Domain
  import opened StateMachine
  import opened Approvals
  import opened Verification
  import Evidence

  function ContractHash(c: Contract): Text { StableHash(CanonicalJson(c.document)) }

  function ProposalBody(contractHash: Text, input: Json): Json {
    Obj([Member(Evidence.Ascii("contract"), Str(contractHash)), Member(Evidence.Ascii("input"), input)])
  }

  function ProposalHash(contractHash: Text, input: Json): Text {
    StableHash(CanonicalJson(ProposalBody(contractHash, input)))
  }

  function CreateTransaction(
    id: string, tenantId: string, environmentId: string, actorId: string, c: Contract, input: Json,
    idempotencyKey: Option<Text>): Transaction
  {
    var key := if idempotencyKey.Some? then idempotencyKey.value
               else TransactionFingerprint(c.name, Evidence.Decimal(c.version), input);
    Transaction(
      id, tenantId, environmentId, c.name, c.version, ContractHash(c),
      Created, actorId, input, key, ProposalHash(ContractHash(c), input),
      None, [], [], [], 0)
  }

  function TransitionTransaction(tx: Transaction, to: Status): Result<Transaction> {
    if CanTransition(tx.status, to) then Ok(tx.(status := to)) else Err(InvalidTransition)
  }

  function RequiredApprovals(d: PolicyDecision): seq<ApprovalRule> {
    if d.requiredApprovals.Some? then d.requiredApprovals.value else []
  }

  function ApplyPolicy(tx: Transaction, d: PolicyDecision): Result<Transaction> {
    if tx.status != PolicyEvaluation then Err(WrongStatus)
    else if !d.allow then Ok(tx.(policyDecision := Some(d), status := RejectedByPolicy))
    else
      Ok(tx.(policyDecision := Some(d),
             status := if RequiredApprovals(d) != [] then AwaitingApproval else Preparing))
  }

  function RecordApproval(tx: Transaction, a: Approval): Result<Transaction> {
    if tx.status != AwaitingApproval then Err(WrongStatus)
    else if a.proposalHash != tx.proposalHash then Err(HashMismatch)
    else
      var approvals := tx.approvals + [a];
      if ApprovalRejected(approvals, tx.proposalHash) then
        Ok(tx.(approvals := approvals, status := RejectedByPolicy))
      else
        var rules := if tx.policyDecision.Some? then RequiredApprovals(tx.policyDecision.value) else [];
        Ok(tx.(approvals := approvals,
               status := if ApprovalsSatisfy(rules, approvals, tx.proposalHash) then Ready else AwaitingApproval))
  }

  function AddObservation(tx: Transaction, o: Observation): Transaction {
    tx.(observations := tx.observations + [o])
  }

  function DecideVerificationOutcome(tx: Transaction, c: Contract): Result<Transaction> {
    if tx.status != Verifying then Err(WrongStatus)
    else
      var summary := Summarize(c, tx.observations);
      if summary.confirmed then Ok(tx.(status := Committing))
      else if summary.rejected then
        Ok(tx.(status := if !c.irreversible && c.hasCompensation then Compensating else ReconciliationRequired))
      else Ok(tx.(status := UnknownEffect))
  }

  // ---------- what the steps mean ----------

  /** A policy that allowed it, enough distinct approvers for every rule, and no rejection, all for this proposal. */
  predicate Cleared(tx: Transaction) {
    && tx.policyDecision.Some? && tx.policyDecision.value.allow
    && ApprovalsSatisfy(RequiredApprovals(tx.policyDecision.value), tx.approvals, tx.proposalHash)
    && !ApprovalRejected(tx.approvals, tx.proposalHash)
  }

  /** The text an approval is bound to determines the contract hash and the input, up to deep key order. */
  lemma ProposalTextDetermines(h: Text, x: Json, g: Text, y: Json)
    requires WellFormed(x) && WellFormed(y)
    ensures CanonicalJson(ProposalBody(h, x)) == CanonicalJson(ProposalBody(g, y)) <==> h == g && Same(x, y)
  {
    hide CanonicalJson;
    CanonicalTextDeterminesValue(ProposalBody(h, x), ProposalBody(g, y));
    SameProposalsExactly(h, x, g, y);
  }

  /** Two-member objects with the same two different keys are the same exactly when their values are. */
  lemma SamePairsExactly(k: Text, l: Text, a: Json, b: Json, c: Json, d: Json)
    requires k != l
    ensures Same(Obj([Member(k, a), Member(l, b)]), Obj([Member(k, c), Member(l, d)])) <==> Same(a, c) && Same(b, d)
  {
    hide HasPartner, IsPartner;
    PairPartners(k, l, a, b, c, d);
    var ms, ns := [Member(k, a), Member(l, b)], [Member(k, c), Member(l, d)];
    assert Same(Obj(ms), Obj(ns)) <==>
      HasPartner(ms[0], ns) && HasPartner(ms[1], ns) && IsPartner(ms, ns[0]) && IsPartner(ms, ns[1]);
  }

  lemma PairPartners(k: Text, l: Text, a: Json, b: Json, c: Json, d: Json)
    requires k != l
    ensures var ms, ns := [Member(k, a), Member(l, b)], [Member(k, c), Member(l, d)];
      && (HasPartner(ms[0], ns) <==> Same(a, c)) && (HasPartner(ms[1], ns) <==> Same(b, d))
      && (IsPartner(ms, ns[0]) <==> Same(a, c)) && (IsPartner(ms, ns[1]) <==> Same(b, d))
  {
    hide Same;
    var ms, ns := [Member(k, a), Member(l, b)], [Member(k, c), Member(l, d)];
    assert ms[0].key == ns[0].key == k && ms[1].key == ns[1].key == l;
  }

  lemma SameProposalsExactly(h: Text, x: Json, g: Text, y: Json)
    ensures Same(ProposalBody(h, x), ProposalBody(g, y)) <==> h == g && Same(x, y)
  {
    var contract, input := Evidence.Ascii("contract"), Evidence.Ascii("input");
    assert |contract| != |input|;
    hide Evidence.Ascii;
    SamePairsExactly(contract, input, Str(h), x, Str(g), y);
  }

  /** A recorded approval makes the transaction ready exactly when it is then cleared. */
  lemma ReadyExactlyWhenCleared(tx: Transaction, a: Approval)
    requires tx.status == AwaitingApproval && a.proposalHash == tx.proposalHash
    requires tx.policyDecision.Some? && tx.policyDecision.value.allow
    ensures RecordApproval(tx, a).Ok?
    ensures var next := RecordApproval(tx, a).value;
      && (next.status == Ready <==> Cleared(next))
      && (next.status == RejectedByPolicy <==> ApprovalRejected(next.approvals, tx.proposalHash))
      && next.status in {Ready, RejectedByPolicy, AwaitingApproval}
  {}
}
