/** The records of the control plane, without the fields that decide nothing (times, risk scores, free text). */
module Domain {
  import opened Wrappers
  import opened Utf16
  import opened Json

  /** The source's thrown errors. */
  datatype Error =
    | InvalidTransition
    | WrongStatus
    | HashMismatch
    | NotFound
    | CredentialFailure
    | VerifierFailure
    | PolicyFailure
    | KeyConflict
    | Stopped

  datatype Result<+T> = Ok(value: T) | Err(error: Error) {
    predicate IsFailure() { Err? }
    function PropagateFailure<U>(): Result<U>
      requires Err?
    {
      Err(error)
    }
    function Extract(): T
      requires Ok?
    {
      value
    }
  }

  datatype Status =
    | Created | Validating | PolicyEvaluation | Preparing | AwaitingApproval | Ready
    | Executing | Verifying | Committing | Verified | VerifiedAfterRetry
    | RejectedByPolicy | HaltedBeforeEffect | UnknownEffect | PartiallyCommitted
    | Compensating | Compensated | ReconciliationRequired | FailedInfrastructure | Cancelled

  datatype ActionStatus =
    | Planned | Authorized | Prepared | ActionExecuting | Executed | EffectUnknown
    | EffectVerified | ActionCommitted | Failed | ActionCompensating | ActionCompensated

  datatype ApprovalRule = ApprovalRule(role: string, count: int)

  datatype ApprovalDecision = Approved | Rejected

  datatype Approval = Approval(role: string, actorId: string, decision: ApprovalDecision, proposalHash: Text)

  datatype PolicyDecision = PolicyDecision(allow: bool, requiredApprovals: Option<seq<ApprovalRule>>)

  datatype EffectResult = EffectConfirmed | EffectRejected | Inconclusive | TimedOut

  datatype Observation = Observation(effectId: string, result: EffectResult, strength: real, source: string)

  /** A verification rule; one without an effect id applies to every effect. */
  datatype Rule = Rule(verifier: string, effectId: Option<string>, strength: Option<real>)

  /** The parts of a published contract the engine reads, and the whole document they were read from. */
  datatype Contract = Contract(
    name: Text, version: int,
    preferred: seq<string>, fallback: seq<string>, credentialRefs: seq<string>,
    effects: seq<string>,
    verificationRequired: bool, minimumStrength: Option<real>, rules: seq<Rule>,
    irreversible: bool, hasCompensation: bool,
    document: Json)

  datatype Action = Action(id: nat, executor: string, status: ActionStatus)

  datatype Transaction = Transaction(
    id: string, tenantId: string, environmentId: string,
    contractName: Text, contractVersion: int, contractSnapshotHash: Text,
    status: Status, actorId: string, input: Json, idempotencyKey: Text, proposalHash: Text,
    policyDecision: Option<PolicyDecision>, approvals: seq<Approval>,
    actions: seq<Action>, observations: seq<Observation>, retryCount: nat)

  /** What an executor reports. */
  datatype Outcome = OutcomeExecuted | OutcomeUnknown | OutcomeFailed
}
