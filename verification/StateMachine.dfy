/** The status tables of packages/core. */
module StateMachine {
  import opened Domain

  function Successors(from: Status): set<Status> {
    match from
    case Created => {Validating, Cancelled}
    case Validating => {PolicyEvaluation, HaltedBeforeEffect, FailedInfrastructure, Cancelled}
    case PolicyEvaluation => {Preparing, AwaitingApproval, RejectedByPolicy, FailedInfrastructure, Cancelled}
    case Preparing => {AwaitingApproval, Ready, HaltedBeforeEffect, FailedInfrastructure, Cancelled}
    case AwaitingApproval => {Ready, RejectedByPolicy, Cancelled}
    case Ready => {Executing, Cancelled}
    case Executing => {Verifying, UnknownEffect, PartiallyCommitted, Compensating, FailedInfrastructure}
    case Verifying =>
      {Committing, UnknownEffect, PartiallyCommitted, Compensating, ReconciliationRequired, FailedInfrastructure}
    case Committing => {Verified, VerifiedAfterRetry, UnknownEffect, FailedInfrastructure}
    case UnknownEffect => {Verifying, ReconciliationRequired, Compensating, VerifiedAfterRetry}
    case PartiallyCommitted => {Compensating, ReconciliationRequired, Verifying}
    case Compensating => {Compensated, ReconciliationRequired, FailedInfrastructure}
    case ReconciliationRequired => {Verifying, Compensating, VerifiedAfterRetry, Compensated}
    case FailedInfrastructure => {Validating, Preparing, Executing, Verifying, ReconciliationRequired}
    case _ => {}
  }

  function ActionSuccessors(from: ActionStatus): set<ActionStatus> {
    match from
    case Planned => {Authorized, Failed}
    case Authorized => {Prepared, ActionExecuting, Failed}
    case Prepared => {ActionExecuting, Failed}
    case ActionExecuting => {Executed, EffectUnknown, Failed}
    case Executed => {EffectVerified, EffectUnknown, Failed, ActionCompensating}
    case EffectUnknown => {EffectVerified, Failed, ActionCompensating}
    case EffectVerified => {ActionCommitted, ActionCompensating}
    case ActionCommitted => {ActionCompensating}
    case Failed => {ActionExecuting, ActionCompensating}
    case ActionCompensating => {ActionCompensated, Failed}
    case ActionCompensated => {}
  }

  predicate CanTransition(from: Status, to: Status) { to in Successors(from) }

  predicate CanTransitionAction(from: ActionStatus, to: ActionStatus) { to in ActionSuccessors(from) }

  // ---------- the tables read backwards ----------

  function Predecessors(to: Status): set<Status> {
    match to
    case Created => {}
    case Validating => {Created, FailedInfrastructure}
    case PolicyEvaluation => {Validating}
    case Preparing => {PolicyEvaluation, FailedInfrastructure}
    case AwaitingApproval => {PolicyEvaluation, Preparing}
    case Ready => {Preparing, AwaitingApproval}
    case Executing => {Ready, FailedInfrastructure}
    case Verifying =>
      {Executing, UnknownEffect, PartiallyCommitted, ReconciliationRequired, FailedInfrastructure}
    case Committing => {Verifying}
    case Verified => {Committing}
    case VerifiedAfterRetry => {Committing, UnknownEffect, ReconciliationRequired}
    case RejectedByPolicy => {PolicyEvaluation, AwaitingApproval}
    case HaltedBeforeEffect => {Validating, Preparing}
    case UnknownEffect => {Executing, Verifying, Committing}
    case PartiallyCommitted => {Executing, Verifying}
    case Compensating => {Executing, Verifying, UnknownEffect, PartiallyCommitted, ReconciliationRequired}
    case Compensated => {Compensating, ReconciliationRequired}
    case ReconciliationRequired =>
      {Verifying, UnknownEffect, PartiallyCommitted, Compensating, FailedInfrastructure}
    case FailedInfrastructure =>
      {Validating, PolicyEvaluation, Preparing, Executing, Verifying, Committing, Compensating}
    case Cancelled => {Created, Validating, PolicyEvaluation, Preparing, AwaitingApproval, Ready}
  }

  const BEFORE_EXECUTION: set<Status> :=
    {Created, Validating, PolicyEvaluation, Preparing, AwaitingApproval, Ready, FailedInfrastructure}

  lemma EarlyEdgesAreListed(from: Status, to: Status)
    requires CanTransition(from, to) && from in BEFORE_EXECUTION
    ensures from in Predecessors(to)
  {}

  lemma LateEdgesAreListed(from: Status, to: Status)
    requires CanTransition(from, to) && from !in BEFORE_EXECUTION
    ensures from in Predecessors(to)
  {}

  lemma ListedAreEdges(from: Status, to: Status)
    requires from in Predecessors(to)
    ensures CanTransition(from, to)
  {}

  /** What leads into each status. */
  lemma TableBackwards(from: Status, to: Status)
    ensures CanTransition(from, to) <==> from in Predecessors(to)
  {
    hide CanTransition, Predecessors;
    if CanTransition(from, to) {
      if from in BEFORE_EXECUTION { EarlyEdgesAreListed(from, to); } else { LateEdgesAreListed(from, to); }
    }
    if from in Predecessors(to) { ListedAreEdges(from, to); }
  }

  /** The statuses that lead nowhere. */
  lemma EndsExactly(from: Status)
    ensures var ends := {Verified, VerifiedAfterRetry, RejectedByPolicy, HaltedBeforeEffect, Compensated, Cancelled};
      from in ends <==> Successors(from) == {}
  {}

  /** An action is compensated only through COMPENSATING, and nothing leads back to PLANNED. */
  lemma ActionTableBackwards(from: ActionStatus, to: ActionStatus)
    ensures CanTransitionAction(from, to) <==> from in match to
      case Planned => {}
      case Authorized => {Planned}
      case Prepared => {Authorized}
      case ActionExecuting => {Authorized, Prepared, Failed}
      case Executed => {ActionExecuting}
      case EffectUnknown => {ActionExecuting, Executed}
      case EffectVerified => {Executed, EffectUnknown}
      case ActionCommitted => {EffectVerified}
      case Failed => {Planned, Authorized, Prepared, ActionExecuting, Executed, EffectUnknown, ActionCompensating}
      case ActionCompensating => {Executed, EffectUnknown, EffectVerified, ActionCommitted, Failed}
      case ActionCompensated => {ActionCompensating}
  {}
}
