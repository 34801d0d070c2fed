/** Approval counting. */
module Approvals {
  import opened Utf16
  import opened Domain

  /** The distinct actors who approved this proposal in this role. */
  function Approvers(approvals: seq<Approval>, role: string, proposalHash: Text): set<string> {
    set a | a in approvals && a.decision.Approved? && a.proposalHash == proposalHash && a.role == role :: a.actorId
  }

  predicate ApprovalsSatisfy(rules: seq<ApprovalRule>, approvals: seq<Approval>, proposalHash: Text) {
    forall rule | rule in rules :: |Approvers(approvals, rule.role, proposalHash)| >= rule.count
  }

  predicate ApprovalRejected(approvals: seq<Approval>, proposalHash: Text) {
    exists a | a in approvals :: a.proposalHash == proposalHash && a.decision.Rejected?
  }
}
