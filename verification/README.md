# FlowCommit control plane: a Dafny model and its proofs

FlowCommit moves a business transaction through submission, policy, approval, execution by an adapter,
verification of its effects, and compensation or reconciliation, and keeps an evidence trail of what
happened. This project models three connected parts of it and proves what they are for.

**The transaction lifecycle.** `Domain` to `CoreRuntime` hold the records, the status tables and the pure
step functions. `Store` holds the tables, keyed as the schema keys them, and the single effects (*acts*) a
process has: a store write, an evidence append, an opened case, a call outside. `Plans` says which acts one
call of a handler or of the engine performs, in order, and how it ends; adapters, verifiers and the policy
are arbitrary answers. The mutable side follows the source: the classes `FlowCommitDb`, `TransactionEngine`,
the two registries, `Handlers` and `PollingWorker` change fields step by step, and each method is proved to
perform exactly its plan, or the part of it before the process was stopped. `Lifecycle` turns calls into a
step system in which the acts of different transactions interleave and a process may stop before any act.
`Lanes`, `RunSafety`, `EngineSafety` and `ApiSafety` prove that an invariant holds at every such point, and
`Guarantees` draws the conclusions for every history. `RunOutcomes` and `ApiOutcomes` say, without the plans'
own functions, what each call does: a run act by act, exactly when execute is called, exactly when a run ends
VERIFIED, what a creation, an approval and a cancellation store. `Pacing` and `EvidenceGaps` settle when evidence tells the
status and when it does not. `Reachability` closes the circle: whatever a method of the mutable store performs
leaves a state of the step system, so the guarantees hold of the store. `StoredEvidence` writes the engine's
events as the linked rows the store keeps.

**The workflow graph.** `StepGraph` defines paths, cycles and longest-chain depth, `QueueOrder` the one order a
queue gives; `Workflow` proves Kahn's algorithm with its queue and counted edges against those definitions, and
the validator on top of it.

**Canonical text, digest and evidence chain.** `Json`, `JsonParser`, `Canonical`, `Ledger`, `Word32`,
`Hashing`, `Fingerprint`, `Evidence` and `EvidenceTable` model the two canonical printers, the parser that inverts them
(sections 4 to 7 of RFC 8259, printing as in section 25.5.2 of ECMA-262), the 32-bit mixing hash on explicit
machine words, the fingerprint text, the hash-chained ledger and the persisted rows linked the same way.
`CanonicalForm`, `TextForms` and `HashForm` say what these functions yield without recursion: which key order a
canonical text has, what the hashed texts look like, which lanes and digits a digest has.

Conventions: text is a sequence of UTF-16 code units; a source exception is an `Err`; `Stopped` is the error
of a process that performs no further act; `log` and `life` in `FlowCommitDb` are the acts performed so far
and the number still to come before the stop.

What the proofs found, beside what was expected:

- The status table alone gives no guarantee (it allows FAILED_INFRASTRUCTURE to VALIDATING and on); the
  invariant is proved over the steps the code takes, including those that write a status without a check.
- VERIFIED_AFTER_RETRY appears in the repository's documentation and tables but is never stored: nothing
  raises `retryCount` (`Guarantees.StatusesNeverStored`).
- A run that stops while its transaction is EXECUTING, VERIFYING, COMMITTING or COMPENSATING leaves it there for
  good: no run, approval or cancellation acts on those statuses (`Guarantees.StoppedRunStaysPut`).
- Evidence misses a status exactly after a stop between a status write and its event, and no later run repairs it
  (`EvidenceGaps`). Only in EXECUTING can such a tear be invisible: a retry stopped right after its first write
  stores the status at which the evidence had been left.
- The two canonical printers differ on objects with array-index keys such as "10" and "9"
  (`Ledger.IndexKeysDisagree`), and agree exactly when the two key orders do.
- A duplicate step id is reported twice by the validator, the second time as a cycle, because the order comes
  out shorter than the list of steps.

## Model

| member | source | states |
|---|---|---|
| Ledger.RebuildSorted | packages/core/src/canonical.ts:1-11 | the recursion that fills a result object key by key yields the sorted value, for every plain value |
| Ledger.RebuildMembers | packages/core/src/canonical.ts:4-8 | the loop over sorted keys, with property assignment, yields each member once, sorted, with its value sorted |
| Canonical.SortValueIdempotent | packages/core/src/canonical.ts:1-11 | sorting twice is sorting once |
| Canonical.SortForgetsOwnOrder | packages/core/src/canonical.ts:5-7 | re-ordering keys the way an engine enumerates them, at every depth, does not change what sorting yields |
| Utf16.LessIsPrecedes | packages/core/src/canonical.ts:5 | the key order is code-unit order: the first differing unit decides, and a key comes before its own extensions |
| CanonicalForm.SortValueExactly | packages/core/src/canonical.ts:1-11 | a value is the sorted one if and only if it is the same value up to deep key order and the keys of every object at every depth ascend in code-unit order |
| CanonicalForm.CanonicalTextExactly | packages/core/src/canonical.ts:13-15 | a printed value is the canonical text of another if and only if they are the same up to deep key order and in every object array-index keys come first by value, the others after them in code-unit order |
| Canonical.CanonicalTextDeterminesValue | packages/core/src/canonical.ts:13-15 | two plain values have one canonical text if and only if they are the same value up to deep key order |
| Canonical.CanonicalRoundTrip | packages/core/src/canonical.ts:13-15 | parsing the canonical text of a value gives back that value up to deep key order, with nothing left over |
| JsonParser.ValueRoundTrip | packages/core/src/canonical.ts:14 | the parser inverts the printer on every well-formed value, whatever text follows |
| JsonParser.PrintInjective | packages/core/src/canonical.ts:14 | different well-formed values print differently |
| Ledger.CanonicalTextsAgreeExactly | packages/evidence/src/index.ts:4-10 | direct printing and rebuild-then-print give one text if and only if no object has two keys whose own-property order and code-unit order differ |
| Ledger.NoIndexKeysAgree | packages/evidence/src/index.ts:4-10 | without array-index keys the two printers agree |
| Ledger.IndexKeysDisagree | packages/evidence/src/index.ts:4-10 | on the object with the keys "10" and "9" they differ |
| Hashing.ComputeStableHash | packages/core/src/canonical.ts:19-31 | the loop over code units and the final lines compute the specified digest |
| HashForm.StableHashExactly | packages/core/src/canonical.ts:19-31 | the digest is the one text of fourteen lower-case hex digits whose value the listed lanes give, seeds, factors, shifts and the mask of 21 bits spelled out |
| HashForm.XorExactly | packages/core/src/canonical.ts:21-29 | the exclusive or is the one word with a one exactly where the operands' bits differ |
| Hashing.StepIsBijective | packages/core/src/canonical.ts:25-26 | each character step on the two lanes has a two-sided inverse |
| Hashing.FinishIsBijective | packages/core/src/canonical.ts:28-29 | the finaliser, whose second line reads the first one's result, has a two-sided inverse |
| Hashing.OneUnitChangesLanes | packages/core/src/canonical.ts:21-29 | texts of equal length that differ in one code unit never reach the same pair of lanes |
| Hashing.DigestShape | packages/core/src/canonical.ts:30 | every digest is fourteen lower-case hexadecimal digits, from which the 53 kept bits are read back |
| Hashing.EqualDigestsExactly | packages/core/src/canonical.ts:30 | two lane pairs print alike if and only if the first lanes and the low 21 bits of the second are equal |
| Fingerprint.FingerprintTextDetermines | packages/core/src/idempotency.ts:16-18 | fingerprint texts are equal if and only if name, version and input (up to key order) are, whatever @, :, braces or quotes names and strings contain |
| Evidence.VerifyEvidenceChain | packages/core/src/evidence.ts:15-25 | the loop accepts exactly the valid chains |
| Evidence.ValidExactlyWhenBuilt | packages/core/src/evidence.ts:4-25 | a chain is accepted if and only if it is what appending its own inputs one by one builds |
| Evidence.HeadIsGenesisExactlyWhenEmpty | packages/core/src/evidence.ts:8 | the head hash of an accepted chain is GENESIS only for the empty chain |
| Evidence.HeadHashDeterminesChain | packages/core/src/evidence.ts:15-25 | accepted chains with one head hash are the same chain, or exhibit two different body texts with one digest |
| TextForms.EntryTextForm | packages/core/src/evidence.ts:8-11 | the hashed text of an entry lists actor if there is one, payload, previousHash, sequence, timestamp, transactionId and type, in that order, each with its canonical text |
| TextForms.ValidChainForm | packages/core/src/evidence.ts:15-25 | a chain is accepted if and only if its entries are numbered from 1, link to the entry before or to GENESIS, and carry the digest of that text |
| Evidence.BothLedgersLinkAlike | packages/evidence/src/index.ts:15-20 | after an accepted chain both packages pick the same sequence and previous hash, and hash one text if and only if the payload's key orders agree |
| EvidenceTable.NextRow | packages/db/src/index.ts:59-64 | the new row takes its sequence and link from the last row, or 1 and GENESIS, and the rows stay linked |
| TextForms.RowTextForm | packages/db/src/index.ts:63 | the hashed text of a row lists sequence, transactionId, type, timestamp, actor or null, payload and previousHash, in that order |
| TextForms.LinkedRowsForm | packages/db/src/index.ts:59-64 | rows are linked if and only if they are numbered from 1, link to the row before or to GENESIS, and carry the digest of that text |
| EvidenceTable.LastHashDeterminesRows | packages/db/src/index.ts:55-68 | linked rows with one last hash are the same rows, or exhibit two different row texts with one digest, for any digest that never yields GENESIS |
| StoredEvidence.LastRowTellsReplay | packages/db/src/index.ts:55-68 | rows that carry engine events and share their last digest replay to one status, or exhibit a collision |
| StepGraph.TopologicalMeansAcyclic | packages/core/src/workflow.ts:21-22 | a list with every known dependency before its dependant leaves no path from a step to itself |
| StepGraph.StuckHasCycle | packages/core/src/workflow.ts:22 | a non-empty set of steps each depending on a member of the set contains a cycle |
| StepGraph.LevelIsDepth | packages/core/src/workflow.ts:22 | a level one above the highest dependency is the length of the longest dependency chain |
| Workflow.BuildGraph | packages/core/src/workflow.ts:22 | in-degrees and out lists count every known dependency as often as it is listed; ids and dependants stand in declaration order |
| Workflow.LowerDependants | packages/core/src/workflow.ts:22 | lowering one out list keeps the queue invariants: counts, readiness, no repeats, levels in order, steps by the position of their last dependency |
| QueueOrder.QueueOrderIsUnique | packages/core/src/workflow.ts:22 | at most one topological order has its steps by the position of their last dependency and then by declaration |
| Workflow.TopologicalOrder | packages/core/src/workflow.ts:21-23 | succeeds if and only if ids are distinct and no path leads from a step to itself; the result is then the one order with each id once, dependencies first, by the position of the last dependency and then by declaration; longest-chain depth never falls along it; the queue loop ends |
| Workflow.NothingDeservedExactly | packages/core/src/workflow.ts:15-20 | nothing is to be complained about if and only if the definition is well formed |
| Workflow.ValidateWorkflow | packages/core/src/workflow.ts:15-20 | reports exactly the deserved issues, and none if and only if the definition is well formed |
| Workflow.WellFormedOrdersEveryDependency | packages/core/src/workflow.ts:15-23 | in a well-formed workflow an order puts every listed dependency before the step that lists it |
| Verification.SummarizeVerification | packages/core/src/verification.ts:11-37 | the loop computes the effect-by-effect meaning of confirmed, unknown, rejected, strength and missing effects |
| Verification.VerdictsExclude | packages/core/src/verification.ts:30-36 | confirmed excludes rejected and unknown, and holds exactly when nothing is missing or too weak |
| CoreRuntime.ProposalTextDetermines | packages/core/src/runtime.ts:24-25 | the text behind a proposal hash is shared if and only if contract hash and input (up to key order) are |
| TextForms.ProposalText | packages/core/src/runtime.ts:25 | the hashed text of a proposal is an object of the contract hash and the canonical input, in that order |
| ApiSafety.SubmitFacts | apps/api/src/server.ts:53-58 | a submission never throws; it stores REJECTED_BY_POLICY exactly when not allowed, AWAITING_APPROVAL exactly when allowed with approvals required, READY only when cleared |
| ApiOutcomes.CreationStoresTheRequest | apps/api/src/server.ts:46-61 | a creation returns the existing row, fails without contract or decision, or writes one row that carries the request, its hashes and the sent key or the digest of name@version:input, at the status the decision gives |
| ApiOutcomes.StoredRowCarriesItsRequest | packages/core/src/runtime.ts:24-47 | in every history a stored row carries its creation's tenant, environment, actor, contract, input and key, for good |
| ApiOutcomes.RepeatedKeyReturnsTheRow | apps/api/src/server.ts:52 | in every history a creation that sends the key of a stored row gets that row and writes nothing |
| ApiOutcomes.OneCreationStoresPerKey | apps/api/src/server.ts:46-61 | in every history, of all creations with one tenant, environment and key only one ever stores a row |
| ApiOutcomes.ApprovalRecordsExactly | apps/api/src/server.ts:71-77 | an approval call fails for other tenants and statuses; otherwise it writes the old approvals and one more with the caller's role and actor and the row's proposal hash, REJECTED exactly for that word |
| ApiOutcomes.ApprovalDecidesExactly | packages/core/src/runtime.ts:69-77 | on every stored row awaiting approval a rejection stores REJECTED_BY_POLICY; otherwise READY exactly when every required role has its count of different approving actors, AWAITING_APPROVAL else |
| ApiOutcomes.CancellationExactly | apps/api/src/server.ts:97-103 | on every stored row cancelling writes CANCELLED exactly while awaiting approval or READY and changes nothing else |
| ApiOutcomes.OtherTenantsFindNothing | packages/db/src/index.ts:35-39 | under another tenant approval, cancellation and run find nothing and do nothing |
| Db.FlowCommitDb.PutTransaction | packages/db/src/index.ts:14-33 | inserts a new id, or overwrites exactly six columns of a known one; fails and changes nothing exactly when a new id brings the tenant, environment and key of another row |
| Db.FlowCommitDb.FindByIdempotency | packages/db/src/index.ts:41-47 | finds a row with that tenant, environment and key if there is one |
| Db.FlowCommitDb.AppendEvidence | packages/db/src/index.ts:55-68 | adds one row that carries the event, linked to that transaction's last row; the rows before it and all other rows stay; all rows stay linked and carry the events in order |
| Db.FlowCommitDb.OpenReconciliation | packages/db/src/index.ts:70-74 | the case of that transaction is open; opening it again changes nothing |
| Db.FlowCommitDb.PutContract | packages/db/src/index.ts:103-107 | a version already published stays as it is |
| Engine.ExecutorRegistry.Register | packages/runtime/src/index.ts:19-24 | the adapter is found under its name and every alias, and no other name changes |
| Engine.VerifierRegistry.Register | packages/runtime/src/index.ts:26-30 | the verifier's name and aliases are added, and no other |
| Plans.SelectFindsFirst | packages/runtime/src/index.ts:105-108 | the selected executor is the first registered name, with no earlier one registered; none exactly when no name is |
| Plans.ChecksExactly | packages/runtime/src/index.ts:115-120 | every applicable rule of every expected effect is checked and nothing else, and an effect goes without a check exactly when no rule applies |
| Plans.ChecksInOrder | packages/runtime/src/index.ts:115-118 | the checks of two lists of effects are those of the first and then those of the second |
| Plans.RulesInOrder | packages/runtime/src/index.ts:116-118 | for one effect the rules are checked in the contract's order |
| Plans.OneRuleOneEffect | packages/runtime/src/index.ts:116-117 | a rule checks an effect exactly when it names that effect, the empty one or none; otherwise the effect goes unchecked |
| RunOutcomes.VerdictExactly | packages/core/src/runtime.ts:83-92 | from VERIFYING the verdict is COMMITTING iff every effect has a confirmation of sufficient strength; COMPENSATING iff not, some effect was rejected without confirmation, and the contract is reversible and has a compensation; RECONCILIATION_REQUIRED iff such an effect cannot be compensated; UNKNOWN_EFFECT otherwise |
| RunOutcomes.PassGoesOnExactly | packages/runtime/src/index.ts:115-125 | the pass completes if and only if every check that asks a registered verifier gets its answer, and then records one observation per check: effect, result, source, and the strength that was answered, or else the rule's, or 0 |
| RunOutcomes.PassReportsExactly | packages/runtime/src/index.ts:115-125 | the pass calls and reports exactly the checks with a registered verifier, in order |
| RunOutcomes.VerifyExactly | packages/runtime/src/index.ts:110-127 | a pass throws exactly when verification is required and some verifier that is asked throws; otherwise it returns the row with the new observations and nothing else changed |
| RunOutcomes.VerifyTrace | packages/runtime/src/index.ts:110-127 | a completed pass reports each answer and then stores the observations with one write; without required verification every effect is confirmed at strength 0 |
| RunOutcomes.CompensationTrace | packages/runtime/src/index.ts:129-136 | the acts of the four ways compensation goes, with their event kinds and ends |
| RunOutcomes.DecideTrace | packages/runtime/src/index.ts:93-102 | the acts from the verdict on, for each of the four verdicts |
| RunOutcomes.ExecutorTrace | packages/runtime/src/index.ts:52-103 | a run with a registered executor, act by act: the move to EXECUTING, the stored action, the calls, the outcome stored and reported, and what follows; with unresolved credentials it throws after the action was stored |
| RunOutcomes.NoExecutorTrace | packages/runtime/src/index.ts:52-59 | without a registered executor a run is two moves and ends FAILED_INFRASTRUCTURE |
| RunOutcomes.OtherRuns | packages/runtime/src/index.ts:49-51 | from UNKNOWN_EFFECT a run moves to RECONCILIATION_REQUIRED and opens the case; from any other status it does nothing |
| RunOutcomes.ExecuteCalledExactly | packages/runtime/src/index.ts:55-76 | a run from READY or FAILED_INFRASTRUCTURE calls execute if and only if some listed executor is registered, credentials resolve or none are listed, validate passes and prepare returns the row's proposal hash |
| RunOutcomes.RunEndsExactly | packages/runtime/src/index.ts:55-103 | how every run ends: FAILED_INFRASTRUCTURE without an executor; an exception without credentials; a FAILED action and FAILED_INFRASTRUCTURE when execute was not called, threw or failed; reconciliation when the effect is unknown; otherwise by the verdict on the observations |
| Engine.TransactionEngine.SelectExecutor | packages/runtime/src/index.ts:105-108 | the first registered name, preferred before fallback |
| Engine.TransactionEngine.Transition | packages/runtime/src/index.ts:149-151 | a legal move is one store write and one event telling from and to; an illegal one throws and does nothing |
| Engine.TransactionEngine.ObserveEffects | packages/runtime/src/index.ts:115-125 | the nested loops accumulate one observation per check, in order, and stop at a verifier that throws |
| Engine.TransactionEngine.VerifyAll | packages/runtime/src/index.ts:110-127 | performs the verification pass and stores its observations with one write |
| Engine.TransactionEngine.Compensate | packages/runtime/src/index.ts:129-136 | performs the compensation plan: compensated, failed, thrown, or not available |
| Engine.TransactionEngine.ReconcileUnknown | packages/runtime/src/index.ts:138-142 | moves UNKNOWN_EFFECT on, then opens the case |
| Engine.TransactionEngine.CallExecutor | packages/runtime/src/index.ts:67-76 | performs the try block: the calls of its plan and the outcome that is recorded (RunOutcomes.ExecuteCalledExactly says when execute is among them) |
| Engine.TransactionEngine.Decide | packages/runtime/src/index.ts:93-102 | stores and reports the verdict and goes on from it (RunOutcomes.VerdictExactly and DecideTrace say which and how) |
| Engine.TransactionEngine.Run | packages/runtime/src/index.ts:45-103 | performs exactly the run's plan, or a proper prefix when stopped, returns what the plan returns, and keeps the store reachable |
| Api.Handlers.PublishContract | apps/api/src/server.ts:25-30 | publishes under name and version unless a version is there, and keeps the store reachable |
| Api.Handlers.Create | apps/api/src/server.ts:46-61 | returns the row found under the key, or performs the creation plan; a unique key in the way changes nothing; keeps the store reachable |
| Api.Handlers.Approve | apps/api/src/server.ts:71-77 | performs the approval plan on the tenant's transaction and keeps the store reachable |
| Api.Handlers.Cancel | apps/api/src/server.ts:97-103 | performs the cancellation plan on the tenant's transaction and keeps the store reachable |
| Worker.PollingWorker.Poll | apps/worker/src/worker.ts:15 | at most twenty different rows in READY or FAILED_INFRASTRUCTURE, and all of them when there are fewer |
| Worker.PollingWorker.RunBatch | apps/worker/src/worker.ts:16 | runs every row on what the rows before it left, past runs that throw; keeps the store reachable |
| Worker.PollingWorker.Tick | apps/worker/src/worker.ts:12-19 | does nothing while another tick runs or the worker stops; otherwise runs one batch and clears its flag |
| Lanes.MoveIsSafe | packages/runtime/src/index.ts:149-151 | a transition keeps the invariant before, between and after its write and its event |
| EngineSafety.VerifyAndDecideIsSafe | packages/runtime/src/index.ts:92-102 | the pass, the verdict and what follows keep the invariant at every stop |
| EngineSafety.ExecuteIsSafe | packages/runtime/src/index.ts:69-76 | calling the adapter keeps the execute discipline and settles the phase the outcome is stored under |
| EngineSafety.RunIsSafe | packages/runtime/src/index.ts:45-103 | a run keeps the invariant wherever it stops and, when it returns, has stored what it returns |
| ApiSafety.CreateIsSafe | apps/api/src/server.ts:53-59 | creating a transaction keeps the invariant |
| ApiSafety.ApproveIsSafe | apps/api/src/server.ts:71-77 | an approval is accepted exactly while awaiting one, and keeps the invariant |
| ApiSafety.CancelIsSafe | apps/api/src/server.ts:97-103 | cancelling is accepted exactly while awaiting approval or READY, and keeps the invariant |
| Lifecycle.AlwaysHolds | packages/runtime/src/index.ts:45-157 | the invariant of every transaction holds after every sequence of creates, approvals, cancels, runs, single acts and stops |
| Guarantees.NoExecuteAfterEffect | packages/runtime/src/index.ts:67-89 | in every history an execute call comes only first or right after a reported failure, never after EXECUTED or UNKNOWN_EFFECT |
| Guarantees.OneRowPerKey | packages/db/schema.sql:75 | one tenant, environment and key never have two transactions |
| Guarantees.AtMostOneEffectPerKey | packages/runtime/src/index.ts:61-89 | per tenant, environment and key at most one action ends with an effect or an unknown one, and every action but the last is FAILED |
| Guarantees.ExecuteOnlyWithAuthority | packages/core/src/approval.ts:3-13 | at every execute call the policy allowed it, each required role has its count of distinct approvers for the proposal hash, nothing is rejected, and the prepared hash is the hash of the published contract and the stored input; the stored row is cleared too |
| Guarantees.VerifiedMeansConfirmed | packages/core/src/runtime.ts:83-92 | a stored VERIFIED has a last action EXECUTED and each expected effect confirmed at the minimum strength, by a rule's verifier answering after execution when verification is required |
| Pacing.RunPaced | packages/runtime/src/index.ts:45-157 | every run reports each status it writes with its very next act, the verdict included |
| Guarantees.EvidenceTellsStatus | packages/runtime/src/index.ts:149-155 | with no call under way and no torn write, the evidence replays from READY to the stored status; before any run, READY included, it is empty |
| EvidenceGaps.EvidenceMissesStatusExactly | packages/runtime/src/index.ts:149-155 | with no call under way, evidence fails to tell the status if and only if the transaction is torn, in every status past approval but EXECUTING, where untold still means torn; before any run nothing is torn |
| EvidenceGaps.TornExactlyWhenStopped | packages/runtime/src/index.ts:150 | a transaction is torn if and only if some stop in its history fell between a status write and its event |
| EvidenceGaps.CompletedRunTellsExactlyWhenUntorn | packages/runtime/src/index.ts:91-102 | a completed run leaves evidence that tells its end if and only if the transaction was untorn when it started |
| EvidenceGaps.EvidenceCanMissTheStatus | packages/runtime/src/index.ts:149-155 | a history stored FAILED_INFRASTRUCTURE with evidence at EXECUTING; a second run completed leaves evidence that replays to nothing; a second run stopped after its first write stores EXECUTING and hides the tear |
| Guarantees.CompletedRunKeepsTrackExactly | packages/runtime/src/index.ts:91-102 | from any lane at rest, a completed run's evidence tells the status if and only if it did before |
| Guarantees.EvidenceClosesTheApi | apps/api/src/server.ts:71-103 | once a transaction has evidence no approval or cancellation writes anything |
| Guarantees.RowsMoveAlongTables | packages/core/src/state-machine.ts:3-38 | every operation moves a stored status along its table or not at all, recorded actions along theirs, and changes no column but the six a store write overwrites |
| StateMachine.TableBackwards | packages/core/src/state-machine.ts:3-24 | the table read backwards: which statuses lead into each status, and into none from the six final ones |
| Guarantees.RunLoadsRecordedContract | packages/runtime/src/index.ts:46-48 | the contract a run loads hashes to the snapshot hash the transaction recorded |
| Guarantees.StatusesNeverStored | packages/core/src/state-machine.ts:3-24 | seven statuses, VERIFIED_AFTER_RETRY among them, are never stored, and retryCount stays 0 |
| Guarantees.RunEndsAsPromised | packages/runtime/src/index.ts:45-142 | a run that is not stopped throws only for credentials or a verifier, or ends VERIFIED, COMPENSATED, RECONCILIATION_REQUIRED or FAILED_INFRASTRUCTURE, with an open case exactly in RECONCILIATION_REQUIRED |
| RunOutcomes.StoredRunExecutesExactly | packages/runtime/src/index.ts:45-90 | in every history a run on a stored READY or FAILED_INFRASTRUCTURE row calls execute exactly under those conditions, and records the adapter's answer, or FAILED without one |
| RunOutcomes.ExecutedRunIsVerifiedExactly | packages/runtime/src/index.ts:91-142 | in every history an executed run ends VERIFIED iff every effect is confirmed at the minimum strength, COMPENSATED iff one was refused and undone, in reconciliation otherwise, and throws iff a verifier does |
| Guarantees.StoppedRunStaysPut | packages/runtime/src/index.ts:49 | a transaction left EXECUTING, VERIFYING, COMMITTING or COMPENSATING, or at an end status, is never touched again by any statement, event or outside call |
| Reachability.PerformedCallStaysReachable | packages/runtime/src/index.ts:45-103 | what a call performed on a reachable store, all of it or the part before a stop, leaves a reachable store |
| Reachability.LoggedCallStaysReachable | packages/db/src/index.ts:14-74 | the same for a mutable store and its log of acts |
| Reachability.CallArrives | packages/runtime/src/index.ts:45-103 | a call that performed its first n acts and was then stopped is a history of the step system, and tears its transaction exactly when the next act was a report |
| Reachability.ReachableStoreHasOneRowPerKey | packages/db/schema.sql:75 | on every reachable store a tenant, environment and key have at most one row |
| Reachability.ReachableRowHasOneEffect | packages/runtime/src/index.ts:61-89 | on every reachable store a transaction has at most one action with an effect, and every action but the last failed |
| Reachability.ReachableStoreStopsAfterEffect | packages/runtime/src/index.ts:67-89 | on every reachable store no execute call follows one that reported an effect |
| Reachability.LastRowTellsStatus | packages/db/src/index.ts:55-68 | wherever two transactions at rest, untorn and past approval share the digest of their last row, their statuses agree or a collision is exhibited |

## Left out

- Two calls at once on one transaction: the store has no version check, so at most one call acts on a transaction at a time; calls on different transactions interleave freely.
- A store write that fails is modelled as the end of its run; an evidence hook that throws inside the try block of compensate, after COMPENSATED was stored, is excluded.
- Db.FlowCommitDb.AppendEvidence: payload members beside the ones the model knows (reference, code, strength and the like) and the clock are arbitrary values of each act.
- Db.FlowCommitDb.OpenReconciliation: a case is open or not; its constant reason and its recommendation are left out.
- EvidenceTable.LastHashDeterminesRows: SHA-256 is an arbitrary function from texts to texts, so a collision is exhibited, not excluded. The payload is the value that was hashed; a jsonb column may list its keys in another order when it is read back.
- Evidence.BothLedgersLinkAlike: SHA-256 is again an arbitrary function; only the hashed texts are compared.
- EvidenceGaps.EvidenceMissesStatusExactly: one direction only in EXECUTING, because there the other is false (EvidenceGaps.EvidenceCanMissTheStatus).
- Worker.PollingWorker.Poll: does not model the order by creation time, because times are left out; any runnable rows may come first.
- Engine.TransactionEngine.Run: a verifier may answer for another effect id than it was asked about; the answer is recorded under the id it gives, as in the source.
- JSON values are plain: no `undefined` and no `__proto__` key; numbers are opaque tokens; a contract version prints in decimal digits (below 10^21). Input stored as jsonb is the value that was sent.
- Contract documents are taken as published and valid; validateContract, and the published and deprecated states of a contract version (a lookup finds every version put), are not part of this model.
- Adapter, verifier, policy and credential bodies: arbitrary answers, or none when they throw.
- Risk scores, executor ranking, renderIdempotencyKey, workspaces, external references and all times: they decide nothing in the modelled steps.
- An idempotency key that is the empty string is not looked up on creation but still unique in the table, as in the source.
- Fields the engine and the approval step do not consult (retrySafe, allowedExecutors, requiredVerifiers, a rule's required flag, the contract's own approval rules) are left out of the records.
- HTTP status codes, webhooks, command line, user interface and deployment files.
