/** How the engine's events are written as persisted rows, and what a last row's digest says about them. */
module StoredEvidence {
  import opened Utf16
  import opened Json
  import opened Canonical
  import opened Domain
  import opened Store
  import opened Lanes
  import opened Evidence
  import EvidenceTable

  /** Whatever a row depends on beside its event: the digest, the clock, and the rest of the payload. */
  datatype World = World(sha: Text -> Text, clock: nat -> Text, extras: (nat, Event) -> seq<Member<Json>>)

  function StatusName(s: Status): Text {
    match s
    case Created => Ascii("CREATED")
    case Validating => Ascii("VALIDATING")
    case PolicyEvaluation => Ascii("POLICY_EVALUATION")
    case Preparing => Ascii("PREPARING")
    case AwaitingApproval => Ascii("AWAITING_APPROVAL")
    case Ready => Ascii("READY")
    case Executing => Ascii("EXECUTING")
    case Verifying => Ascii("VERIFYING")
    case Committing => Ascii("COMMITTING")
    case Verified => Ascii("VERIFIED")
    case VerifiedAfterRetry => Ascii("VERIFIED_AFTER_RETRY")
    case RejectedByPolicy => Ascii("REJECTED_BY_POLICY")
    case HaltedBeforeEffect => Ascii("HALTED_BEFORE_EFFECT")
    case UnknownEffect => Ascii("UNKNOWN_EFFECT")
    case PartiallyCommitted => Ascii("PARTIALLY_COMMITTED")
    case Compensating => Ascii("COMPENSATING")
    case Compensated => Ascii("COMPENSATED")
    case ReconciliationRequired => Ascii("RECONCILIATION_REQUIRED")
    case FailedInfrastructure => Ascii("FAILED_INFRASTRUCTURE")
    case Cancelled => Ascii("CANCELLED")
  }

  function TypeOf(e: Event): Text {
    match e
    case Moved(kind, _, _) => MoveType(kind)
    case ActionFinished(_, _) => Ascii("action.finished")
    case EffectObserved(_, _, _, _) => Ascii("effect.observed")
    case VerificationDecided(_) => Ascii("transaction.verification_decided")
  }

  function MoveType(kind: MoveKind): Text {
    match kind
    case MoveExecuting => Ascii("transaction.executing")
    case MoveRetrying => Ascii("transaction.retrying")
    case MoveNoExecutor => Ascii("transaction.no_executor")
    case MoveUnknownEffect => Ascii("transaction.unknown_effect")
    case MoveExecutionFailed => Ascii("transaction.execution_failed")
    case MoveVerifying => Ascii("transaction.verifying")
    case MoveVerified => Ascii("transaction.verified")
    case MoveCompensated => Ascii("transaction.compensated")
    case MoveCompensationUnavailable => Ascii("compensation.unavailable")
    case MoveCompensationFailed => Ascii("compensation.failed")
    case MoveCompensationException => Ascii("compensation.exception")
    case MoveReconciliation => Ascii("reconciliation.required")
  }

  function OutcomeName(o: Outcome): Text {
    match o
    case OutcomeExecuted => Ascii("EXECUTED")
    case OutcomeUnknown => Ascii("UNKNOWN_EFFECT")
    case OutcomeFailed => Ascii("FAILED")
  }

  function ResultName(r: EffectResult): Text {
    match r
    case EffectConfirmed => Ascii("CONFIRMED")
    case EffectRejected => Ascii("REJECTED")
    case Inconclusive => Ascii("INCONCLUSIVE")
    case TimedOut => Ascii("TIMEOUT")
  }

  /** The UTF-16 code units of a string. */
  function Units(s: string): Text {
    if s == [] then []
    else
      var c := s[0] as int;
      (if c < 0x1_0000 then [c] else [0xD800 + (c - 0x1_0000) / 0x400, 0xDC00 + (c - 0x1_0000) % 0x400]) + Units(s[1..])
  }

  function Named(key: string, value: Text): Member<Json> { Member(Ascii(key), Str(value)) }

  /** The first members of an event's payload. */
  function HeadMembers(e: Event): seq<Member<Json>> {
    match e
    case Moved(_, from, to) => [Named("from", StatusName(from)), Named("to", StatusName(to))]
    case ActionFinished(executor, result) => [Named("executor", Units(executor)), Named("result", OutcomeName(result))]
    case EffectObserved(effectId, verifier, observed, _) =>
      [Named("effectId", Units(effectId)), Named("verifier", Units(verifier)), Named("result", ResultName(observed))]
    case VerificationDecided(status) => [Named("status", StatusName(status))]
  }

  /** Payloads are plain JSON objects: no key twice. */
  ghost predicate PlainPayloads(world: World) {
    forall n, e :: WellFormed(Obj(HeadMembers(e) + world.extras(n, e)))
  }

  ghost predicate Renders(x: Input, id: string, e: Event) {
    && x.transactionId == Units(id) && x.kind == TypeOf(e) && x.actor.None?
    && HeadMembers(e) <= x.payload && WellFormed(Obj(x.payload))
  }

  ghost predicate RenderedInOrder(rows: seq<Entry>, id: string, events: seq<Event>) {
    |rows| == |events| && forall k | 0 <= k < |rows| :: Renders(rows[k].input, id, events[k])
  }

  /** The rows are linked, and carry the events one by one in order. */
  ghost predicate RowsCarry(sha: Text -> Text, rows: seq<Entry>, id: string, events: seq<Event>) {
    EvidenceTable.Linked(sha, rows) && RenderedInOrder(rows, id, events)
  }

  ghost predicate AllRowsCarry(sha: Text -> Text, rows: map<string, seq<Entry>>, evidence: map<string, seq<Event>>) {
    forall id :: RowsCarry(sha, Lookup(rows, id), id, Lookup(evidence, id))
  }

  lemma NoRowsCarryNothing(sha: Text -> Text)
    ensures AllRowsCarry(sha, map[], map[])
  {}

  lemma OneMoreRowCarries(
    sha: Text -> Text, rows: map<string, seq<Entry>>, evidence: map<string, seq<Event>>,
    id: string, row: Entry, e: Event)
    requires AllRowsCarry(sha, rows, evidence)
    requires EvidenceTable.Linked(sha, Lookup(rows, id) + [row]) && Renders(row.input, id, e)
    ensures AllRowsCarry(sha, rows[id := Lookup(rows, id) + [row]], evidence[id := Lookup(evidence, id) + [e]])
  {
    hide Renders, EvidenceTable.Linked;
    var rows', evidence' := rows[id := Lookup(rows, id) + [row]], evidence[id := Lookup(evidence, id) + [e]];
    forall other ensures RowsCarry(sha, Lookup(rows', other), other, Lookup(evidence', other)) {
      assert RowsCarry(sha, Lookup(rows, other), other, Lookup(evidence, other));
    }
  }

  // ---------- reading the status back from the rows ----------

  /** Length and first letter tell the status names apart. */
  function Mark(s: Status): (int, int) {
    match s
    case Created => (7, 'C' as int)
    case Validating => (10, 'V' as int)
    case PolicyEvaluation => (17, 'P' as int)
    case Preparing => (9, 'P' as int)
    case AwaitingApproval => (17, 'A' as int)
    case Ready => (5, 'R' as int)
    case Executing => (9, 'E' as int)
    case Verifying => (9, 'V' as int)
    case Committing => (10, 'C' as int)
    case Verified => (8, 'V' as int)
    case VerifiedAfterRetry => (20, 'V' as int)
    case RejectedByPolicy => (18, 'R' as int)
    case HaltedBeforeEffect => (20, 'H' as int)
    case UnknownEffect => (14, 'U' as int)
    case PartiallyCommitted => (19, 'P' as int)
    case Compensating => (12, 'C' as int)
    case Compensated => (11, 'C' as int)
    case ReconciliationRequired => (23, 'R' as int)
    case FailedInfrastructure => (21, 'F' as int)
    case Cancelled => (9, 'C' as int)
  }

  lemma NameMark(s: Status)
    ensures StatusName(s) != [] && (|StatusName(s)|, StatusName(s)[0]) == Mark(s)
  {}

  lemma MarkInjective(s: Status, t: Status)
    ensures Mark(s) == Mark(t) ==> s == t
  {}

  lemma StatusNameInjective(s: Status, t: Status)
    ensures StatusName(s) == StatusName(t) ==> s == t
  {
    NameMark(s);
    NameMark(t);
    MarkInjective(s, t);
  }

  /** Two events a replay cannot tell apart. */
  predicate ReadAlike(e: Event, f: Event) {
    && (IsReportEvent(e) <==> IsReportEvent(f))
    && (IsReportEvent(e) ==> From(e) == From(f) && To(e) == To(f))
  }

  lemma TypeLengths(e: Event)
    ensures e.ActionFinished? || e.EffectObserved? <==> |TypeOf(e)| == 15
    ensures e.VerificationDecided? <==> |TypeOf(e)| == 32
  {}

  lemma HeadMembersAreTexts(e: Event, k: nat)
    requires k < |HeadMembers(e)|
    ensures HeadMembers(e)[k].value.Str?
  {
    hide Ascii, StatusName, Units, OutcomeName, ResultName;
  }

  lemma HeadText(x: Input, id: string, e: Event, y: Input, jd: string, f: Event, k: nat)
    requires Renders(x, id, e) && Renders(y, jd, f) && Same(Obj(x.payload), Obj(y.payload))
    requires k < |HeadMembers(e)| && k < |HeadMembers(f)| && HeadMembers(e)[k].key == HeadMembers(f)[k].key
    ensures HeadMembers(e)[k].value == HeadMembers(f)[k].value
  {
    hide Same, HeadMembers, DistinctKeys, TypeOf, Units;
    HeadMembersAreTexts(e, k);
    assert x.payload[k] == HeadMembers(e)[k] && y.payload[k] == HeadMembers(f)[k];
    EvidenceTable.SameByPosition(x.payload, y.payload, k);
    EvidenceTable.SameScalars(x.payload[k].value, y.payload[k].value);
  }

  lemma RenderedAlikeReadAlike(x: Input, id: string, e: Event, y: Input, jd: string, f: Event)
    requires Renders(x, id, e) && Renders(y, jd, f) && x.kind == y.kind && Same(Obj(x.payload), Obj(y.payload))
    ensures ReadAlike(e, f)
  {
    TypeLengths(e);
    TypeLengths(f);
    hide Same, Renders, Ascii, StatusName;
    SameTypes(x, id, e, y, jd, f);
    if IsReportEvent(e) {
      HeadText(x, id, e, y, jd, f, 0);
      StatusNameInjective(From(e), From(f));
      StatusNameInjective(To(e), To(f));
      if e.Moved? { HeadText(x, id, e, y, jd, f, 1); }
    }
  }

  lemma SameTypes(x: Input, id: string, e: Event, y: Input, jd: string, f: Event)
    requires Renders(x, id, e) && Renders(y, jd, f) && x.kind == y.kind
    ensures TypeOf(e) == TypeOf(f)
  {}

  lemma ReplayReadAlike(es: seq<Event>, e: Event, fs: seq<Event>, f: Event)
    requires Replay(es) == Replay(fs) && ReadAlike(e, f)
    ensures Replay(es + [e]) == Replay(fs + [f])
  {
    assert (es + [e])[..|es|] == es && (fs + [f])[..|fs|] == fs;
  }

  lemma {:induction false} SameRowsReplayAlike(
    a: seq<Entry>, id: string, es: seq<Event>, b: seq<Entry>, jd: string, fs: seq<Event>)
    requires RenderedInOrder(a, id, es) && RenderedInOrder(b, jd, fs) && SameChain(a, b)
    ensures Replay(es) == Replay(fs)
    decreases |a|
  {
    hide Renders, Replay, Same, ReadAlike;
    if a != [] {
      var n := |a| - 1;
      assert SameEntry(a[n], b[n]);
      SameRowsReplayAlike(a[..n], id, es[..n], b[..n], jd, fs[..n]);
      RenderedAlikeReadAlike(a[n].input, id, es[n], b[n].input, jd, fs[n]);
      ReplayReadAlike(es[..n], es[n], fs[..n], fs[n]);
      assert es == es[..n] + [es[n]] && fs == fs[..n] + [fs[n]];
    } else {
      assert es == fs;
    }
  }

  lemma RenderedRowsArePlain(rows: seq<Entry>, id: string, events: seq<Event>)
    requires RenderedInOrder(rows, id, events)
    ensures forall e | e in rows :: PlainEntry(e)
  {
    hide HeadMembers, TypeOf, Units, WellFormed;
  }

  /** Rows with one last digest replay to one status, or they exhibit a collision of the digest. */
  lemma LastRowTellsReplay(
    sha: Text -> Text, a: seq<Entry>, id: string, es: seq<Event>, b: seq<Entry>, jd: string, fs: seq<Event>)
    requires forall t :: sha(t) != GENESIS
    requires RowsCarry(sha, a, id, es) && RowsCarry(sha, b, jd, fs) && HeadHash(a) == HeadHash(b)
    ensures Replay(es) == Replay(fs) || EvidenceTable.ExhibitsShaCollision(sha, a, b)
  {
    hide RenderedInOrder, Replay, SameChain, EvidenceTable.Linked, EvidenceTable.ExhibitsShaCollision, PlainEntry;
    RenderedRowsArePlain(a, id, es);
    RenderedRowsArePlain(b, jd, fs);
    EvidenceTable.LastHashDeterminesRows(sha, a, b);
    if SameChain(a, b) { SameRowsReplayAlike(a, id, es, b, jd, fs); }
  }
}
