/** The hash-chained evidence ledger: appending, verifying, and what an accepted head hash pins down. */
module Evidence {
  import opened Wrappers
  import opened Utf16
  import opened Json
  import opened Canonical
  import opened Ledger
  import opened Hashing

  /** What the caller supplies; `actor` may be absent. */
  datatype Input = Input(
    transactionId: Text, kind: Text, timestamp: Text, actor: Option<Text>, payload: seq<Member<Json>>)

  datatype Entry = Entry(sequence: int, input: Input, previousHash: Text, hash: Text)

  /** The code units of an ASCII literal; any other character would become a question mark. */
  function Ascii(s: string): Text {
    seq(|s|, i requires 0 <= i < |s| => if s[i] < 128 as char then s[i] as int else 0x3F)
  }

  const GENESIS: Text := Ascii("GENESIS")
  const SEQUENCE: Text := Ascii("sequence")
  const TRANSACTION_ID: Text := Ascii("transactionId")
  const TYPE: Text := Ascii("type")
  const TIMESTAMP: Text := Ascii("timestamp")
  const ACTOR: Text := Ascii("actor")
  const PAYLOAD: Text := Ascii("payload")
  const PREVIOUS_HASH: Text := Ascii("previousHash")

  function Digits(n: nat): Text {
    if n < 10 then [0x30 + n] else Digits(n / 10) + [0x30 + n % 10]
  }

  function Decimal(n: int): Text { if n < 0 then [0x2D] + Digits(-n) else Digits(n) }

  function InputFields(x: Input): seq<Member<Json>> {
    [Member(TRANSACTION_ID, Str(x.transactionId)), Member(TYPE, Str(x.kind)), Member(TIMESTAMP, Str(x.timestamp))]
    + (if x.actor.Some? then [Member(ACTOR, Str(x.actor.value))] else [])
    + [Member(PAYLOAD, Obj(x.payload))]
  }

  /** The hashed body of an entry in the order the core writes it: { sequence, ...entry, previousHash }. */
  function Body(sequence: int, x: Input, previousHash: Text): Json {
    Obj([Member(SEQUENCE, Num(Decimal(sequence)))] + InputFields(x) + [Member(PREVIOUS_HASH, Str(previousHash))])
  }

  function BodyText(sequence: int, x: Input, previousHash: Text): Text {
    CanonicalJson(Body(sequence, x, previousHash))
  }

  function EntryText(e: Entry): Text { BodyText(e.sequence, e.input, e.previousHash) }

  function HeadHash(chain: seq<Entry>): Text { if chain == [] then GENESIS else chain[|chain| - 1].hash }

  /** appendEvidence of packages/core: the entry that goes after the chain. */
  function AppendEvidence(chain: seq<Entry>, x: Input): Entry {
    Entry(|chain| + 1, x, HeadHash(chain), StableHash(BodyText(|chain| + 1, x, HeadHash(chain))))
  }

  predicate EntryHolds(chain: seq<Entry>, i: nat)
    requires i < |chain|
  {
    && chain[i].sequence == i + 1
    && chain[i].previousHash == HeadHash(chain[..i])
    && chain[i].hash == StableHash(EntryText(chain[i]))
  }

  predicate ValidChain(chain: seq<Entry>) { forall i | 0 <= i < |chain| :: EntryHolds(chain, i) }

  /** The verifying loop accepts exactly the valid chains. */
  method VerifyEvidenceChain(chain: seq<Entry>) returns (ok: bool)
    ensures ok <==> ValidChain(chain)
  {
    hide StableHash, BodyText;
    var previousHash := GENESIS;
    for i := 0 to |chain|
      invariant previousHash == HeadHash(chain[..i])
      invariant forall j | 0 <= j < i :: EntryHolds(chain, j)
    {
      var entry := chain[i];
      if entry.sequence != i + 1 || entry.previousHash != previousHash {
        assert !EntryHolds(chain, i);
        return false;
      }
      var digest := ComputeStableHash(EntryText(entry));
      if digest != entry.hash {
        assert !EntryHolds(chain, i);
        return false;
      }
      previousHash := entry.hash;
    }
    return true;
  }

  // ---------- a chain is valid exactly when appending built it ----------

  function Built(xs: seq<Input>): seq<Entry>
    decreases |xs|
  {
    if xs == [] then []
    else
      var before := Built(xs[..|xs| - 1]);
      before + [AppendEvidence(before, xs[|xs| - 1])]
  }

  function Inputs(chain: seq<Entry>): (xs: seq<Input>)
    ensures |xs| == |chain| && forall i :: 0 <= i < |xs| ==> xs[i] == chain[i].input
  {
    seq(|chain|, i requires 0 <= i < |chain| => chain[i].input)
  }

  lemma PrefixHolds(chain: seq<Entry>, e: Entry)
    ensures ValidChain(chain + [e]) <==> ValidChain(chain) && e == AppendEvidence(chain, e.input)
  {
    hide StableHash, BodyText;
    var longer := chain + [e];
    assert longer[..|chain|] == chain;
    forall i | 0 <= i < |chain| ensures EntryHolds(longer, i) <==> EntryHolds(chain, i) {
      assert longer[..i] == chain[..i] && longer[i] == chain[i];
    }
    assert EntryHolds(longer, |chain|) <==> e == AppendEvidence(chain, e.input);
    assert ValidChain(longer) <==> ValidChain(chain) && EntryHolds(longer, |chain|);
  }

  /** Appending keeps a chain valid, and a valid chain is the result of appending its inputs in order. */
  lemma {:induction false} ValidExactlyWhenBuilt(chain: seq<Entry>)
    ensures ValidChain(chain) <==> chain == Built(Inputs(chain))
    decreases |chain|
  {
    hide StableHash, BodyText;
    if chain != [] {
      var before, e := chain[..|chain| - 1], chain[|chain| - 1];
      assert chain == before + [e];
      PrefixHolds(before, e);
      ValidExactlyWhenBuilt(before);
      assert Inputs(chain)[..|chain| - 1] == Inputs(before);
      var built := Built(Inputs(before));
      assert Built(Inputs(chain)) == built + [AppendEvidence(built, e.input)];
      if chain == Built(Inputs(chain)) {
        assert before == (built + [AppendEvidence(built, e.input)])[..|before|] == built[..|before|];
        assert |built| == |before|;
      }
    }
  }

  // ---------- the body text pins down the entry ----------

  /** The same entry up to the order of object keys inside its payload. */
  ghost predicate SameEntry(e: Entry, f: Entry) {
    && e.sequence == f.sequence && e.previousHash == f.previousHash && e.hash == f.hash
    && e.input.(payload := []) == f.input.(payload := [])
    && Same(Obj(e.input.payload), Obj(f.input.payload))
  }

  ghost predicate PlainEntry(e: Entry) { WellFormed(Obj(e.input.payload)) }

  lemma {:induction false} DigitsFacts(n: nat)
    ensures Digits(n) != [] && (forall i :: 0 <= i < |Digits(n)| ==> IsDigit(Digits(n)[i]))
    ensures DecimalValue(Digits(n)) == n
  {
    if n >= 10 {
      DigitsFacts(n / 10);
      assert Digits(n)[..|Digits(n)| - 1] == Digits(n / 10);
    } else {
      assert Digits(n)[..0] == [];
    }
  }

  lemma DecimalFacts(n: int)
    ensures IsNumberToken(Decimal(n))
  {
    DigitsFacts(if n < 0 then -n else n);
  }

  lemma DecimalInjective(m: int, n: int)
    ensures Decimal(m) == Decimal(n) ==> m == n
  {
    DigitsFacts(if m < 0 then -m else m);
    DigitsFacts(if n < 0 then -n else n);
    assert m < 0 ==> Decimal(m)[1..] == Digits(-m) && Decimal(m)[0] == 0x2D;
    assert n < 0 ==> Decimal(n)[1..] == Digits(-n) && Decimal(n)[0] == 0x2D;
    assert m >= 0 ==> IsDigit(Decimal(m)[0]);
    assert n >= 0 ==> IsDigit(Decimal(n)[0]);
  }

  /** The key lengths 8, 13, 4, 9, 5, 7 and 12 tell the fields apart. */
  lemma FieldKeys(n: int, x: Input, h: Text)
    ensures var ms := Body(n, x, h).members;
      && DistinctKeys(ms)
      && (forall j | 0 <= j < |ms| :: ms[j].key == SEQUENCE ==> ms[j].value == Num(Decimal(n)))
      && (forall j | 0 <= j < |ms| :: ms[j].key == TRANSACTION_ID ==> ms[j].value == Str(x.transactionId))
      && (forall j | 0 <= j < |ms| :: ms[j].key == TYPE ==> ms[j].value == Str(x.kind))
      && (forall j | 0 <= j < |ms| :: ms[j].key == TIMESTAMP ==> ms[j].value == Str(x.timestamp))
      && (forall j | 0 <= j < |ms| :: ms[j].key == ACTOR ==> x.actor.Some? && ms[j].value == Str(x.actor.value))
      && (forall j | 0 <= j < |ms| :: ms[j].key == PAYLOAD ==> ms[j].value == Obj(x.payload))
      && (forall j | 0 <= j < |ms| :: ms[j].key == PREVIOUS_HASH ==> ms[j].value == Str(h))
  {
    hide Decimal;
    assert |SEQUENCE| == 8 && |TRANSACTION_ID| == 13 && |TYPE| == 4 && |TIMESTAMP| == 9;
    assert |ACTOR| == 5 && |PAYLOAD| == 7 && |PREVIOUS_HASH| == 12;
    hide Ascii;
  }

  lemma BodyWellFormed(n: int, x: Input, h: Text)
    requires WellFormed(Obj(x.payload))
    ensures WellFormed(Body(n, x, h))
  {
    FieldKeys(n, x, h);
    DecimalFacts(n);
  }

  lemma PartnerValue(m: Member<Json>, ns: seq<Member<Json>>, v: Json)
    requires HasPartner(m, ns) && forall j | 0 <= j < |ns| :: ns[j].key == m.key ==> ns[j].value == v
    ensures Same(m.value, v) && (m.value.Str? || m.value.Num? ==> m.value == v)
  {}

  ghost predicate MembersPartnered(ms: seq<Member<Json>>, ns: seq<Member<Json>>) {
    (forall j | 0 <= j < |ms| :: HasPartner(ms[j], ns)) && (forall j | 0 <= j < |ns| :: IsPartner(ms, ns[j]))
  }

  lemma SameBodyMeansSameFields(n: int, x: Input, h: Text, m: int, y: Input, g: Text)
    requires MembersPartnered(Body(n, x, h).members, Body(m, y, g).members)
    ensures n == m && h == g && x.(payload := []) == y.(payload := []) && Same(Obj(x.payload), Obj(y.payload))
  {
    var ms, ns := Body(n, x, h).members, Body(m, y, g).members;
    FieldKeys(m, y, g);
    hide Ascii, Same, Decimal;
    var last := |ms| - 1;
    PartnerValue(ms[0], ns, Num(Decimal(m)));
    DecimalInjective(n, m);
    PartnerValue(ms[1], ns, Str(y.transactionId));
    PartnerValue(ms[2], ns, Str(y.kind));
    PartnerValue(ms[3], ns, Str(y.timestamp));
    PartnerValue(ms[last], ns, Str(g));
    PartnerValue(ms[last - 1], ns, Obj(y.payload));
    SameActor(n, x, h, m, y, g);
  }

  lemma SameActor(n: int, x: Input, h: Text, m: int, y: Input, g: Text)
    requires MembersPartnered(Body(n, x, h).members, Body(m, y, g).members)
    ensures x.actor == y.actor
  {
    var ms, ns := Body(n, x, h).members, Body(m, y, g).members;
    FieldKeys(n, x, h);
    FieldKeys(m, y, g);
    hide Ascii;
    if x.actor.Some? {
      assert ms[4].key == ACTOR && HasPartner(ms[4], ns);
      var j :| 0 <= j < |ns| && ns[j].key == ACTOR && Same(ms[4].value, ns[j].value);
    }
    if y.actor.Some? {
      assert ns[4].key == ACTOR && IsPartner(ms, ns[4]);
      var i :| 0 <= i < |ms| && ns[4].key == ms[i].key && Same(ms[i].value, ns[4].value);
    }
  }

  // ---------- the head hash pins down the chain ----------

  ghost predicate SameChain(a: seq<Entry>, b: seq<Entry>) {
    |a| == |b| && forall i | 0 <= i < |a| :: SameEntry(a[i], b[i])
  }

  /** Two different body texts, one from each chain, with one digest. */
  ghost predicate ExhibitsCollision(a: seq<Entry>, b: seq<Entry>) {
    exists i, j :: 0 <= i < |a| && 0 <= j < |b|
      && EntryText(a[i]) != EntryText(b[j]) && StableHash(EntryText(a[i])) == StableHash(EntryText(b[j]))
  }

  lemma DigestIsNotGenesis(t: Text)
    ensures StableHash(t) != GENESIS
  {
    DigestShape(t);
    assert |GENESIS| == 7;
  }

  lemma CollisionExtends(a: seq<Entry>, e: Entry, b: seq<Entry>, f: Entry)
    requires ExhibitsCollision(a, b)
    ensures ExhibitsCollision(a + [e], b + [f])
  {
    hide StableHash, EntryText;
    var i, j :| 0 <= i < |a| && 0 <= j < |b|
      && EntryText(a[i]) != EntryText(b[j]) && StableHash(EntryText(a[i])) == StableHash(EntryText(b[j]));
    assert (a + [e])[i] == a[i] && (b + [f])[j] == b[j];
  }

  lemma LastEntriesCollide(a: seq<Entry>, e: Entry, b: seq<Entry>, f: Entry)
    requires EntryText(e) != EntryText(f) && StableHash(EntryText(e)) == StableHash(EntryText(f))
    ensures ExhibitsCollision(a + [e], b + [f])
  {
    hide StableHash, EntryText;
    assert (a + [e])[|a|] == e && (b + [f])[|b|] == f;
  }

  lemma HeadIsGenesisExactlyWhenEmpty(chain: seq<Entry>)
    requires ValidChain(chain)
    ensures HeadHash(chain) == Ascii("GENESIS") <==> chain == []
  {
    hide StableHash, EntryText;
    if chain != [] {
      assert EntryHolds(chain, |chain| - 1);
      DigestIsNotGenesis(EntryText(chain[|chain| - 1]));
    }
  }

  /** Accepted chains with one head hash are the same chain, or they exhibit a collision of the digest. */
  lemma {:induction false} HeadHashDeterminesChain(a: seq<Entry>, b: seq<Entry>)
    requires ValidChain(a) && ValidChain(b) && HeadHash(a) == HeadHash(b)
    requires (forall i | 0 <= i < |a| :: PlainEntry(a[i])) && forall i | 0 <= i < |b| :: PlainEntry(b[i])
    ensures SameChain(a, b) || ExhibitsCollision(a, b)
    decreases |a|
  {
    hide StableHash, BodyText, EntryHolds;
    HeadIsGenesisExactlyWhenEmpty(a);
    HeadIsGenesisExactlyWhenEmpty(b);
    if a != [] && b != [] {
      var a', e := a[..|a| - 1], a[|a| - 1];
      var b', f := b[..|b| - 1], b[|b| - 1];
      assert a == a' + [e] && b == b' + [f];
      PrefixHolds(a', e);
      PrefixHolds(b', f);
      if EntryText(e) != EntryText(f) {
        LastEntriesCollide(a', e, b', f);
      } else {
        EqualBodyTexts(e, f);
        HeadHashDeterminesChain(a', b');
        if ExhibitsCollision(a', b') {
          CollisionExtends(a', e, b', f);
        }
      }
    }
  }

  lemma EqualBodyTexts(e: Entry, f: Entry)
    requires PlainEntry(e) && PlainEntry(f) && EntryText(e) == EntryText(f) && e.hash == f.hash
    ensures SameEntry(e, f)
  {
    BodyWellFormed(e.sequence, e.input, e.previousHash);
    BodyWellFormed(f.sequence, f.input, f.previousHash);
    CanonicalTextDeterminesValue(
      Body(e.sequence, e.input, e.previousHash), Body(f.sequence, f.input, f.previousHash));
    SameBodyMeansSameFields(e.sequence, e.input, e.previousHash, f.sequence, f.input, f.previousHash);
  }

  // ---------- the ledger package's own step ----------

  /** The body as packages/evidence writes it: { ...input, sequence, previousHash }. */
  function LedgerBody(sequence: int, x: Input, previousHash: Text): Json {
    Obj(InputFields(x) + [Member(SEQUENCE, Num(Decimal(sequence))), Member(PREVIOUS_HASH, Str(previousHash))])
  }

  /** buildEvidenceEntry, over any digest function in place of SHA-256. */
  function BuildEvidenceEntry(sha: Text -> Text, previous: Option<Entry>, x: Input): Entry {
    var sequence := (if previous.Some? then previous.value.sequence else 0) + 1;
    var previousHash := if previous.Some? then previous.value.hash else GENESIS;
    Entry(sequence, x, previousHash, sha(LedgerText(LedgerBody(sequence, x, previousHash))))
  }

  function LastEntry(chain: seq<Entry>): Option<Entry> {
    if chain == [] then None else Some(chain[|chain| - 1])
  }

  lemma SameFieldsInBothBodies(n: int, x: Input, h: Text)
    ensures var ms, ns := Body(n, x, h).members, LedgerBody(n, x, h).members;
      DistinctKeys(ms) && DistinctKeys(ns) && forall m :: m in ms <==> m in ns
  {
    FieldKeys(n, x, h);
    assert InputFields(x) == Body(n, x, h).members[1..|InputFields(x)| + 1];
  }

  lemma LedgerBodySorts(n: int, x: Input, h: Text)
    requires WellFormed(Obj(x.payload))
    ensures LedgerText(LedgerBody(n, x, h)) == LedgerText(Body(n, x, h))
  {
    SameFieldsInBothBodies(n, x, h);
    SameMemberSetSortsAlike(Body(n, x, h).members, LedgerBody(n, x, h).members);
    LedgerTextPrintsSorted(Body(n, x, h));
    LedgerTextPrintsSorted(LedgerBody(n, x, h));
  }

  lemma SameMemberSetSortsAlike(ms: seq<Member<Json>>, ns: seq<Member<Json>>)
    requires DistinctKeys(ms) && DistinctKeys(ns) && forall m :: m in ms <==> m in ns
    ensures SortValue(Obj(ms)) == SortValue(Obj(ns))
  {
    SameMembersSortAlike(ms, ns);
    SortMembersOfSort(ms);
    SortMembersOfSort(ns);
  }

  lemma FieldNamesAreNotIndices(k: Text)
    requires k in [SEQUENCE, TRANSACTION_ID, TYPE, TIMESTAMP, ACTOR, PAYLOAD, PREVIOUS_HASH]
    ensures !IsArrayIndex(k)
  {
    assert !IsDigit(k[0]);
  }

  lemma BodyOrdersAgree(n: int, x: Input, h: Text)
    ensures OrdersAgree(Body(n, x, h)) <==> OrdersAgree(Obj(x.payload))
  {
    var ms := Body(n, x, h).members;
    hide Ascii, IsArrayIndex;
    forall k | k in KeySet(ms) ensures !IsArrayIndex(k) {
      var m :| m in ms && m.key == k;
      FieldNamesAreNotIndices(k);
    }
    var p := |ms| - 2;
    assert ms[p].value == Obj(x.payload);
    assert forall i | 0 <= i < |ms| :: i != p ==> OrdersAgree(ms[i].value);
  }

  /**
    After a valid chain the two packages pick the same sequence number and previous hash, and they
    hash the same text exactly when no object in the payload has keys whose two orders differ.
   */
  lemma BothLedgersLinkAlike(sha: Text -> Text, chain: seq<Entry>, x: Input)
    requires ValidChain(chain) && WellFormed(Obj(x.payload))
    ensures var e, f := AppendEvidence(chain, x), BuildEvidenceEntry(sha, LastEntry(chain), x);
      && f.sequence == e.sequence && f.previousHash == e.previousHash
      && (LedgerText(LedgerBody(f.sequence, x, f.previousHash)) == EntryText(e) <==> OrdersAgree(Obj(x.payload)))
  {
    var e := AppendEvidence(chain, x);
    if chain != [] {
      assert EntryHolds(chain, |chain| - 1);
    }
    LedgerBodySorts(e.sequence, x, e.previousHash);
    BodyWellFormed(e.sequence, x, e.previousHash);
    CanonicalTextsAgreeExactly(Body(e.sequence, x, e.previousHash));
    BodyOrdersAgree(e.sequence, x, e.previousHash);
  }
}
