/**
  The persisted evidence rows of one transaction: each append reads the last row and links to it. The
  digest is an arbitrary function that never yields the text GENESIS.
 */
module EvidenceTable {
  import opened Utf16
  import opened Json
  import opened JsonParser
  import opened Canonical
  import opened Evidence

  /** The hashed body in the order the store writes it; a missing actor is written as null. */
  function RowBody(sequence: int, x: Input, previousHash: Text): Json {
    Obj([
      Member(SEQUENCE, Num(Decimal(sequence))), Member(TRANSACTION_ID, Str(x.transactionId)),
      Member(TYPE, Str(x.kind)), Member(TIMESTAMP, Str(x.timestamp)),
      Member(ACTOR, if x.actor.Some? then Str(x.actor.value) else Null),
      Member(PAYLOAD, Obj(x.payload)), Member(PREVIOUS_HASH, Str(previousHash))])
  }

  /** Plain JSON.stringify: object keys stay in own-property order. */
  function RowText(e: Entry): Text { Stringify(RowBody(e.sequence, e.input, e.previousHash)) }

  predicate RowHolds(sha: Text -> Text, rows: seq<Entry>, i: nat)
    requires i < |rows|
  {
    && rows[i].sequence == i + 1
    && rows[i].previousHash == HeadHash(rows[..i])
    && rows[i].hash == sha(RowText(rows[i]))
  }

  predicate Linked(sha: Text -> Text, rows: seq<Entry>) { forall i | 0 <= i < |rows| :: RowHolds(sha, rows, i) }

  lemma LinkedPrefix(sha: Text -> Text, rows: seq<Entry>, e: Entry)
    ensures Linked(sha, rows + [e]) <==>
      Linked(sha, rows) && e.sequence == |rows| + 1 && e.previousHash == HeadHash(rows) && e.hash == sha(RowText(e))
  {
    hide RowText;
    var longer := rows + [e];
    assert longer[..|rows|] == rows;
    forall i | 0 <= i < |rows| ensures RowHolds(sha, longer, i) <==> RowHolds(sha, rows, i) {
      assert longer[..i] == rows[..i] && longer[i] == rows[i];
    }
    assert Linked(sha, longer) <==> Linked(sha, rows) && RowHolds(sha, longer, |rows|);
  }

  /** appendEvidence of the store: sequence and link come from the last row, or are 1 and GENESIS. */
  method NextRow(sha: Text -> Text, rows: seq<Entry>, x: Input) returns (row: Entry)
    requires Linked(sha, rows)
    ensures Linked(sha, rows + [row]) && row.input == x
  {
    hide RowText;
    var sequence, previousHash := 1, GENESIS;
    if rows != [] {
      var last := rows[|rows| - 1];
      sequence, previousHash := last.sequence + 1, last.hash;
      assert RowHolds(sha, rows, |rows| - 1);
    }
    var unsigned := Entry(sequence, x, previousHash, []);
    row := unsigned.(hash := sha(RowText(unsigned)));
    assert RowText(row) == RowText(unsigned) by { TextIgnoresHash(unsigned, row.hash); }
    LinkedPrefix(sha, rows, row);
  }

  lemma TextIgnoresHash(e: Entry, hash: Text)
    ensures RowText(e.(hash := hash)) == RowText(e)
  {}

  // ---------- the last hash pins down the rows ----------

  lemma RowKeys(n: int, x: Input, h: Text)
    ensures DistinctKeys(RowBody(n, x, h).members)
  {
    var ms := RowBody(n, x, h).members;
    assert |SEQUENCE| == 8 && |TRANSACTION_ID| == 13 && |TYPE| == 4 && |TIMESTAMP| == 9;
    assert |ACTOR| == 5 && |PAYLOAD| == 7 && |PREVIOUS_HASH| == 12;
  }

  lemma RowBodyWellFormed(e: Entry)
    requires PlainEntry(e)
    ensures WellFormed(RowBody(e.sequence, e.input, e.previousHash))
  {
    RowKeys(e.sequence, e.input, e.previousHash);
    DecimalFacts(e.sequence);
    hide Decimal, IsNumberToken;
  }

  lemma SameHasPartner(ms: seq<Member<Json>>, ns: seq<Member<Json>>, i: nat)
    requires Same(Obj(ms), Obj(ns)) && i < |ms|
    ensures HasPartner(ms[i], ns)
  {
    hide HasPartner, IsPartner;
  }

  /** Same objects with the same keys in the same places have the same values. */
  lemma SameByPosition(ms: seq<Member<Json>>, ns: seq<Member<Json>>, i: nat)
    requires Same(Obj(ms), Obj(ns)) && DistinctKeys(ns) && i < |ms| && i < |ns| && ms[i].key == ns[i].key
    ensures Same(ms[i].value, ns[i].value)
  {
    hide Same;
    SameHasPartner(ms, ns, i);
    var j :| 0 <= j < |ns| && ns[j].key == ms[i].key && Same(ms[i].value, ns[j].value);
  }

  lemma EqualRowTexts(e: Entry, f: Entry)
    requires PlainEntry(e) && PlainEntry(f) && RowText(e) == RowText(f) && e.hash == f.hash
    ensures SameEntry(e, f)
  {
    var a, b := RowBody(e.sequence, e.input, e.previousHash), RowBody(f.sequence, f.input, f.previousHash);
    RowBodyWellFormed(e);
    RowBodyWellFormed(f);
    SameWhenStringified(a, b);
    RowKeys(f.sequence, f.input, f.previousHash);
    SameRowMeansSameFields(e, f);
  }

  lemma SameWhenStringified(a: Json, b: Json)
    requires WellFormed(a) && WellFormed(b) && Stringify(a) == Stringify(b)
    ensures Same(a, b)
  {
    hide Print, Enumerated, Same;
    EnumeratedKeepsWellFormed(a);
    EnumeratedKeepsWellFormed(b);
    PrintInjective(Enumerated(a), Enumerated(b));
    EnumeratedAlikeIsSame(a, b);
  }

  lemma SameRowMeansSameFields(e: Entry, f: Entry)
    requires Same(RowBody(e.sequence, e.input, e.previousHash), RowBody(f.sequence, f.input, f.previousHash))
    requires DistinctKeys(RowBody(f.sequence, f.input, f.previousHash).members) && e.hash == f.hash
    ensures SameEntry(e, f)
  {
    hide Same, DistinctKeys, Ascii, Decimal;
    var ms := RowBody(e.sequence, e.input, e.previousHash).members;
    var ns := RowBody(f.sequence, f.input, f.previousHash).members;
    SameByPosition(ms, ns, 5);
    forall i: nat | i < 7 && i != 5 ensures ms[i].value == ns[i].value {
      SameByPosition(ms, ns, i);
      SameScalars(ms[i].value, ns[i].value);
    }
    assert ms[0].value == ns[0].value && ms[1].value == ns[1].value && ms[2].value == ns[2].value;
    assert ms[3].value == ns[3].value && ms[4].value == ns[4].value && ms[6].value == ns[6].value;
    DecimalInjective(e.sequence, f.sequence);
  }

  lemma SameScalars(a: Json, b: Json)
    requires Same(a, b) && !a.Arr? && !a.Obj?
    ensures a == b
  {}

  /** Two different row texts, one from each table, with one digest. */
  ghost predicate ExhibitsShaCollision(sha: Text -> Text, a: seq<Entry>, b: seq<Entry>) {
    exists e, f | e in a && f in b :: RowText(e) != RowText(f) && sha(RowText(e)) == sha(RowText(f))
  }

  /** Linked rows with one last hash are the same rows, or they exhibit a collision of the digest. */
  lemma {:induction false} LastHashDeterminesRows(sha: Text -> Text, a: seq<Entry>, b: seq<Entry>)
    requires forall t :: sha(t) != GENESIS
    requires Linked(sha, a) && Linked(sha, b) && HeadHash(a) == HeadHash(b)
    requires (forall e | e in a :: PlainEntry(e)) && forall f | f in b :: PlainEntry(f)
    ensures SameChain(a, b) || ExhibitsShaCollision(sha, a, b)
    decreases |a|
  {
    hide RowText, PlainEntry, SameEntry, RowHolds, Linked;
    LinkedHead(sha, a);
    LinkedHead(sha, b);
    if a != [] && b != [] {
      var a', e := a[..|a| - 1], a[|a| - 1];
      var b', f := b[..|b| - 1], b[|b| - 1];
      assert a == a' + [e] && b == b' + [f];
      LinkedPrefix(sha, a', e);
      LinkedPrefix(sha, b', f);
      if RowText(e) == RowText(f) {
        EqualRowTexts(e, f);
        LastHashDeterminesRows(sha, a', b');
      } else {
        assert e in a && f in b;
      }
    }
  }

  lemma LinkedHead(sha: Text -> Text, rows: seq<Entry>)
    requires Linked(sha, rows)
    ensures rows != [] ==> HeadHash(rows) == sha(RowText(rows[|rows| - 1]))
  {
    hide RowText;
    assert rows != [] ==> RowHolds(sha, rows, |rows| - 1);
  }
}
