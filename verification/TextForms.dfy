/** The hashed texts written out: which names stand where, and how the values between them are printed. */
module TextForms {
  import opened Utf16
  import opened Json
  import opened Canonical
  import opened CanonicalForm
  import opened Ledger
  import opened Evidence
  import opened EvidenceTable
  import CoreRuntime
  import Hashing

  /** A name that prints as itself and is no array index. */
  predicate PlainName(name: string) {
    && name != "" && (forall c | c in name :: ' ' <= c <= '~' && c != '"' && c != '\\')
    && !('0' <= name[0] <= '9')
  }

  /** "name":text,"name":text and so on. */
  function Fields(fs: seq<(string, Text)>): Text {
    if fs == [] then []
    else
      [0x22] + Ascii(fs[0].0) + [0x22, 0x3A] + fs[0].1 + (if |fs| == 1 then [] else [0x2C] + Fields(fs[1..]))
  }

  function Braced(fs: seq<(string, Text)>): Text { [0x7B] + Fields(fs) + [0x7D] }

  // ---------- printing members is writing fields ----------

  predicate PlainUnit(c: CodeUnit) { 0x20 <= c < 0x7F && c != QUOTE && c != BACKSLASH }

  lemma PlainUnitStays(c: CodeUnit)
    requires PlainUnit(c)
    ensures EscapeUnit(c) == [c] && !IsHighSurrogate(c)
  {}

  lemma {:induction false} PlainIsUnescaped(s: Text)
    requires forall c | c in s :: PlainUnit(c)
    ensures Escaped(s) == s
  {
    hide EscapeUnit, PlainUnit, IsHighSurrogate, IsLowSurrogate;
    if s != [] {
      assert s == [s[0]] + s[1..];
      assert s[0] in s && forall c | c in s[1..] :: c in s;
      PlainUnitStays(s[0]);
      PlainIsUnescaped(s[1..]);
    }
  }

  lemma PlainNameFacts(name: string)
    requires PlainName(name)
    ensures Quoted(Ascii(name)) == [0x22] + Ascii(name) + [0x22] && !IsArrayIndex(Ascii(name))
  {
    var t := Ascii(name);
    forall c | c in t ensures PlainUnit(c) {
      var i :| 0 <= i < |t| && t[i] == c;
      assert name[i] in name;
    }
    PlainIsUnescaped(t);
    assert name[0] in name;
    assert !IsDigit(t[0]);
  }

  /** The members print as these fields. */
  ghost predicate PrintAs(ms: seq<Member<Json>>, fs: seq<(string, Text)>) {
    && |ms| == |fs|
    && forall i | 0 <= i < |ms| ::
         PlainName(fs[i].0) && ms[i].key == Ascii(fs[i].0) && Print(ms[i].value) == fs[i].1
  }

  lemma {:induction false} MembersPrintFields(ms: seq<Member<Json>>, fs: seq<(string, Text)>)
    requires PrintAs(ms, fs)
    ensures Join(PrintMembers(ms)) == Fields(fs)
    decreases |ms|
  {
    hide PlainName, Ascii, Quoted, Print;
    if ms != [] {
      PlainNameFacts(fs[0].0);
      MembersPrintFields(ms[1..], fs[1..]);
      var texts := PrintMembers(ms);
      assert texts[0] == [0x22] + Ascii(fs[0].0) + [0x22, 0x3A] + fs[0].1;
      assert texts[1..] == PrintMembers(ms[1..]);
    }
  }

  lemma ObjectPrintsFields(ms: seq<Member<Json>>, fs: seq<(string, Text)>)
    requires PrintAs(ms, fs)
    ensures Print(Obj(ms)) == Braced(fs)
  {
    MembersPrintFields(ms, fs);
  }

  // ---------- the canonical form of an object ----------

  /** The value that canonicalJson prints. */
  function FormOf(v: Json): Json { Enumerated(SortValue(v)) }

  lemma FormFacts(v: Json)
    requires WellFormed(v)
    ensures WellFormed(FormOf(v)) && Same(v, FormOf(v)) && InPrintOrder(FormOf(v))
    ensures Print(FormOf(v)) == CanonicalJson(v)
  {
    hide Same, InPrintOrder;
    SortKeepsWellFormed(v);
    EnumeratedKeepsWellFormed(SortValue(v));
    SortedIsAscending(v);
    EnumeratedInPrintOrder(SortValue(v));
    SortForgetsOwnOrder(SortValue(v));
    SortValueIdempotent(v);
    SortedAlikeIsSame(v, FormOf(v));
  }

  /** Names in ascending order, each before the next. */
  ghost predicate NamesAscend(ms: seq<Member<Json>>) {
    forall i | 0 < i < |ms| :: KeyBefore(ms[i - 1].key, ms[i].key)
  }

  lemma {:induction false} AscendingPair(ms: seq<Member<Json>>, i: nat, j: nat)
    requires NamesAscend(ms) && i < j < |ms|
    ensures KeyBefore(ms[i].key, ms[j].key)
    decreases j
  {
    hide KeyBefore;
    if i < j - 1 {
      AscendingPair(ms, i, j - 1);
      KeyBeforeIsStrict(ms[i].key, ms[j - 1].key, ms[j].key);
    }
  }

  /** The same names over the canonical forms of the values. */
  function Formed(ns: seq<Member<Json>>): (us: seq<Member<Json>>)
    ensures |us| == |ns|
    ensures forall i | 0 <= i < |ns| :: us[i] == Member(ns[i].key, FormOf(ns[i].value))
  {
    seq(|ns|, i requires 0 <= i < |ns| => Member(ns[i].key, FormOf(ns[i].value)))
  }

  lemma FormedFacts(ns: seq<Member<Json>>)
    requires WellFormed(Obj(ns)) && NamesAscend(ns)
    ensures WellFormed(Obj(Formed(ns))) && Same(Obj(ns), Obj(Formed(ns))) && InPrintOrder(Obj(Formed(ns)))
  {
    hide FormOf, KeyBefore, NamesAscend, IsNumberToken, Same;
    var us := Formed(ns);
    forall i | 0 <= i < |ns| { FormFacts(ns[i].value); }
    forall i, j | 0 <= i < j < |us| ensures KeyBefore(us[i].key, us[j].key) { AscendingPair(ns, i, j); }
    FormedIsSame(ns);
  }

  /** The members by name, each with the canonical text of its value. */
  ghost predicate NamedTexts(ns: seq<Member<Json>>, fs: seq<(string, Text)>) {
    && |fs| == |ns|
    && forall i | 0 <= i < |ns| ::
         PlainName(fs[i].0) && ns[i].key == Ascii(fs[i].0) && CanonicalJson(ns[i].value) == fs[i].1
  }

  lemma FormedIsSame(ns: seq<Member<Json>>)
    requires forall i | 0 <= i < |ns| :: Same(ns[i].value, FormOf(ns[i].value))
    ensures Same(Obj(ns), Obj(Formed(ns)))
  {
    hide FormOf;
    var us := Formed(ns);
    forall i | 0 <= i < |ns| ensures HasPartner(ns[i], us) && IsPartner(ns, us[i]) {
      assert us[i].key == ns[i].key && Same(ns[i].value, us[i].value);
    }
  }

  /** An object's canonical text lists its members by name, each with the canonical text of its value. */
  lemma ObjectText(ms: seq<Member<Json>>, ns: seq<Member<Json>>, fs: seq<(string, Text)>)
    requires WellFormed(Obj(ms)) && WellFormed(Obj(ns)) && NamesAscend(ns) && forall m :: m in ms <==> m in ns
    requires NamedTexts(ns, fs)
    ensures CanonicalJson(Obj(ms)) == Braced(fs)
  {
    SameMemberSetSortsAlike(ms, ns);
    assert CanonicalJson(Obj(ms)) == CanonicalJson(Obj(ns));
    FormedFacts(ns);
    CanonicalTextExactly(Obj(ns), Obj(Formed(ns)));
    hide FormOf, CanonicalJson, NamesAscend, InPrintOrder, Same, Ascii, PlainName, Print, Braced;
    forall i | 0 <= i < |ns| ensures Print(Formed(ns)[i].value) == fs[i].1 {
      assert WellFormed(ns[i].value);
      FormFacts(ns[i].value);
    }
    ObjectPrintsFields(Formed(ns), fs);
  }

  // ---------- the hashed texts ----------

  lemma ScalarText(v: Json)
    requires !v.Arr? && !v.Obj?
    ensures CanonicalJson(v) == Print(v)
  {}

  function ProposalFields(contractHash: Text, input: Json): seq<(string, Text)> {
    [("contract", Quoted(contractHash)), ("input", CanonicalJson(input))]
  }

  lemma ProposalNames()
    ensures PlainName("contract") && PlainName("input") && KeyBefore(Ascii("contract"), Ascii("input"))
  {
    hide KeyBefore, Ascii;
    FirstUnitsAscend("contract", "input");
  }

  lemma ProposalTexts(contractHash: Text, input: Json)
    ensures var ms := CoreRuntime.ProposalBody(contractHash, input).members;
      NamedTexts(ms, ProposalFields(contractHash, input)) && NamesAscend(ms)
  {
    ProposalNames();
    ScalarText(Str(contractHash));
    hide CanonicalJson, Quoted, PlainName, KeyBefore, Ascii;
  }

  /** The text an approval is bound to. */
  lemma ProposalText(contractHash: Text, input: Json)
    requires WellFormed(input)
    ensures CanonicalJson(CoreRuntime.ProposalBody(contractHash, input)) == Braced(ProposalFields(contractHash, input))
  {
    var ms := CoreRuntime.ProposalBody(contractHash, input).members;
    ProposalTexts(contractHash, input);
    AscendingIsDistinct(ms);
    hide CanonicalJson, Ascii, NamesAscend, NamedTexts, DistinctKeys, ProposalFields, Braced;
    ObjectText(ms, ms, ProposalFields(contractHash, input));
  }

  lemma FirstUnitsAscend(a: string, b: string)
    requires PlainName(a) && PlainName(b) && a[0] < b[0]
    ensures KeyBefore(Ascii(a), Ascii(b))
  {
    PlainNameFacts(a);
    PlainNameFacts(b);
    assert a[0] in a && b[0] in b;
    assert PartsAt(Ascii(a), Ascii(b), 0);
  }

  lemma SecondUnitsAscend(a: string, b: string)
    requires PlainName(a) && PlainName(b) && |a| > 1 && |b| > 1 && a[0] == b[0] && a[1] < b[1]
    ensures KeyBefore(Ascii(a), Ascii(b))
  {
    PlainNameFacts(a);
    PlainNameFacts(b);
    assert a[1] in a && b[1] in b;
    assert PartsAt(Ascii(a), Ascii(b), 1);
  }

  lemma EntryNamesAscend()
    ensures KeyBefore(ACTOR, PAYLOAD) && KeyBefore(PAYLOAD, PREVIOUS_HASH) && KeyBefore(PREVIOUS_HASH, SEQUENCE)
    ensures KeyBefore(SEQUENCE, TIMESTAMP) && KeyBefore(TIMESTAMP, TRANSACTION_ID) && KeyBefore(TRANSACTION_ID, TYPE)
  {
    hide KeyBefore;
    FirstUnitsAscend("actor", "payload");
    SecondUnitsAscend("payload", "previousHash");
    FirstUnitsAscend("previousHash", "sequence");
    FirstUnitsAscend("sequence", "timestamp");
    SecondUnitsAscend("timestamp", "transactionId");
    SecondUnitsAscend("transactionId", "type");
  }

  /** The members of an entry's body, by name. */
  function ByName(n: int, x: Input, h: Text): seq<Member<Json>> {
    (if x.actor.Some? then [Member(ACTOR, Str(x.actor.value))] else [])
    + [Member(PAYLOAD, Obj(x.payload)), Member(PREVIOUS_HASH, Str(h)), Member(SEQUENCE, Num(Decimal(n))),
       Member(TIMESTAMP, Str(x.timestamp)), Member(TRANSACTION_ID, Str(x.transactionId)), Member(TYPE, Str(x.kind))]
  }

  lemma SameMembersByName(n: int, x: Input, h: Text)
    ensures forall m :: m in Body(n, x, h).members <==> m in ByName(n, x, h)
  {
    hide Ascii, Decimal;
  }

  lemma AscendingIsDistinct(ns: seq<Member<Json>>)
    requires NamesAscend(ns)
    ensures DistinctKeys(ns)
  {
    hide KeyBefore;
    forall i, j | 0 <= i < j < |ns| ensures ns[i].key != ns[j].key {
      AscendingPair(ns, i, j);
      KeyBeforeIsStrict(ns[i].key, ns[i].key, ns[i].key);
    }
  }

  lemma ByNameAscends(n: int, x: Input, h: Text)
    ensures NamesAscend(ByName(n, x, h))
  {
    EntryNamesAscend();
    hide KeyBefore, Ascii, Decimal;
  }

  lemma ByNameFacts(n: int, x: Input, h: Text)
    requires WellFormed(Obj(x.payload))
    ensures NamesAscend(ByName(n, x, h)) && WellFormed(Obj(ByName(n, x, h)))
    ensures forall m :: m in Body(n, x, h).members <==> m in ByName(n, x, h)
  {
    var ms, ns := Body(n, x, h).members, ByName(n, x, h);
    BodyWellFormed(n, x, h);
    SameMembersByName(n, x, h);
    ByNameAscends(n, x, h);
    AscendingIsDistinct(ns);
    hide NamesAscend, ByName, Body, DistinctKeys, IsNumberToken;
    forall i | 0 <= i < |ns| ensures WellFormed(ns[i].value) {
      assert ns[i] in ms;
      var j :| 0 <= j < |ms| && ms[j] == ns[i];
    }
  }

  lemma EntryNamesArePlain()
    ensures PlainName("actor") && PlainName("payload") && PlainName("previousHash") && PlainName("sequence")
    ensures PlainName("timestamp") && PlainName("transactionId") && PlainName("type")
  {}

  /** The fields of an entry but its hash. */
  function EntryFields(e: Entry): seq<(string, Text)> {
    var x := e.input;
    (if x.actor.Some? then [("actor", Quoted(x.actor.value))] else [])
    + [("payload", CanonicalJson(Obj(x.payload))), ("previousHash", Quoted(e.previousHash)),
       ("sequence", Decimal(e.sequence)), ("timestamp", Quoted(x.timestamp)),
       ("transactionId", Quoted(x.transactionId)), ("type", Quoted(x.kind))]
  }

  lemma EntryTexts(e: Entry)
    ensures NamedTexts(ByName(e.sequence, e.input, e.previousHash), EntryFields(e))
  {
    EntryNamesArePlain();
    forall s: Text ensures CanonicalJson(Str(s)) == Quoted(s) { ScalarText(Str(s)); }
    ScalarText(Num(Decimal(e.sequence)));
    hide CanonicalJson, Quoted, Decimal, Ascii, PlainName;
  }

  /** The text an evidence entry is hashed over names its every field but the hash, in code-unit order. */
  lemma EntryTextForm(e: Entry)
    requires PlainEntry(e)
    ensures EntryText(e) == Braced(EntryFields(e))
  {
    var n, x, h := e.sequence, e.input, e.previousHash;
    ByNameFacts(n, x, h);
    BodyWellFormed(n, x, h);
    EntryTexts(e);
    hide CanonicalJson, NamesAscend, NamedTexts, Ascii, WellFormed, Braced, ByName, EntryFields;
    ObjectText(Body(n, x, h).members, ByName(n, x, h), EntryFields(e));
  }

  /** The fields of a persisted row but its hash, in the order they are written. */
  function RowFields(e: Entry): seq<(string, Text)> {
    var x := e.input;
    [("sequence", Decimal(e.sequence)), ("transactionId", Quoted(x.transactionId)), ("type", Quoted(x.kind)),
     ("timestamp", Quoted(x.timestamp)), ("actor", if x.actor.Some? then Quoted(x.actor.value) else NULL_TEXT),
     ("payload", Stringify(Obj(x.payload))), ("previousHash", Quoted(e.previousHash))]
  }

  lemma RowMembersPrint(e: Entry)
    ensures PrintAs(EnumeratedMembers(RowBody(e.sequence, e.input, e.previousHash).members), RowFields(e))
  {
    EntryNamesArePlain();
    hide PlainName, Ascii, Quoted, Decimal, OwnOrder, Join;
  }

  lemma PlainNamesStayInOrder(us: seq<Member<Json>>, fs: seq<(string, Text)>)
    requires PrintAs(us, fs)
    ensures OwnOrder(us) == us
  {
    hide PlainName, Ascii, IsArrayIndex, Print;
    forall i | 0 <= i < |us| ensures !IsArrayIndex(us[i].key) { PlainNameFacts(fs[i].0); }
    NoIndexMembers(us);
  }

  /** The text a persisted row is hashed over: fields as written, the payload in own-property order. */
  lemma RowTextForm(e: Entry)
    ensures RowText(e) == Braced(RowFields(e))
  {
    RowMembersPrint(e);
    hide PrintAs, RowFields, Braced, Print;
    var us := EnumeratedMembers(RowBody(e.sequence, e.input, e.previousHash).members);
    PlainNamesStayInOrder(us, RowFields(e));
    ObjectPrintsFields(us, RowFields(e));
  }

  // ---------- chains and rows ----------

  /** Entry i is numbered from 1, links to the entry before or to the text GENESIS, and carries this digest. */
  predicate InChain(chain: seq<Entry>, i: nat, digest: Text)
    requires i < |chain|
  {
    && chain[i].sequence == i + 1
    && chain[i].previousHash == (if i == 0 then Ascii("GENESIS") else chain[i - 1].hash)
    && chain[i].hash == digest
  }

  lemma HeadBefore(chain: seq<Entry>, i: nat)
    requires i < |chain|
    ensures HeadHash(chain[..i]) == if i == 0 then Ascii("GENESIS") else chain[i - 1].hash
  {
    hide Ascii;
  }

  /** The verifier accepts exactly these chains. */
  lemma ValidChainForm(chain: seq<Entry>)
    requires forall i | 0 <= i < |chain| :: PlainEntry(chain[i])
    ensures ValidChain(chain) <==>
      forall i | 0 <= i < |chain| :: InChain(chain, i, Hashing.StableHash(Braced(EntryFields(chain[i]))))
  {
    hide Hashing.StableHash, EntryText, Braced, EntryFields, PlainEntry, Ascii, HeadHash;
    forall i | 0 <= i < |chain|
      ensures EntryHolds(chain, i) <==> InChain(chain, i, Hashing.StableHash(Braced(EntryFields(chain[i]))))
    {
      HeadBefore(chain, i);
      EntryTextForm(chain[i]);
    }
  }

  /** Rows are linked exactly so. */
  lemma LinkedRowsForm(sha: Text -> Text, rows: seq<Entry>)
    ensures Linked(sha, rows) <==>
      forall i | 0 <= i < |rows| :: InChain(rows, i, sha(Braced(RowFields(rows[i]))))
  {
    hide RowText, Braced, RowFields, Ascii, HeadHash;
    forall i | 0 <= i < |rows|
      ensures RowHolds(sha, rows, i) <==> InChain(rows, i, sha(Braced(RowFields(rows[i]))))
    {
      HeadBefore(rows, i);
      RowTextForm(rows[i]);
    }
  }

  // ---------- literals, numbers and strings ----------

  lemma LiteralTexts()
    ensures Print(Null) == Ascii("null") && Print(Bool(true)) == Ascii("true") && Print(Bool(false)) == Ascii("false")
    ensures Print(Arr([])) == Ascii("[]") && Print(Obj([])) == Ascii("{}")
  {}

  lemma TwoItems(a: Json, b: Json)
    ensures Print(Arr([a, b])) == Ascii("[") + Print(a) + Ascii(",") + Print(b) + Ascii("]")
  {
    var x, y := Print(a), Print(b);
    assert PrintItems([a, b]) == [x, y] && [x, y][1..] == [y];
    assert Join([x, y]) == x + [COMMA] + y;
    assert Ascii("[") == [OPEN_BRACKET] && Ascii(",") == [COMMA] && Ascii("]") == [CLOSE_BRACKET];
  }

  lemma {:induction false} DigitsAreNumeral(n: nat)
    ensures Numeral(Digits(n)) && DecimalValue(Digits(n)) == n && (n > 0 ==> Digits(n)[0] != 0x30)
  {
    DigitsFacts(n);
    if n >= 10 {
      DigitsAreNumeral(n / 10);
    }
  }

  /** Of all numerals without a leading zero only one has the value. */
  lemma DigitsExactly(n: nat, t: Text)
    ensures t == Digits(n) <==> Numeral(t) && DecimalValue(t) == n
    ensures Decimal(n) == Digits(n) && (n > 0 ==> Decimal(-(n as int)) == Ascii("-") + Digits(n))
  {
    DigitsAreNumeral(n);
    if Numeral(t) && DecimalValue(t) == n { NumeralsInjective(t, Digits(n)); }
  }

  lemma ShortEscapes()
    ensures EscapeUnit(0x22) == Ascii("\\\"") && EscapeUnit(0x5C) == Ascii("\\\\") && EscapeUnit(0x08) == Ascii("\\b")
    ensures EscapeUnit(0x09) == Ascii("\\t") && EscapeUnit(0x0A) == Ascii("\\n") && EscapeUnit(0x0C) == Ascii("\\f")
    ensures EscapeUnit(0x0D) == Ascii("\\r")
  {}

  lemma HexEscapes()
    ensures EscapeUnit(0x1F) == Ascii("\\u001f") && EscapeUnit(0xD83D) == Ascii("\\ud83d")
  {}

  /** Control characters, the quote, the backslash and unpaired surrogates are escaped; all else stands for itself. */
  lemma EscapedExactly(c: CodeUnit)
    ensures EscapeUnit(c) == [c] <==> c >= 0x20 && c != 0x22 && c != 0x5C && !(0xD800 <= c <= 0xDFFF)
  {}

  /** Surrogates in pairs are copied. */
  lemma PairsAreCopied(h: CodeUnit, l: CodeUnit)
    requires 0xD800 <= h <= 0xDBFF && 0xDC00 <= l <= 0xDFFF
    ensures Escaped([h, l]) == [h, l]
  {
    assert [h, l][2..] == [];
  }
}
