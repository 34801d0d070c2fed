/**
  The imperative sortValue, the ledger's own canonical printer, and exactly when the ledger's text
  agrees with the core's canonicalJson.
 */
module Ledger {
  import opened Utf16
  import opened Json
  import opened JsonParser
  import opened Canonical

  // ---------- sortValue as the core writes it ----------

  /** Assigning a property: an existing key keeps its place, a new key is added last. */
  function SetProperty(ms: seq<Member<Json>>, key: Text, value: Json): seq<Member<Json>> {
    if ms == [] then [Member(key, value)]
    else if ms[0].key == key then [Member(key, value)] + ms[1..]
    else [ms[0]] + SetProperty(ms[1..], key, value)
  }

  lemma {:induction false} SetNewProperty(ms: seq<Member<Json>>, key: Text, value: Json)
    requires forall i :: 0 <= i < |ms| ==> ms[i].key != key
    ensures SetProperty(ms, key, value) == ms + [Member(key, value)]
  {
    if ms != [] {
      SetNewProperty(ms[1..], key, value);
      assert ms == [ms[0]] + ms[1..];
    }
  }

  lemma {:induction false} SortMembersOfInsert(m: Member<Json>, ms: seq<Member<Json>>)
    ensures SortMembers(LexInsert(m, ms)) == LexInsert(Member(m.key, SortValue(m.value)), SortMembers(ms))
  {
    if ms != [] && Less(ms[0].key, m.key) {
      SortMembersOfInsert(m, ms[1..]);
      assert LexInsert(m, ms)[1..] == LexInsert(m, ms[1..]);
    } else {
      assert ([m] + ms)[1..] == ms;
    }
  }

  lemma {:induction false} SortMembersOfSort(ms: seq<Member<Json>>)
    ensures SortMembers(LexSort(ms)) == LexSort(SortMembers(ms))
  {
    if ms != [] {
      SortMembersOfSort(ms[1..]);
      SortMembersOfInsert(ms[0], LexSort(ms[1..]));
    }
  }

  lemma LexSortMembersAreMembers(ms: seq<Member<Json>>)
    requires DistinctKeys(ms)
    ensures |LexSort(ms)| == |ms| && DistinctKeys(LexSort(ms)) && forall m :: m in LexSort(ms) ==> m in ms
  {
    LexSortFacts(ms);
    StrictlySortedIsDistinct(LexSort(ms));
  }

  /** The recursion that fills a result object key by key builds the specified value. */
  method RebuildSorted(v: Json) returns (r: Json)
    requires WellFormed(v)
    ensures r == SortValue(v)
    decreases v, 0
  {
    match v
    case Arr(items) =>
      var mapped := RebuildItems(items);
      return Arr(mapped);
    case Obj(members) =>
      var result := RebuildMembers(members);
      return Obj(result);
    case _ => return v;
  }

  method RebuildItems(items: seq<Json>) returns (mapped: seq<Json>)
    requires forall i :: 0 <= i < |items| ==> WellFormed(items[i])
    ensures mapped == SortItems(items)
    decreases items, 1
  {
    mapped := [];
    for i := 0 to |items|
      invariant mapped == SortItems(items)[..i]
    {
      var item := RebuildSorted(items[i]);
      mapped := mapped + [item];
    }
  }

  method RebuildMembers(members: seq<Member<Json>>) returns (result: seq<Member<Json>>)
    requires WellFormed(Obj(members))
    ensures result == LexSort(SortMembers(members))
    decreases members, 1
  {
    hide LexSort, SetProperty;
    var sorted := LexSort(members);
    LexSortMembersAreMembers(members);
    SortMembersOfSort(members);
    result := [];
    for i := 0 to |sorted|
      invariant result == SortMembers(sorted)[..i]
    {
      assert sorted[i] in members;
      var value := RebuildSorted(sorted[i].value);
      SetNewProperty(result, sorted[i].key, value);
      result := SetProperty(result, sorted[i].key, value);
    }
  }

  // ---------- the ledger's canonical printer ----------

  function MemberTexts(ms: seq<Member<Text>>): (r: seq<Text>)
    ensures |r| == |ms| && forall i :: 0 <= i < |r| ==> r[i] == Quoted(ms[i].key) + [COLON] + ms[i].value
  {
    if ms == [] then [] else [Quoted(ms[0].key) + [COLON] + ms[0].value] + MemberTexts(ms[1..])
  }

  /** canonical of packages/evidence: keys sorted and printed directly, with no object rebuilt. */
  function LedgerText(v: Json): Text
    decreases v
  {
    match v
    case Arr(items) => [OPEN_BRACKET] + Join(LedgerItems(items)) + [CLOSE_BRACKET]
    case Obj(members) => [OPEN_BRACE] + Join(MemberTexts(LexSort(LedgerMembers(members)))) + [CLOSE_BRACE]
    case _ => Stringify(v)
  }

  function LedgerItems(items: seq<Json>): (r: seq<Text>)
    ensures |r| == |items| && forall i :: 0 <= i < |r| ==> r[i] == LedgerText(items[i])
    decreases items
  {
    if items == [] then [] else [LedgerText(items[0])] + LedgerItems(items[1..])
  }

  function LedgerMembers(ms: seq<Member<Json>>): (r: seq<Member<Text>>)
    ensures |r| == |ms|
    ensures forall i :: 0 <= i < |r| ==> r[i] == Member(ms[i].key, LedgerText(ms[i].value))
    decreases ms
  {
    if ms == [] then [] else [Member(ms[0].key, LedgerText(ms[0].value))] + LedgerMembers(ms[1..])
  }

  function PrintedValues(ms: seq<Member<Json>>): (r: seq<Member<Text>>)
    ensures |r| == |ms|
    ensures forall i :: 0 <= i < |r| ==> r[i] == Member(ms[i].key, Print(ms[i].value))
  {
    if ms == [] then [] else [Member(ms[0].key, Print(ms[0].value))] + PrintedValues(ms[1..])
  }

  lemma {:induction false} PrintedInsert(m: Member<Json>, ms: seq<Member<Json>>)
    ensures PrintedValues(LexInsert(m, ms)) == LexInsert(Member(m.key, Print(m.value)), PrintedValues(ms))
  {
    if ms != [] && Less(ms[0].key, m.key) {
      PrintedInsert(m, ms[1..]);
      assert LexInsert(m, ms)[1..] == LexInsert(m, ms[1..]);
    } else {
      assert ([m] + ms)[1..] == ms;
    }
  }

  lemma {:induction false} PrintedSort(ms: seq<Member<Json>>)
    ensures PrintedValues(LexSort(ms)) == LexSort(PrintedValues(ms))
  {
    if ms != [] {
      PrintedSort(ms[1..]);
      PrintedInsert(ms[0], LexSort(ms[1..]));
    }
  }

  /** Direct printing gives the sorted value's members in sorted order, never in own-property order. */
  lemma {:induction false} LedgerTextPrintsSorted(v: Json)
    ensures LedgerText(v) == Print(SortValue(v))
    decreases v
  {
    match v
    case Arr(items) =>
      forall i | 0 <= i < |items| ensures LedgerItems(items)[i] == PrintItems(SortItems(items))[i] {
        LedgerTextPrintsSorted(items[i]);
      }
      assert LedgerItems(items) == PrintItems(SortItems(items));
    case Obj(members) =>
      var mapped := SortMembers(members);
      forall i | 0 <= i < |members| ensures LedgerMembers(members)[i] == PrintedValues(mapped)[i] {
        LedgerTextPrintsSorted(members[i].value);
      }
      assert LedgerMembers(members) == PrintedValues(mapped);
      PrintedSort(mapped);
      assert MemberTexts(PrintedValues(LexSort(mapped))) == PrintMembers(LexSort(mapped));
    case _ =>
  }

  // ---------- when the two texts agree ----------

  /** Own-property order puts a before b because a is an array index. */
  predicate ComesFirst(a: Text, b: Text) {
    IsArrayIndex(a) && (!IsArrayIndex(b) || DecimalValue(a) < DecimalValue(b))
  }

  /** Own-property order never contradicts code-unit order among the keys of one object. */
  predicate KeysAgree(ms: seq<Member<Json>>) {
    forall a, b | a in KeySet(ms) && b in KeySet(ms) && ComesFirst(a, b) :: Less(a, b)
  }

  function KeySet(ms: seq<Member<Json>>): set<Text> { set m | m in ms :: m.key }

  ghost predicate OrdersAgree(v: Json) {
    match v
    case Arr(items) => forall i :: 0 <= i < |items| ==> OrdersAgree(items[i])
    case Obj(members) =>
      KeysAgree(members) && forall i :: 0 <= i < |members| ==> OrdersAgree(members[i].value)
    case _ => true
  }

  ghost predicate NoIndexKeys(v: Json) {
    match v
    case Arr(items) => forall i :: 0 <= i < |items| ==> NoIndexKeys(items[i])
    case Obj(members) =>
      forall i :: 0 <= i < |members| ==> !IsArrayIndex(members[i].key) && NoIndexKeys(members[i].value)
    case _ => true
  }

  ghost predicate IndexSorted<V>(ms: seq<Member<V>>) {
    forall i, j :: 0 <= i < j < |ms| ==> DecimalValue(ms[i].key) <= DecimalValue(ms[j].key)
  }

  lemma {:induction false} IndexInsertSorted(m: Member<Json>, ms: seq<Member<Json>>)
    requires IndexSorted(ms)
    ensures IndexSorted(IndexInsert(m, ms))
    ensures forall x :: x in IndexInsert(m, ms) <==> x == m || x in ms
  {
    if ms != [] {
      assert ms == [ms[0]] + ms[1..];
      if DecimalValue(m.key) > DecimalValue(ms[0].key) {
        IndexInsertSorted(m, ms[1..]);
        var r := IndexInsert(m, ms[1..]);
        forall j | 0 <= j < |r| ensures DecimalValue(ms[0].key) <= DecimalValue(r[j].key) {
          assert r[j] in r;
        }
      }
    }
  }

  lemma {:induction false} IndexSortSorted(ms: seq<Member<Json>>)
    ensures IndexSorted(IndexSort(ms))
  {
    if ms != [] {
      IndexSortSorted(ms[1..]);
      IndexInsertSorted(ms[0], IndexSort(ms[1..]));
    }
  }

  lemma {:induction false} NoIndexMembers(ms: seq<Member<Json>>)
    requires forall i :: 0 <= i < |ms| ==> !IsArrayIndex(ms[i].key)
    ensures IndexMembers(ms) == [] && NamedMembers(ms) == ms
  {
    if ms != [] {
      NoIndexMembers(ms[1..]);
      assert ms == [ms[0]] + ms[1..];
    }
  }

  lemma HeadComesFirst(ms: seq<Member<Json>>, m: Member<Json>)
    requires ms != [] && StrictlySorted(ms) && KeysAgree(ms) && m in ms[1..]
    ensures !ComesFirst(m.key, ms[0].key)
  {
    HeadApart(ms);
    assert ms[0] in ms && m in ms;
    assert m.key in KeySet(ms) && ms[0].key in KeySet(ms);
    LessIrreflexive(ms[0].key);
    if Less(m.key, ms[0].key) {
      LessTransitive(ms[0].key, m.key, ms[0].key);
    }
  }

  lemma SortedIndexMember(ms: seq<Member<Json>>, i: nat)
    requires DistinctKeys(ms) && i < |IndexSort(IndexMembers(ms))|
    ensures IndexSort(IndexMembers(ms))[i] in ms && IsArrayIndex(IndexSort(IndexMembers(ms))[i].key)
  {
    SplitFacts(ms);
    IndexSortFacts(IndexMembers(ms));
    assert IndexSort(IndexMembers(ms))[i] in IndexMembers(ms);
  }

  lemma IndexHeadIsSmallest(ms: seq<Member<Json>>)
    requires ms != [] && StrictlySorted(ms) && KeysAgree(ms) && IsArrayIndex(ms[0].key)
    ensures var sorted := IndexSort(IndexMembers(ms[1..])); IndexInsert(ms[0], sorted) == [ms[0]] + sorted
  {
    if IndexSort(IndexMembers(ms[1..])) != [] {
      HeadApart(ms);
      StrictlySortedIsDistinct(ms[1..]);
      SortedIndexMember(ms[1..], 0);
      HeadComesFirst(ms, IndexSort(IndexMembers(ms[1..]))[0]);
    }
  }

  lemma IndexSortCons(m: Member<Json>, ms: seq<Member<Json>>)
    ensures IndexSort([m] + ms) == IndexInsert(m, IndexSort(ms))
  {
    assert ([m] + ms)[1..] == ms;
  }

  lemma IndexHeadStays(ms: seq<Member<Json>>)
    requires ms != [] && IsArrayIndex(ms[0].key) && OwnOrder(ms[1..]) == ms[1..]
    requires var sorted := IndexSort(IndexMembers(ms[1..])); IndexInsert(ms[0], sorted) == [ms[0]] + sorted
    ensures OwnOrder(ms) == ms
  {
    hide IsArrayIndex, IndexInsert;
    var tail := ms[1..];
    var indices, named := IndexMembers(tail), NamedMembers(tail);
    assert IndexMembers(ms) == [ms[0]] + indices && NamedMembers(ms) == named;
    IndexSortCons(ms[0], indices);
    assert [ms[0]] + IndexSort(indices) + named == [ms[0]] + (IndexSort(indices) + named);
  }

  lemma NamedHeadMeansAllNamed(ms: seq<Member<Json>>)
    requires ms != [] && StrictlySorted(ms) && KeysAgree(ms) && !IsArrayIndex(ms[0].key)
    ensures forall i :: 0 <= i < |ms| ==> !IsArrayIndex(ms[i].key)
  {
    forall i | 0 < i < |ms| ensures !IsArrayIndex(ms[i].key) {
      assert ms[i] == ms[1..][i - 1];
      HeadComesFirst(ms, ms[i]);
    }
  }

  lemma {:induction false} AgreeingOrderIsKept(ms: seq<Member<Json>>)
    requires StrictlySorted(ms) && KeysAgree(ms)
    ensures OwnOrder(ms) == ms
  {
    if ms != [] {
      if IsArrayIndex(ms[0].key) {
        HeadApart(ms);
        assert KeySet(ms[1..]) <= KeySet(ms);
        AgreeingOrderIsKept(ms[1..]);
        IndexHeadIsSmallest(ms);
        IndexHeadStays(ms);
      } else {
        NamedHeadMeansAllNamed(ms);
        NoIndexMembers(ms);
      }
    }
  }

  lemma SplitOrderAgrees(ms: seq<Member<Json>>, a: seq<Member<Json>>, b: seq<Member<Json>>)
    requires StrictlySorted(ms) && ms == a + b && IndexSorted(a)
    requires forall i :: 0 <= i < |a| ==> IsArrayIndex(a[i].key)
    requires forall i :: 0 <= i < |b| ==> !IsArrayIndex(b[i].key)
    ensures KeysAgree(ms)
  {
    forall x, y | x in ms && y in ms && ComesFirst(x.key, y.key) ensures Less(x.key, y.key) {
      var i :| 0 <= i < |ms| && ms[i] == x;
      var j :| 0 <= j < |ms| && ms[j] == y;
      assert i < |a| && (j < |a| ==> ms[j] == a[j]);
    }
  }

  lemma KeptOrderAgrees(ms: seq<Member<Json>>)
    requires StrictlySorted(ms) && OwnOrder(ms) == ms
    ensures KeysAgree(ms)
  {
    StrictlySortedIsDistinct(ms);
    SplitFacts(ms);
    var a, b := IndexSort(IndexMembers(ms)), NamedMembers(ms);
    IndexSortFacts(IndexMembers(ms));
    IndexSortSorted(IndexMembers(ms));
    assert forall i :: 0 <= i < |a| ==> a[i] in a;
    assert forall i :: 0 <= i < |b| ==> b[i] in b;
    SplitOrderAgrees(ms, a, b);
  }

  lemma SortedMembersKeepKeys(ms: seq<Member<Json>>)
    ensures KeySet(SortMembers(ms)) == KeySet(ms)
  {
    var mapped := SortMembers(ms);
    forall k | k in KeySet(ms) ensures k in KeySet(mapped) {
      var i :| 0 <= i < |ms| && ms[i].key == k;
      assert mapped[i] in mapped;
    }
    forall k | k in KeySet(mapped) ensures k in KeySet(ms) {
      var i :| 0 <= i < |mapped| && mapped[i].key == k;
      assert ms[i] in ms;
    }
  }

  /** Sorting keeps the set of keys, so it keeps agreement of the orders. */
  lemma SortKeepsKeySet(ms: seq<Member<Json>>)
    requires DistinctKeys(ms)
    ensures KeySet(LexSort(SortMembers(ms))) == KeySet(ms)
  {
    LexSortFacts(SortMembers(ms));
    SortedMembersKeepKeys(ms);
  }

  /** A reordering in place that fixes the list fixes every value in it. */
  lemma FixedReordering(s: seq<Member<Json>>, e: seq<Member<Json>>)
    requires |s| == |e| && DistinctKeys(s) && forall i :: 0 <= i < |s| ==> s[i].key == e[i].key
    ensures OwnOrder(e) == s <==> e == s && OwnOrder(s) == s
  {
    OwnOrderFacts(e);
    if OwnOrder(e) == s {
      forall i | 0 <= i < |s| ensures e[i] == s[i] {
        assert e[i] in s;
      }
    }
  }

  lemma {:induction false} SortedIsEnumeratedExactly(v: Json)
    requires WellFormed(v)
    ensures Enumerated(SortValue(v)) == SortValue(v) <==> OrdersAgree(v)
    decreases v
  {
    match v
    case Arr(items) =>
      var s := SortItems(items);
      forall i | 0 <= i < |items| ensures EnumeratedItems(s)[i] == s[i] <==> OrdersAgree(items[i]) {
        SortedIsEnumeratedExactly(items[i]);
      }
      assert EnumeratedItems(s) == s <==> forall i :: 0 <= i < |s| ==> EnumeratedItems(s)[i] == s[i];
    case Obj(members) => SortedMembersEnumerated(members);
    case _ =>
  }

  lemma {:induction false} SortedMembersEnumerated(ms: seq<Member<Json>>)
    requires WellFormed(Obj(ms))
    ensures var s := LexSort(SortMembers(ms));
      OwnOrder(EnumeratedMembers(s)) == s
      <==> KeysAgree(ms) && forall i :: 0 <= i < |ms| ==> OrdersAgree(ms[i].value)
    decreases ms, 1
  {
    var mapped := SortMembers(ms);
    var s := LexSort(mapped);
    LexSortFacts(mapped);
    StrictlySortedIsDistinct(s);
    FixedReordering(s, EnumeratedMembers(s));
    SortKeepsKeySet(ms);
    if KeysAgree(s) { AgreeingOrderIsKept(s); }
    if OwnOrder(s) == s { KeptOrderAgrees(s); }
    ValuesEnumerated(ms, s);
  }

  lemma {:induction false} ValuesEnumerated(ms: seq<Member<Json>>, s: seq<Member<Json>>)
    requires WellFormed(Obj(ms)) && Reordering(s, SortMembers(ms))
    ensures EnumeratedMembers(s) == s <==> forall i :: 0 <= i < |ms| ==> OrdersAgree(ms[i].value)
    decreases ms, 0
  {
    var mapped, e := SortMembers(ms), EnumeratedMembers(s);
    forall i | 0 <= i < |ms| ensures Enumerated(mapped[i].value) == mapped[i].value <==> OrdersAgree(ms[i].value) {
      SortedIsEnumeratedExactly(ms[i].value);
    }
    if e == s {
      forall i | 0 <= i < |ms| ensures OrdersAgree(ms[i].value) {
        assert mapped[i] in s;
        var j :| 0 <= j < |s| && s[j] == mapped[i];
        assert e[j].value == s[j].value;
      }
    }
    if forall i :: 0 <= i < |ms| ==> OrdersAgree(ms[i].value) {
      forall j | 0 <= j < |s| ensures e[j] == s[j] {
        assert s[j] in mapped;
        var i :| 0 <= i < |mapped| && s[j] == mapped[i];
        assert OrdersAgree(ms[i].value);
      }
    }
  }

  /** The two canonicalisers print the same text exactly when the two key orders agree in every object. */
  lemma CanonicalTextsAgreeExactly(v: Json)
    requires WellFormed(v)
    ensures CanonicalJson(v) == LedgerText(v) <==> OrdersAgree(v)
  {
    LedgerTextPrintsSorted(v);
    SortKeepsWellFormed(v);
    EnumeratedKeepsWellFormed(SortValue(v));
    SortedIsEnumeratedExactly(v);
    if CanonicalJson(v) == LedgerText(v) {
      PrintInjective(Enumerated(SortValue(v)), SortValue(v));
    }
  }

  lemma {:induction false} NoIndexKeysAgree(v: Json)
    requires NoIndexKeys(v)
    ensures OrdersAgree(v)
    decreases v
  {
    match v
    case Arr(items) =>
      forall i | 0 <= i < |items| ensures OrdersAgree(items[i]) { NoIndexKeysAgree(items[i]); }
    case Obj(members) =>
      forall i | 0 <= i < |members| ensures OrdersAgree(members[i].value) { NoIndexKeysAgree(members[i].value); }
    case _ =>
  }

  lemma TenAndNine()
    ensures var ten, nine: Text := [0x31, 0x30], [0x39];
      IsArrayIndex(ten) && IsArrayIndex(nine) && DecimalValue(nine) < DecimalValue(ten) && !Less(nine, ten)
  {
    var ten, nine: Text := [0x31, 0x30], [0x39];
    assert ten[..1] == [0x31] && nine[..0] == [] && ten[..1][..0] == [];
    assert DecimalValue(ten[..1]) == 1 && DecimalValue(ten) == 10 && DecimalValue(nine) == 9;
  }

  /** The keys "10" and "9": numeric order and code-unit order differ, and so do the two texts. */
  lemma IndexKeysDisagree()
    ensures var v := Obj([Member([0x31, 0x30], Null), Member([0x39], Null)]);
      WellFormed(v) && CanonicalJson(v) != LedgerText(v)
  {
    hide CanonicalJson, LedgerText, IsArrayIndex, DecimalValue, Less;
    TenAndNine();
    var v := Obj([Member([0x31, 0x30], Null), Member([0x39], Null)]);
    CanonicalTextsAgreeExactly(v);
    assert ComesFirst(v.members[1].key, v.members[0].key);
    assert v.members[1].key in KeySet(v.members) && v.members[0].key in KeySet(v.members);
  }
}
