/**
  The order of keys in canonical text, said without reference to how the value is sorted: code-unit order
  after sorting, and on printing array indices first, by value.
 */
module CanonicalForm {
  import opened Utf16
  import opened Json
  import opened JsonParser
  import opened Canonical
  import opened Ledger

  // ---------- the sorted value ----------

  ghost predicate KeysAscend(ms: seq<Member<Json>>) {
    forall i, j :: 0 <= i < j < |ms| ==> Precedes(ms[i].key, ms[j].key)
  }

  /** The keys of every object, at every depth, ascend in code-unit order. */
  ghost predicate Ascending(v: Json) {
    match v
    case Arr(items) => forall i :: 0 <= i < |items| ==> Ascending(items[i])
    case Obj(ms) => KeysAscend(ms) && forall i :: 0 <= i < |ms| ==> Ascending(ms[i].value)
    case _ => true
  }

  lemma AscendIsSorted(ms: seq<Member<Json>>)
    ensures KeysAscend(ms) <==> StrictlySorted(ms)
  {
    hide Less, Precedes;
    forall i, j | 0 <= i < j < |ms| ensures Precedes(ms[i].key, ms[j].key) <==> Less(ms[i].key, ms[j].key) {
      LessIsPrecedes(ms[i].key, ms[j].key);
    }
  }

  lemma {:induction false} SortedIsAscending(v: Json)
    requires WellFormed(v)
    ensures Ascending(SortValue(v))
    decreases v
  {
    match v
    case Arr(items) =>
      forall i | 0 <= i < |items| ensures Ascending(SortItems(items)[i]) { SortedIsAscending(items[i]); }
    case Obj(ms) =>
      hide KeysAscend, Precedes;
      var mapped := SortMembers(ms);
      LexSortFacts(mapped);
      AscendIsSorted(LexSort(mapped));
      forall m | m in mapped ensures Ascending(m.value) {
        var i :| 0 <= i < |mapped| && m == mapped[i];
        SortedIsAscending(ms[i].value);
      }
      assert forall i :: 0 <= i < |mapped| ==> LexSort(mapped)[i] in mapped;
    case _ =>
  }

  lemma {:induction false} AscendingIsFixed(u: Json)
    requires WellFormed(u) && Ascending(u)
    ensures SortValue(u) == u
    decreases u
  {
    match u
    case Arr(items) =>
      forall i | 0 <= i < |items| ensures SortItems(items)[i] == items[i] { AscendingIsFixed(items[i]); }
      assert SortItems(items) == items;
    case Obj(ms) =>
      hide KeysAscend, Precedes;
      forall i | 0 <= i < |ms| ensures SortMembers(ms)[i] == ms[i] { AscendingIsFixed(ms[i].value); }
      assert SortMembers(ms) == ms;
      AscendIsSorted(ms);
      LexSortFacts(ms);
      SortedUnique(LexSort(ms), ms);
    case _ =>
  }

  /** sortValue gives the one value that is the same up to key order and has ascending keys at every depth. */
  lemma SortValueExactly(v: Json, u: Json)
    requires WellFormed(v) && WellFormed(u)
    ensures u == SortValue(v) <==> Same(v, u) && Ascending(u)
  {
    if u == SortValue(v) {
      SortedIsAscending(v);
      SortValueIdempotent(v);
      SortedAlikeIsSame(v, u);
    }
    if Same(v, u) && Ascending(u) {
      SameSortsAlike(v, u);
      AscendingIsFixed(u);
    }
  }

  // ---------- the printed order ----------

  /** Array indices come first, by value; all other keys follow in code-unit order. */
  predicate KeyBefore(a: Text, b: Text) {
    if IsArrayIndex(a) then !IsArrayIndex(b) || DecimalValue(a) < DecimalValue(b)
    else !IsArrayIndex(b) && Precedes(a, b)
  }

  ghost predicate KeysInPrintOrder(ms: seq<Member<Json>>) {
    forall i, j :: 0 <= i < j < |ms| ==> KeyBefore(ms[i].key, ms[j].key)
  }

  ghost predicate InPrintOrder(v: Json) {
    match v
    case Arr(items) => forall i :: 0 <= i < |items| ==> InPrintOrder(items[i])
    case Obj(ms) => KeysInPrintOrder(ms) && forall i :: 0 <= i < |ms| ==> InPrintOrder(ms[i].value)
    case _ => true
  }

  lemma KeyBeforeIsStrict(a: Text, b: Text, c: Text)
    ensures !KeyBefore(a, a)
    ensures KeyBefore(a, b) && KeyBefore(b, c) ==> KeyBefore(a, c)
  {
    hide IsArrayIndex, Less, Precedes;
    LessIsPrecedes(a, a);
    LessIsPrecedes(a, b);
    LessIsPrecedes(b, c);
    LessIsPrecedes(a, c);
    LessIrreflexive(a);
    if Less(a, b) && Less(b, c) { LessTransitive(a, b, c); }
  }

  lemma OrderedHeadsAgree(s: seq<Member<Json>>, t: seq<Member<Json>>)
    requires KeysInPrintOrder(s) && KeysInPrintOrder(t) && s != [] && t != [] && s[0] in t && t[0] in s
    ensures s[0] == t[0]
  {
    hide KeyBefore;
    var i :| 0 <= i < |s| && s[i] == t[0];
    var j :| 0 <= j < |t| && t[j] == s[0];
    KeyBeforeIsStrict(s[0].key, t[0].key, s[0].key);
  }

  lemma OrderedTail(s: seq<Member<Json>>, m: Member<Json>)
    requires KeysInPrintOrder(s) && s != []
    ensures m in s[1..] <==> m in s && m != s[0]
  {
    hide KeyBefore;
    assert s == [s[0]] + s[1..];
    KeyBeforeIsStrict(s[0].key, s[0].key, s[0].key);
  }

  lemma {:induction false} OrderedUnique(s: seq<Member<Json>>, t: seq<Member<Json>>)
    requires KeysInPrintOrder(s) && KeysInPrintOrder(t) && forall m :: m in s <==> m in t
    ensures s == t
  {
    hide KeyBefore;
    assert t != [] ==> t[0] in t;
    if s != [] {
      assert s[0] in s;
      OrderedHeadsAgree(s, t);
      forall m ensures m in s[1..] <==> m in t[1..] {
        OrderedTail(s, m);
        OrderedTail(t, m);
      }
      OrderedUnique(s[1..], t[1..]);
      assert s == [s[0]] + s[1..] && t == [t[0]] + t[1..];
    }
  }

  // ---------- own-property order of sorted keys is print order ----------

  predicate Numeral(k: Text) {
    k != [] && (forall i :: 0 <= i < |k| ==> IsDigit(k[i])) && (|k| > 1 ==> k[0] != 0x30)
  }

  lemma {:induction false} LongNumeralIsPositive(k: Text)
    requires k != [] && (forall i :: 0 <= i < |k| ==> IsDigit(k[i])) && k[0] != 0x30
    ensures DecimalValue(k) >= 1
    decreases |k|
  {
    if |k| > 1 {
      LongNumeralIsPositive(k[..|k| - 1]);
    } else {
      assert k[..0] == [];
    }
  }

  lemma {:induction false} NumeralsInjective(a: Text, b: Text)
    requires Numeral(a) && Numeral(b) && DecimalValue(a) == DecimalValue(b)
    ensures a == b
    decreases |a|
  {
    var m, n := |a| - 1, |b| - 1;
    assert a == a[..m] + [a[m]] && b == b[..n] + [b[n]];
    assert a[..0] == [] && b[..0] == [];
    if m > 0 { LongNumeralIsPositive(a[..m]); }
    if n > 0 { LongNumeralIsPositive(b[..n]); }
    if m > 0 && n > 0 {
      NumeralsInjective(a[..m], b[..n]);
    }
  }

  lemma NothingSorted()
    ensures StrictlySorted<Json>([])
  {}

  lemma {:induction false} NamedStaySorted(ms: seq<Member<Json>>)
    requires StrictlySorted(ms)
    ensures StrictlySorted(NamedMembers(ms)) && forall m | m in NamedMembers(ms) :: m in ms && !IsArrayIndex(m.key)
  {
    hide IsArrayIndex, Less, StrictlySorted;
    if ms == [] {
      NothingSorted();
    } else {
      HeadApart(ms);
      NamedStaySorted(ms[1..]);
      assert ms == [ms[0]] + ms[1..];
      var rest := NamedMembers(ms[1..]);
      if IsArrayIndex(ms[0].key) {
        assert NamedMembers(ms) == rest;
      } else {
        assert NamedMembers(ms) == [ms[0]] + rest;
        ConsSorted(ms[0], rest);
      }
    }
  }

  lemma OwnOrderIsPrintOrder(ms: seq<Member<Json>>)
    requires StrictlySorted(ms)
    ensures KeysInPrintOrder(OwnOrder(ms)) && forall m :: m in OwnOrder(ms) <==> m in ms
  {
    StrictlySortedIsDistinct(ms);
    SplitFacts(ms);
    IndexSortFacts(IndexMembers(ms));
    IndexSortSorted(IndexMembers(ms));
    NamedStaySorted(ms);
    OwnOrderFacts(ms);
    var a, b := IndexSort(IndexMembers(ms)), NamedMembers(ms);
    forall i | 0 <= i < |a| ensures IsArrayIndex(a[i].key) { assert a[i] in a; }
    forall i | 0 <= i < |b| ensures !IsArrayIndex(b[i].key) { assert b[i] in b; }
    JoinedOrder(a, b);
  }

  lemma JoinedOrder(a: seq<Member<Json>>, b: seq<Member<Json>>)
    requires DistinctKeys(a) && IndexSorted(a) && StrictlySorted(b)
    requires forall i :: 0 <= i < |a| ==> IsArrayIndex(a[i].key)
    requires forall i :: 0 <= i < |b| ==> !IsArrayIndex(b[i].key)
    ensures KeysInPrintOrder(a + b)
  {
    hide Less, Precedes;
    var ms := a + b;
    forall i, j | 0 <= i < j < |ms| ensures KeyBefore(ms[i].key, ms[j].key) {
      if j < |a| {
        if DecimalValue(a[i].key) == DecimalValue(a[j].key) { NumeralsInjective(a[i].key, a[j].key); }
      } else if i >= |a| {
        LessIsPrecedes(b[i - |a|].key, b[j - |a|].key);
      }
    }
  }

  /** What canonicalJson prints is in print order. */
  lemma {:induction false} EnumeratedInPrintOrder(v: Json)
    requires WellFormed(v) && Ascending(v)
    ensures InPrintOrder(Enumerated(v))
    decreases v
  {
    match v
    case Arr(items) =>
      forall i | 0 <= i < |items| ensures InPrintOrder(EnumeratedItems(items)[i]) {
        EnumeratedInPrintOrder(items[i]);
      }
    case Obj(ms) =>
      hide KeysAscend, KeysInPrintOrder, IsArrayIndex, OwnOrder;
      forall i | 0 <= i < |ms| ensures InPrintOrder(Enumerated(ms[i].value)) {
        EnumeratedInPrintOrder(ms[i].value);
      }
      AscendIsSorted(ms);
      ObjectInPrintOrder(ms, EnumeratedMembers(ms));
    case _ =>
  }

  lemma ObjectInPrintOrder(ms: seq<Member<Json>>, mapped: seq<Member<Json>>)
    requires StrictlySorted(ms) && |mapped| == |ms|
    requires forall i | 0 <= i < |ms| :: mapped[i].key == ms[i].key && InPrintOrder(mapped[i].value)
    ensures InPrintOrder(Obj(OwnOrder(mapped)))
  {
    hide KeysInPrintOrder, IsArrayIndex, OwnOrder, StrictlySorted;
    SameKeysSorted(ms, mapped);
    OwnOrderIsPrintOrder(mapped);
    var r := OwnOrder(mapped);
    forall i | 0 <= i < |r| ensures InPrintOrder(r[i].value) {
      assert r[i] in r;
      var j :| 0 <= j < |mapped| && mapped[j] == r[i];
    }
  }

  lemma SameKeysSorted(ms: seq<Member<Json>>, ns: seq<Member<Json>>)
    requires StrictlySorted(ms) && |ns| == |ms| && forall i :: 0 <= i < |ms| ==> ns[i].key == ms[i].key
    ensures StrictlySorted(ns)
  {
    hide Less;
  }

  lemma {:induction false} InPrintOrderIsFixed(u: Json)
    requires WellFormed(u) && InPrintOrder(u)
    ensures Enumerated(SortValue(u)) == u
    decreases u
  {
    match u
    case Arr(items) =>
      var s := SortItems(items);
      forall i | 0 <= i < |items| ensures EnumeratedItems(s)[i] == items[i] { InPrintOrderIsFixed(items[i]); }
      assert EnumeratedItems(s) == items;
    case Obj(ms) =>
      forall i | 0 <= i < |ms| ensures Enumerated(SortMembers(ms)[i].value) == ms[i].value {
        InPrintOrderIsFixed(ms[i].value);
      }
      ObjectIsFixed(ms);
    case _ =>
  }

  /** When enumerating undoes the sorting of each value, the sorted members enumerate to the members. */
  lemma MembersComeBack(ms: seq<Member<Json>>, s: seq<Member<Json>>, m: Member<Json>)
    requires forall i | 0 <= i < |ms| :: Enumerated(SortMembers(ms)[i].value) == ms[i].value
    requires Reordering(s, SortMembers(ms))
    ensures m in EnumeratedMembers(s) <==> m in ms
  {
    hide Enumerated, SortValue;
    var mapped, e := SortMembers(ms), EnumeratedMembers(s);
    if m in e {
      var i :| 0 <= i < |e| && e[i] == m;
      assert s[i] in mapped;
      var j :| 0 <= j < |mapped| && mapped[j] == s[i];
      assert m == ms[j];
    }
    if m in ms {
      var j :| 0 <= j < |ms| && ms[j] == m;
      assert mapped[j] in s;
      var i :| 0 <= i < |s| && s[i] == mapped[j];
      assert e[i] == m;
    }
  }

  lemma ObjectIsFixed(ms: seq<Member<Json>>)
    requires DistinctKeys(ms) && KeysInPrintOrder(ms)
    requires forall i | 0 <= i < |ms| :: Enumerated(SortMembers(ms)[i].value) == ms[i].value
    ensures OwnOrder(EnumeratedMembers(LexSort(SortMembers(ms)))) == ms
  {
    SortedMembersDistinct(ms);
    LexSortFacts(SortMembers(ms));
    hide *;
    var s := LexSort(SortMembers(ms));
    var e := EnumeratedMembers(s);
    SameKeysSorted(s, e);
    OwnOrderIsPrintOrder(e);
    forall m ensures m in e <==> m in ms { MembersComeBack(ms, s, m); }
    OrderedUnique(OwnOrder(e), ms);
  }

  /** canonicalJson prints exactly the one value that is the same up to key order and is in print order. */
  lemma CanonicalTextExactly(v: Json, u: Json)
    requires WellFormed(v) && WellFormed(u)
    ensures CanonicalJson(v) == Print(u) <==> Same(v, u) && InPrintOrder(u)
  {
    hide InPrintOrder, Print, Enumerated, SortValue;
    var w := Enumerated(SortValue(v));
    SortKeepsWellFormed(v);
    EnumeratedKeepsWellFormed(SortValue(v));
    SortedIsAscending(v);
    EnumeratedInPrintOrder(SortValue(v));
    SortForgetsOwnOrder(SortValue(v));
    SortValueIdempotent(v);
    SortedAlikeIsSame(v, w);
    if CanonicalJson(v) == Print(u) { PrintInjective(w, u); }
    if Same(v, u) && InPrintOrder(u) {
      SameSortsAlike(v, u);
      InPrintOrderIsFixed(u);
    }
  }
}
