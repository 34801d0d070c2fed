/**
  What canonicalJson is for: two plain values have the same canonical text exactly when they are the
  same value up to the order of object keys at every depth, and a parser recovers the value.
 */
module Canonical {
  import opened Utf16
  import opened Json
  import opened JsonParser

  /** The same value up to deep key order. */
  ghost predicate Same(a: Json, b: Json)
    decreases a
  {
    match (a, b)
    case (Arr(xs), Arr(ys)) => |xs| == |ys| && forall i :: 0 <= i < |xs| ==> Same(xs[i], ys[i])
    case (Obj(ms), Obj(ns)) =>
      && |ms| == |ns|
      && (forall i :: 0 <= i < |ms| ==> HasPartner(ms[i], ns))
      && (forall j :: 0 <= j < |ns| ==> IsPartner(ms, ns[j]))
    case _ => a == b
  }

  ghost predicate HasPartner(m: Member<Json>, ns: seq<Member<Json>>)
    decreases m
  {
    exists j :: 0 <= j < |ns| && ns[j].key == m.key && Same(m.value, ns[j].value)
  }

  ghost predicate IsPartner(ms: seq<Member<Json>>, n: Member<Json>)
    decreases ms, 0
  {
    exists i :: 0 <= i < |ms| && n.key == ms[i].key && Same(ms[i].value, n.value)
  }

  // ---------- facts about the two member orders ----------

  ghost predicate StrictlySorted<V>(ms: seq<Member<V>>) {
    forall i, j :: 0 <= i < j < |ms| ==> Less(ms[i].key, ms[j].key)
  }

  /** r lists the members of ms, each once, in some order. */
  ghost predicate Reordering<V(!new)>(r: seq<Member<V>>, ms: seq<Member<V>>) {
    |r| == |ms| && forall m :: m in r <==> m in ms
  }

  lemma HeadApart<V(!new)>(ms: seq<Member<V>>)
    requires ms != []
    ensures DistinctKeys(ms) ==> DistinctKeys(ms[1..]) && forall x :: x in ms[1..] ==> ms[0].key != x.key
    ensures StrictlySorted(ms) ==> StrictlySorted(ms[1..]) && forall x :: x in ms[1..] ==> Less(ms[0].key, x.key)
  {
    forall x | x in ms[1..]
      ensures DistinctKeys(ms) ==> ms[0].key != x.key
      ensures StrictlySorted(ms) ==> Less(ms[0].key, x.key)
    {
      var k :| 0 <= k < |ms[1..]| && ms[1..][k] == x;
      assert x == ms[k + 1];
    }
  }

  lemma ConsSorted<V(!new)>(h: Member<V>, r: seq<Member<V>>)
    requires StrictlySorted(r) && forall x :: x in r ==> Less(h.key, x.key)
    ensures StrictlySorted([h] + r)
  {
    forall i, j | 0 <= i < j < |[h] + r| ensures Less(([h] + r)[i].key, ([h] + r)[j].key) {
      assert ([h] + r)[j] == r[j - 1] && r[j - 1] in r;
    }
  }

  lemma ConsDistinct<V(!new)>(h: Member<V>, r: seq<Member<V>>)
    requires DistinctKeys(r) && forall x :: x in r ==> h.key != x.key
    ensures DistinctKeys([h] + r)
  {
    forall i, j | 0 <= i < j < |[h] + r| ensures ([h] + r)[i].key != ([h] + r)[j].key {
      assert ([h] + r)[j] == r[j - 1] && r[j - 1] in r;
    }
  }

  lemma {:induction false} LexInsertFacts<V(!new)>(m: Member<V>, ms: seq<Member<V>>)
    requires StrictlySorted(ms) && forall x :: x in ms ==> x.key != m.key
    ensures StrictlySorted(LexInsert(m, ms))
    ensures |LexInsert(m, ms)| == |ms| + 1 && forall x :: x in LexInsert(m, ms) <==> x == m || x in ms
  {
    if ms != [] {
      LessTotal(ms[0].key, m.key);
      if Less(ms[0].key, m.key) {
        HeadApart(ms);
        LexInsertFacts(m, ms[1..]);
        assert ms == [ms[0]] + ms[1..];
        ConsSorted(ms[0], LexInsert(m, ms[1..]));
      } else {
        forall j | 0 <= j < |ms| ensures Less(m.key, ms[j].key) {
          if j > 0 {
            LessTransitive(m.key, ms[0].key, ms[j].key);
          }
        }
      }
    }
  }

  lemma {:induction false} LexSortFacts<V(!new)>(ms: seq<Member<V>>)
    requires DistinctKeys(ms)
    ensures StrictlySorted(LexSort(ms)) && Reordering(LexSort(ms), ms)
  {
    if ms != [] {
      LexSortFacts(ms[1..]);
      LexInsertFacts(ms[0], LexSort(ms[1..]));
      assert ms == [ms[0]] + ms[1..];
    }
  }

  lemma StrictlySortedIsDistinct<V(!new)>(ms: seq<Member<V>>)
    requires StrictlySorted(ms)
    ensures DistinctKeys(ms)
  {
    forall i, j | 0 <= i < j < |ms| ensures ms[i].key != ms[j].key {
      LessIrreflexive(ms[i].key);
    }
  }

  lemma SortedHeadsAgree<V(!new)>(s: seq<Member<V>>, t: seq<Member<V>>)
    requires StrictlySorted(s) && StrictlySorted(t) && s != [] && t != [] && s[0] in t && t[0] in s
    ensures s[0] == t[0]
  {
    var i :| 0 <= i < |s| && s[i] == t[0];
    var j :| 0 <= j < |t| && t[j] == s[0];
    if i > 0 && j > 0 {
      LessTransitive(s[0].key, s[i].key, s[0].key);
      LessIrreflexive(s[0].key);
    }
  }

  lemma SortedTail<V(!new)>(s: seq<Member<V>>, m: Member<V>)
    requires StrictlySorted(s) && s != []
    ensures m in s[1..] <==> m in s && m != s[0]
  {
    StrictlySortedIsDistinct(s);
    assert s == [s[0]] + s[1..];
  }

  /** A strictly sorted list is determined by its members. */
  lemma {:induction false} SortedUnique<V(!new)>(s: seq<Member<V>>, t: seq<Member<V>>)
    requires StrictlySorted(s) && StrictlySorted(t) && forall m :: m in s <==> m in t
    ensures s == t
  {
    assert t != [] ==> t[0] in t;
    if s != [] {
      assert s[0] in s;
      SortedHeadsAgree(s, t);
      forall m ensures m in s[1..] <==> m in t[1..] {
        SortedTail(s, m);
        SortedTail(t, m);
      }
      SortedUnique(s[1..], t[1..]);
      assert s == [s[0]] + s[1..] && t == [t[0]] + t[1..];
    }
  }

  lemma {:induction false} IndexInsertFacts<V(!new)>(m: Member<V>, ms: seq<Member<V>>)
    requires DistinctKeys(ms) && forall x :: x in ms ==> x.key != m.key
    ensures DistinctKeys(IndexInsert(m, ms))
    ensures |IndexInsert(m, ms)| == |ms| + 1 && forall x :: x in IndexInsert(m, ms) <==> x == m || x in ms
  {
    if ms != [] && DecimalValue(m.key) > DecimalValue(ms[0].key) {
      HeadApart(ms);
      IndexInsertFacts(m, ms[1..]);
      assert ms == [ms[0]] + ms[1..];
      ConsDistinct(ms[0], IndexInsert(m, ms[1..]));
    } else {
      ConsDistinct(m, ms);
    }
  }

  lemma {:induction false} IndexSortFacts<V(!new)>(ms: seq<Member<V>>)
    requires DistinctKeys(ms)
    ensures DistinctKeys(IndexSort(ms)) && Reordering(IndexSort(ms), ms)
  {
    if ms != [] {
      IndexSortFacts(ms[1..]);
      IndexInsertFacts(ms[0], IndexSort(ms[1..]));
      assert ms == [ms[0]] + ms[1..];
    }
  }

  lemma {:induction false} SplitFacts<V(!new)>(ms: seq<Member<V>>)
    requires DistinctKeys(ms)
    ensures DistinctKeys(IndexMembers(ms)) && DistinctKeys(NamedMembers(ms))
    ensures |IndexMembers(ms)| + |NamedMembers(ms)| == |ms|
    ensures forall m :: m in IndexMembers(ms) <==> m in ms && IsArrayIndex(m.key)
    ensures forall m :: m in NamedMembers(ms) <==> m in ms && !IsArrayIndex(m.key)
  {
    hide IsArrayIndex;
    if ms != [] {
      HeadApart(ms);
      SplitFacts(ms[1..]);
      assert ms == [ms[0]] + ms[1..];
      if IsArrayIndex(ms[0].key) {
        ConsDistinct(ms[0], IndexMembers(ms[1..]));
      } else {
        ConsDistinct(ms[0], NamedMembers(ms[1..]));
      }
    }
  }

  lemma OwnOrderFacts<V(!new)>(ms: seq<Member<V>>)
    requires DistinctKeys(ms)
    ensures DistinctKeys(OwnOrder(ms)) && Reordering(OwnOrder(ms), ms)
  {
    SplitFacts(ms);
    var a, b := IndexSort(IndexMembers(ms)), NamedMembers(ms);
    IndexSortFacts(IndexMembers(ms));
    forall i, j | 0 <= i < |a| && 0 <= j < |b| ensures a[i].key != b[j].key {
      assert a[i] in a && b[j] in b;
    }
  }

  // ---------- the three forms of a value ----------

  lemma {:induction false} SortKeepsWellFormed(v: Json)
    requires WellFormed(v)
    ensures WellFormed(SortValue(v))
    decreases v
  {
    match v
    case Arr(items) =>
      forall i | 0 <= i < |items| ensures WellFormed(SortItems(items)[i]) {
        SortKeepsWellFormed(items[i]);
      }
    case Obj(members) =>
      var mapped := SortMembers(members);
      LexSortFacts(mapped);
      StrictlySortedIsDistinct(LexSort(mapped));
      forall m | m in mapped ensures WellFormed(m.value) {
        var i :| 0 <= i < |mapped| && m == mapped[i];
        SortKeepsWellFormed(members[i].value);
      }
      assert forall i :: 0 <= i < |mapped| ==> LexSort(mapped)[i] in mapped;
    case _ =>
  }

  lemma {:induction false} EnumeratedKeepsWellFormed(v: Json)
    requires WellFormed(v)
    ensures WellFormed(Enumerated(v))
    decreases v
  {
    match v
    case Arr(items) =>
      forall i | 0 <= i < |items| ensures WellFormed(EnumeratedItems(items)[i]) {
        EnumeratedKeepsWellFormed(items[i]);
      }
    case Obj(members) =>
      var mapped := EnumeratedMembers(members);
      OwnOrderFacts(mapped);
      forall m | m in mapped ensures WellFormed(m.value) {
        var i :| 0 <= i < |mapped| && m == mapped[i];
        EnumeratedKeepsWellFormed(members[i].value);
      }
      assert forall i :: 0 <= i < |mapped| ==> OwnOrder(mapped)[i] in mapped;
    case _ =>
  }

  lemma SameMembersSortAlike(s: seq<Member<Json>>, t: seq<Member<Json>>)
    requires DistinctKeys(s) && DistinctKeys(t)
    ensures LexSort(s) == LexSort(t) <==> forall m :: m in s <==> m in t
    ensures OwnOrder(s) == OwnOrder(t) ==> forall m :: m in s <==> m in t
  {
    LexSortFacts(s);
    LexSortFacts(t);
    OwnOrderFacts(s);
    OwnOrderFacts(t);
    if forall m :: m in s <==> m in t {
      SortedUnique(LexSort(s), LexSort(t));
    }
  }

  /** Mapped members agree exactly when each member has a partner with an equal image. */
  lemma PartnersOfMapped(
    ms: seq<Member<Json>>, ns: seq<Member<Json>>, s: seq<Member<Json>>, t: seq<Member<Json>>)
    requires |s| == |ms| && |t| == |ns| && forall m :: m in s <==> m in t
    requires forall i :: 0 <= i < |ms| ==> s[i].key == ms[i].key
    requires forall j :: 0 <= j < |ns| ==> t[j].key == ns[j].key
    requires forall i, j ::
      0 <= i < |ms| && 0 <= j < |ns| && s[i].value == t[j].value ==> Same(ms[i].value, ns[j].value)
    ensures forall i :: 0 <= i < |ms| ==> HasPartner(ms[i], ns)
    ensures forall j :: 0 <= j < |ns| ==> IsPartner(ms, ns[j])
  {
    forall i | 0 <= i < |ms| ensures HasPartner(ms[i], ns) {
      assert s[i] in t;
      var j :| 0 <= j < |t| && t[j] == s[i];
      assert Same(ms[i].value, ns[j].value);
    }
    forall j | 0 <= j < |ns| ensures IsPartner(ms, ns[j]) {
      assert t[j] in s;
      var i :| 0 <= i < |s| && s[i] == t[j];
      assert Same(ms[i].value, ns[j].value);
    }
  }

  lemma PartneredMembersMapInto(
    ms: seq<Member<Json>>, ns: seq<Member<Json>>, s: seq<Member<Json>>, t: seq<Member<Json>>)
    requires |s| == |ms| && |t| == |ns|
    requires forall i :: 0 <= i < |ms| ==> s[i].key == ms[i].key
    requires forall j :: 0 <= j < |ns| ==> t[j].key == ns[j].key
    requires forall i, j ::
      0 <= i < |ms| && 0 <= j < |ns| && Same(ms[i].value, ns[j].value) ==> s[i].value == t[j].value
    ensures (forall i :: 0 <= i < |ms| ==> HasPartner(ms[i], ns)) ==> forall m :: m in s ==> m in t
    ensures (forall j :: 0 <= j < |ns| ==> IsPartner(ms, ns[j])) ==> forall m :: m in t ==> m in s
  {
    forall i | 0 <= i < |s| && HasPartner(ms[i], ns) ensures s[i] in t {
      var j :| 0 <= j < |ns| && ns[j].key == ms[i].key && Same(ms[i].value, ns[j].value);
      assert t[j] == s[i];
    }
    forall j | 0 <= j < |t| && IsPartner(ms, ns[j]) ensures t[j] in s {
      var i :| 0 <= i < |ms| && ns[j].key == ms[i].key && Same(ms[i].value, ns[j].value);
      assert s[i] == t[j];
    }
  }

  lemma SortedMembersDistinct(ms: seq<Member<Json>>)
    requires DistinctKeys(ms)
    ensures DistinctKeys(SortMembers(ms)) && DistinctKeys(EnumeratedMembers(ms))
  {}

  lemma {:induction false} SameSortsAlike(a: Json, b: Json)
    requires WellFormed(a) && WellFormed(b) && Same(a, b)
    ensures SortValue(a) == SortValue(b)
    decreases a
  {
    match (a, b)
    case (Arr(xs), Arr(ys)) =>
      forall i | 0 <= i < |xs| ensures SortItems(xs)[i] == SortItems(ys)[i] {
        SameSortsAlike(xs[i], ys[i]);
      }
      assert SortItems(xs) == SortItems(ys);
    case (Obj(ms), Obj(ns)) => SameMembersSort(ms, ns);
    case _ =>
  }

  lemma {:induction false} SameMembersSort(ms: seq<Member<Json>>, ns: seq<Member<Json>>)
    requires WellFormed(Obj(ms)) && WellFormed(Obj(ns))
    requires forall i :: 0 <= i < |ms| ==> HasPartner(ms[i], ns)
    requires forall j :: 0 <= j < |ns| ==> IsPartner(ms, ns[j])
    ensures LexSort(SortMembers(ms)) == LexSort(SortMembers(ns))
    decreases ms
  {
    var s, t := SortMembers(ms), SortMembers(ns);
    forall i, j | 0 <= i < |ms| && 0 <= j < |ns| && Same(ms[i].value, ns[j].value)
      ensures s[i].value == t[j].value
    {
      SameSortsAlike(ms[i].value, ns[j].value);
    }
    PartneredMembersMapInto(ms, ns, s, t);
    SortedMembersDistinct(ms);
    SortedMembersDistinct(ns);
    SameMembersSortAlike(s, t);
  }

  lemma {:induction false} SortedAlikeIsSame(a: Json, b: Json)
    requires WellFormed(a) && WellFormed(b) && SortValue(a) == SortValue(b)
    ensures Same(a, b)
    decreases a
  {
    match (a, b)
    case (Arr(xs), Arr(ys)) =>
      forall i | 0 <= i < |xs| ensures Same(xs[i], ys[i]) {
        assert SortItems(xs)[i] == SortItems(ys)[i];
        SortedAlikeIsSame(xs[i], ys[i]);
      }
    case (Obj(ms), Obj(ns)) =>
      var s, t := SortMembers(ms), SortMembers(ns);
      forall i, j | 0 <= i < |ms| && 0 <= j < |ns| && s[i].value == t[j].value
        ensures Same(ms[i].value, ns[j].value)
      {
        SortedAlikeIsSame(ms[i].value, ns[j].value);
      }
      SortedMembersDistinct(ms);
      SortedMembersDistinct(ns);
      SameMembersSortAlike(s, t);
      LexSortFacts(s);
      LexSortFacts(t);
      PartnersOfMapped(ms, ns, s, t);
    case _ =>
  }

  lemma {:induction false} EnumeratedAlikeIsSame(a: Json, b: Json)
    requires WellFormed(a) && WellFormed(b) && Enumerated(a) == Enumerated(b)
    ensures Same(a, b)
    decreases a
  {
    match (a, b)
    case (Arr(xs), Arr(ys)) =>
      forall i | 0 <= i < |xs| ensures Same(xs[i], ys[i]) {
        assert EnumeratedItems(xs)[i] == EnumeratedItems(ys)[i];
        EnumeratedAlikeIsSame(xs[i], ys[i]);
      }
    case (Obj(ms), Obj(ns)) =>
      var s, t := EnumeratedMembers(ms), EnumeratedMembers(ns);
      forall i, j | 0 <= i < |ms| && 0 <= j < |ns| && s[i].value == t[j].value
        ensures Same(ms[i].value, ns[j].value)
      {
        EnumeratedAlikeIsSame(ms[i].value, ns[j].value);
      }
      SortedMembersDistinct(ms);
      SortedMembersDistinct(ns);
      SameMembersSortAlike(s, t);
      OwnOrderFacts(s);
      OwnOrderFacts(t);
      PartnersOfMapped(ms, ns, s, t);
    case _ =>
  }

  /** Rebuilding a value in sorted order a second time changes nothing. */
  lemma {:induction false} SortValueIdempotent(v: Json)
    requires WellFormed(v)
    ensures SortValue(SortValue(v)) == SortValue(v)
    decreases v
  {
    match v
    case Arr(items) =>
      forall i | 0 <= i < |items| ensures SortItems(SortItems(items))[i] == SortItems(items)[i] {
        SortValueIdempotent(items[i]);
      }
      assert SortItems(SortItems(items)) == SortItems(items);
    case Obj(members) =>
      var mapped := SortMembers(members);
      var s := LexSort(mapped);
      LexSortFacts(mapped);
      forall i | 0 <= i < |s| ensures SortMembers(s)[i] == s[i] {
        assert s[i] in mapped;
        var j :| 0 <= j < |mapped| && mapped[j] == s[i];
        SortValueIdempotent(members[j].value);
      }
      assert SortMembers(s) == s;
      StrictlySortedIsDistinct(s);
      LexSortFacts(s);
      SortedUnique(LexSort(s), s);
    case _ =>
  }

  /** The order in which properties were created does not reach the sorted value. */
  lemma {:induction false} SortForgetsOwnOrder(v: Json)
    requires WellFormed(v)
    ensures SortValue(Enumerated(v)) == SortValue(v)
    decreases v
  {
    match v
    case Arr(items) =>
      forall i | 0 <= i < |items| ensures SortItems(EnumeratedItems(items))[i] == SortItems(items)[i] {
        SortForgetsOwnOrder(items[i]);
      }
      assert SortItems(EnumeratedItems(items)) == SortItems(items);
    case Obj(members) =>
      var mapped := EnumeratedMembers(members);
      forall i | 0 <= i < |members| ensures SortMembers(mapped)[i] == SortMembers(members)[i] {
        SortForgetsOwnOrder(members[i].value);
      }
      assert SortMembers(mapped) == SortMembers(members);
      ReorderedMembersSortAlike(OwnOrder(mapped), mapped);
    case _ =>
  }

  lemma ReorderedMembersSortAlike(r: seq<Member<Json>>, ms: seq<Member<Json>>)
    requires DistinctKeys(ms) && r == OwnOrder(ms)
    ensures LexSort(SortMembers(r)) == LexSort(SortMembers(ms))
  {
    OwnOrderFacts(ms);
    var s, t := SortMembers(r), SortMembers(ms);
    forall i | 0 <= i < |ms| ensures s[i] in t && t[i] in s {
      assert r[i] in ms && ms[i] in r;
      var j :| 0 <= j < |ms| && ms[j] == r[i];
      var k :| 0 <= k < |r| && r[k] == ms[i];
      assert t[j] == s[i] && s[k] == t[i];
    }
    SortedMembersDistinct(r);
    SortedMembersDistinct(ms);
    SameMembersSortAlike(s, t);
  }

  // ---------- main results ----------

  /** Canonical texts are equal exactly when the values are equal up to deep key order. */
  lemma CanonicalTextDeterminesValue(a: Json, b: Json)
    requires WellFormed(a) && WellFormed(b)
    ensures CanonicalJson(a) == CanonicalJson(b) <==> Same(a, b)
  {
    if Same(a, b) {
      SameSortsAlike(a, b);
    }
    if CanonicalJson(a) == CanonicalJson(b) {
      var sa, sb := SortValue(a), SortValue(b);
      SortKeepsWellFormed(a);
      SortKeepsWellFormed(b);
      EnumeratedKeepsWellFormed(sa);
      EnumeratedKeepsWellFormed(sb);
      PrintInjective(Enumerated(sa), Enumerated(sb));
      EnumeratedAlikeIsSame(sa, sb);
      SameSortsAlike(sa, sb);
      SortValueIdempotent(a);
      SortValueIdempotent(b);
      SortedAlikeIsSame(a, b);
    }
  }

  /** Parsing a canonical text gives the value back, up to deep key order, and reads all of it. */
  lemma CanonicalRoundTrip(v: Json)
    requires WellFormed(v)
    ensures ParseValue(CanonicalJson(v)).Ok? && ParseValue(CanonicalJson(v)).rest == []
    ensures Same(v, ParseValue(CanonicalJson(v)).value)
  {
    var w := Enumerated(SortValue(v));
    SortKeepsWellFormed(v);
    EnumeratedKeepsWellFormed(SortValue(v));
    ValueRoundTrip(w, []);
    assert Print(w) + [] == Print(w);
    SortForgetsOwnOrder(SortValue(v));
    SortValueIdempotent(v);
    SortedAlikeIsSame(v, w);
  }
}
