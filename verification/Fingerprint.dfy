/**
  The transaction fingerprint text `name@version:canonicalJson(input)` and the proof that it can be
  read back, whatever characters the name and the input's strings hold.
 */
module Fingerprint {
  import opened Utf16
  import opened Json
  import opened Canonical
  import opened Hashing

  const AT: CodeUnit := 0x40

  function FingerprintText(name: Text, version: Text, input: Json): Text {
    name + [AT] + version + [COLON] + CanonicalJson(input)
  }

  function TransactionFingerprint(name: Text, version: Text, input: Json): Text {
    StableHash(FingerprintText(name, version, input))
  }

  // ---------- a scanner over printed JSON ----------

  /** Where a left-to-right reading of JSON text stands: the open brackets, and whether it is in a string. */
  datatype Scan = Outside(depth: nat) | Inside(depth: nat) | AfterBackslash(depth: nat) | Bad

  function Next(s: Scan, c: CodeUnit): Scan {
    match s
    case Outside(d) =>
      if c == QUOTE then Inside(d)
      else if c == OPEN_BRACE || c == OPEN_BRACKET then Outside(d + 1)
      else if c == CLOSE_BRACE || c == CLOSE_BRACKET then (if d == 0 then Bad else Outside(d - 1))
      else if c == BACKSLASH then Bad
      else s
    case Inside(d) =>
      if c == QUOTE then Outside(d) else if c == BACKSLASH then AfterBackslash(d) else s
    case AfterBackslash(d) => if c == OPEN_BRACE then Bad else Inside(d)
    case Bad => Bad
  }

  function Run(s: Scan, t: Text): Scan
    decreases |t|
  {
    if t == [] then s else Run(Next(s, t[0]), t[1..])
  }

  lemma {:induction false} RunConcat(s: Scan, a: Text, b: Text)
    ensures Run(s, a + b) == Run(Run(s, a), b)
    decreases |a|
  {
    if a == [] {
      assert a + b == b;
    } else {
      RunConcat(Next(s, a[0]), a[1..], b);
      assert (a + b)[1..] == a[1..] + b;
    }
  }

  lemma {:induction false} RunBad(t: Text)
    ensures Run(Bad, t) == Bad
    decreases |t|
  {
    if t != [] {
      RunBad(t[1..]);
    }
  }

  predicate PlainInString(c: CodeUnit) { c != QUOTE && c != BACKSLASH }

  lemma {:induction false} RunPlain(t: Text, d: nat)
    requires forall i :: 0 <= i < |t| ==> PlainInString(t[i])
    ensures Run(Inside(d), t) == Inside(d)
    decreases |t|
  {
    if t != [] {
      RunPlain(t[1..], d);
    }
  }

  lemma RunEscapeUnit(c: CodeUnit, d: nat)
    ensures Run(Inside(d), EscapeUnit(c)) == Inside(d)
  {
    if ShortEscape(c) != 0 {
      assert Run(AfterBackslash(d), [ShortEscape(c)]) == Inside(d);
      assert EscapeUnit(c)[1..] == [ShortEscape(c)];
    } else if c < 0x20 || IsHighSurrogate(c) || IsLowSurrogate(c) {
      var t := EscapeUnit(c);
      assert t[1..][1..] == Hex4(c);
      RunPlain(Hex4(c), d);
      assert Run(Inside(d), t) == Run(AfterBackslash(d), t[1..]) == Run(Inside(d), t[1..][1..]);
    } else {
      RunPlain([c], d);
    }
  }

  lemma {:induction false} RunEscaped(s: Text, d: nat)
    ensures Run(Inside(d), Escaped(s)) == Inside(d)
    decreases |s|
  {
    if s != [] {
      if |s| >= 2 && IsHighSurrogate(s[0]) && IsLowSurrogate(s[1]) {
        RunEscaped(s[2..], d);
        RunPlain(s[..2], d);
        RunConcat(Inside(d), s[..2], Escaped(s[2..]));
      } else {
        RunEscaped(s[1..], d);
        RunEscapeUnit(s[0], d);
        RunConcat(Inside(d), EscapeUnit(s[0]), Escaped(s[1..]));
      }
    }
  }

  lemma RunQuoted(s: Text, d: nat)
    ensures Run(Outside(d), Quoted(s)) == Outside(d)
  {
    RunEscaped(s, d);
    RunConcat(Inside(d), Escaped(s), [QUOTE]);
    assert Quoted(s)[1..] == Escaped(s) + [QUOTE];
    assert Run(Outside(d), [QUOTE][1..]) == Outside(d);
  }

  lemma {:induction false} RunNumber(t: Text, d: nat)
    requires forall i :: 0 <= i < |t| ==> IsNumberUnit(t[i])
    ensures Run(Outside(d), t) == Outside(d)
    decreases |t|
  {
    if t != [] {
      RunNumber(t[1..], d);
    }
  }

  lemma RunWords(d: nat)
    ensures Run(Outside(d), NULL_TEXT) == Outside(d)
    ensures Run(Outside(d), TRUE_TEXT) == Outside(d)
    ensures Run(Outside(d), FALSE_TEXT) == Outside(d)
  {
    forall t: Text | t == NULL_TEXT || t == TRUE_TEXT || t == FALSE_TEXT
      ensures Run(Outside(d), t) == Outside(d)
    {
      RunLetters(t, d);
    }
  }

  lemma {:induction false} RunLetters(t: Text, d: nat)
    requires forall i :: 0 <= i < |t| ==> 0x61 <= t[i] <= 0x7A
    ensures Run(Outside(d), t) == Outside(d)
    decreases |t|
  {
    if t != [] {
      RunLetters(t[1..], d);
    }
  }

  /** Reading the comma-separated list of texts that each come back to their starting depth. */
  lemma {:induction false} RunJoin(parts: seq<Text>, d: nat)
    requires forall i :: 0 <= i < |parts| ==> Run(Outside(d), parts[i]) == Outside(d)
    ensures Run(Outside(d), Join(parts)) == Outside(d)
  {
    if |parts| > 1 {
      RunJoin(parts[1..], d);
      RunConcat(Outside(d), parts[0], [COMMA] + Join(parts[1..]));
      assert parts[0] + [COMMA] + Join(parts[1..]) == parts[0] + ([COMMA] + Join(parts[1..]));
      assert ([COMMA] + Join(parts[1..]))[1..] == Join(parts[1..]);
    }
  }

  lemma RunWrapped(open: CodeUnit, body: Text, close: CodeUnit, d: nat)
    requires open == OPEN_BRACE || open == OPEN_BRACKET
    requires close == CLOSE_BRACE || close == CLOSE_BRACKET
    requires Run(Outside(d + 1), body) == Outside(d + 1)
    ensures Run(Outside(d), [open] + body + [close]) == Outside(d)
  {
    var t := [open] + body + [close];
    RunConcat(Outside(d + 1), body, [close]);
    assert t[1..] == body + [close];
    assert Run(Outside(d + 1), [close]) == Outside(d);
  }

  lemma RunMember(key: Text, value: Text, d: nat)
    requires Run(Outside(d), value) == Outside(d)
    ensures Run(Outside(d), Quoted(key) + [COLON] + value) == Outside(d)
  {
    RunQuoted(key, d);
    RunConcat(Outside(d), Quoted(key), [COLON]);
    RunConcat(Outside(d), Quoted(key) + [COLON], value);
    assert Run(Outside(d), [COLON]) == Outside(d);
  }

  /** Printed values come back to the depth they started at and never go below it. */
  lemma {:induction false} RunPrint(v: Json, d: nat)
    requires WellFormed(v)
    ensures Run(Outside(d), Print(v)) == Outside(d)
    decreases v, 0
  {
    match v
    case Null => RunWords(d);
    case Bool(_) => RunWords(d);
    case Num(token) => RunNumber(token, d);
    case Str(s) => RunQuoted(s, d);
    case Arr(items) =>
      forall i | 0 <= i < |items| ensures Run(Outside(d + 1), PrintItems(items)[i]) == Outside(d + 1) {
        RunPrint(items[i], d + 1);
      }
      RunJoin(PrintItems(items), d + 1);
      RunWrapped(OPEN_BRACKET, Join(PrintItems(items)), CLOSE_BRACKET, d);
    case Obj(members) =>
      RunMembers(members, d + 1);
      RunWrapped(OPEN_BRACE, Join(PrintMembers(members)), CLOSE_BRACE, d);
  }

  lemma {:induction false} RunMembers(ms: seq<Member<Json>>, d: nat)
    requires WellFormed(Obj(ms))
    ensures Run(Outside(d), Join(PrintMembers(ms))) == Outside(d)
    decreases ms, 1
  {
    forall i | 0 <= i < |ms| ensures Run(Outside(d), PrintMembers(ms)[i]) == Outside(d) {
      RunPrint(ms[i].value, d);
      RunMember(ms[i].key, Print(ms[i].value), d);
    }
    RunJoin(PrintMembers(ms), d);
  }

  // ---------- no printed object is a proper suffix of another ----------

  predicate Opposite(a: Scan, b: Scan) { (a.Outside? && b.Inside?) || (a.Inside? && b.Outside?) }

  /** Two readings of one text, one in a string where the other is not, stay opposite until one fails. */
  lemma {:induction false} OppositeReadings(a: Scan, b: Scan, t: Text)
    requires Opposite(a, b)
    ensures Opposite(Run(a, t), Run(b, t)) || Run(a, t) == Bad || Run(b, t) == Bad
    decreases |t|
  {
    if t != [] {
      var a', b' := Next(a, t[0]), Next(b, t[0]);
      if Opposite(a', b') {
        OppositeReadings(a', b', t[1..]);
      } else {
        RunBad(t[1..]);
      }
    }
  }

  /** Reading an object that starts inside another, at scan s, cannot end where the outer body ends. */
  lemma InnerObjectOverruns(s: Scan, ms: seq<Member<Json>>)
    requires WellFormed(Obj(ms))
    ensures Run(s, [OPEN_BRACE] + Join(PrintMembers(ms))) != Outside(0)
  {
    var body := Join(PrintMembers(ms));
    var inner := [OPEN_BRACE] + body;
    assert inner[1..] == body;
    match s
    case Outside(k) =>
      RunPrint(Obj(ms), k);
      RunConcat(s, inner, [CLOSE_BRACE]);
      assert Run(Outside(0), [CLOSE_BRACE]) == Bad;
    case Inside(k) =>
      RunMembers(ms, 1);
      OppositeReadings(Outside(0), s, inner);
    case AfterBackslash(k) => RunBad(body);
    case Bad => RunBad(inner);
  }

  lemma DropEnds(a: Text, p: Text, inner: Text, open: CodeUnit, close: CodeUnit)
    requires p != [] && [open] + a + [close] == p + (inner + [close])
    ensures a == p[1..] + inner
  {
    var t, u := [open] + a + [close], p + (inner + [close]);
    assert t[1..|t| - 1] == a && u[1..|u| - 1] == p[1..] + inner;
  }

  lemma NoPrintedObjectIsProperSuffix(ms: seq<Member<Json>>, ns: seq<Member<Json>>, p: Text)
    requires WellFormed(Obj(ms)) && WellFormed(Obj(ns))
    requires Print(Obj(ns)) == p + Print(Obj(ms))
    ensures p == []
  {
    if p != [] {
      var inner := [OPEN_BRACE] + Join(PrintMembers(ms));
      DropEnds(Join(PrintMembers(ns)), p, inner, OPEN_BRACE, CLOSE_BRACE);
      RunMembers(ns, 0);
      RunConcat(Outside(0), p[1..], inner);
      InnerObjectOverruns(Run(Outside(0), p[1..]), ms);
    }
  }

  // ---------- reading the text back ----------

  lemma NoAtInVersion(name: Text, version: Text, k: nat)
    requires IsNumberToken(version) && |name| < k < |name| + 1 + |version|
    ensures (name + [AT] + version)[k] != AT
  {
    assert (name + [AT] + version)[k] == version[k - |name| - 1];
  }

  lemma LastAtSplits(name1: Text, version1: Text, name2: Text, version2: Text)
    requires IsNumberToken(version1) && IsNumberToken(version2)
    requires name1 + [AT] + version1 == name2 + [AT] + version2
    ensures name1 == name2 && version1 == version2
  {
    var t, u := name1 + [AT] + version1, name2 + [AT] + version2;
    assert t[|name1|] == AT && u[|name2|] == AT;
    if |name1| < |name2| {
      NoAtInVersion(name1, version1, |name2|);
    } else if |name2| < |name1| {
      NoAtInVersion(name2, version2, |name1|);
    }
    assert t[..|name1|] == name1 && u[..|name2|] == name2;
    assert t[|name1| + 1..] == version1 && u[|name2| + 1..] == version2;
  }

  lemma EqualSuffixes(p: Text, a: Text, q: Text, b: Text)
    requires p + a == q + b && |a| <= |b|
    ensures b == b[..|b| - |a|] + a
    ensures |a| == |b| ==> p == q
  {
    assert (p + a)[|p|..] == a;
    assert (q + b)[|q|..] == b;
    assert b[|b| - |a|..] == (q + b)[|p|..];
    assert |a| == |b| ==> (p + a)[..|p|] == p && (q + b)[..|q|] == q;
  }

  lemma CanonicalObjectsAlign(p: Text, a: Json, q: Text, b: Json)
    requires WellFormed(a) && a.Obj? && WellFormed(b) && b.Obj?
    requires p + CanonicalJson(a) == q + CanonicalJson(b) && |CanonicalJson(a)| <= |CanonicalJson(b)|
    ensures p == q && CanonicalJson(a) == CanonicalJson(b)
  {
    var x, y := CanonicalJson(a), CanonicalJson(b);
    SortKeepsWellFormed(a);
    SortKeepsWellFormed(b);
    EnumeratedKeepsWellFormed(SortValue(a));
    EnumeratedKeepsWellFormed(SortValue(b));
    EqualSuffixes(p, x, q, y);
    NoPrintedObjectIsProperSuffix(
      Enumerated(SortValue(a)).members, Enumerated(SortValue(b)).members, y[..|y| - |x|]);
  }

  /** The fingerprint text determines the name, the version and the input, up to deep key order. */
  lemma FingerprintTextDetermines(
    name1: Text, version1: Text, input1: Json, name2: Text, version2: Text, input2: Json)
    requires IsNumberToken(version1) && IsNumberToken(version2)
    requires WellFormed(input1) && input1.Obj? && WellFormed(input2) && input2.Obj?
    ensures FingerprintText(name1, version1, input1) == FingerprintText(name2, version2, input2)
      <==> name1 == name2 && version1 == version2 && Same(input1, input2)
  {
    CanonicalTextDeterminesValue(input1, input2);
    if FingerprintText(name1, version1, input1) == FingerprintText(name2, version2, input2) {
      var p, q := name1 + [AT] + version1 + [COLON], name2 + [AT] + version2 + [COLON];
      if |CanonicalJson(input1)| <= |CanonicalJson(input2)| {
        CanonicalObjectsAlign(p, input1, q, input2);
      } else {
        CanonicalObjectsAlign(q, input2, p, input1);
      }
      assert p[..|p| - 1] == name1 + [AT] + version1 && q[..|q| - 1] == name2 + [AT] + version2;
      LastAtSplits(name1, version1, name2, version2);
    }
  }
}
