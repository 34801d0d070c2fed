/**
  Plain JSON values, JSON.stringify, and the two canonical printers built on them:
  rebuild-then-stringify (core) and direct recursive printing (ledger).
 */
module Json {
  import opened Utf16

  datatype Member<V> = Member(key: Text, value: V)

  /** A number is the token it prints as; an object lists its own properties in creation order. */
  datatype Json =
    | Null
    | Bool(b: bool)
    | Num(token: Text)
    | Str(s: Text)
    | Arr(items: seq<Json>)
    | Obj(members: seq<Member<Json>>)

  const QUOTE: CodeUnit := 0x22
  const BACKSLASH: CodeUnit := 0x5C
  const COMMA: CodeUnit := 0x2C
  const COLON: CodeUnit := 0x3A
  const OPEN_BRACKET: CodeUnit := 0x5B
  const CLOSE_BRACKET: CodeUnit := 0x5D
  const OPEN_BRACE: CodeUnit := 0x7B
  const CLOSE_BRACE: CodeUnit := 0x7D
  const NULL_TEXT: Text := [0x6E, 0x75, 0x6C, 0x6C]
  const TRUE_TEXT: Text := [0x74, 0x72, 0x75, 0x65]
  const FALSE_TEXT: Text := [0x66, 0x61, 0x6C, 0x73, 0x65]

  predicate IsDigit(c: CodeUnit) { 0x30 <= c <= 0x39 }

  /** The code units of printed numbers: digits, plus, minus, point and the exponent letters. */
  predicate IsNumberUnit(c: CodeUnit) {
    IsDigit(c) || c == 0x2B || c == 0x2D || c == 0x2E || c == 0x45 || c == 0x65
  }

  predicate IsNumberToken(t: Text) {
    t != [] && forall i :: 0 <= i < |t| ==> IsNumberUnit(t[i])
  }

  /** Own properties have distinct keys. */
  predicate DistinctKeys<V>(ms: seq<Member<V>>) {
    forall i, j :: 0 <= i < j < |ms| ==> ms[i].key != ms[j].key
  }

  ghost predicate WellFormed(v: Json) {
    match v
    case Num(token) => IsNumberToken(token)
    case Arr(items) => forall i :: 0 <= i < |items| ==> WellFormed(items[i])
    case Obj(members) =>
      DistinctKeys(members) && forall i :: 0 <= i < |members| ==> WellFormed(members[i].value)
    case _ => true
  }

  // ---------- property order ----------

  function LexInsert<V>(m: Member<V>, ms: seq<Member<V>>): seq<Member<V>> {
    if ms == [] || !Less(ms[0].key, m.key) then [m] + ms
    else [ms[0]] + LexInsert(m, ms[1..])
  }

  /** Object.keys(v).sort(), carrying the values along. */
  function LexSort<V>(ms: seq<Member<V>>): seq<Member<V>> {
    if ms == [] then [] else LexInsert(ms[0], LexSort(ms[1..]))
  }

  /** Value of a decimal digit string. */
  function DecimalValue(k: Text): nat {
    if k == [] then 0
    else 10 * DecimalValue(k[..|k| - 1]) + (if IsDigit(k[|k| - 1]) then k[|k| - 1] - 0x30 else 0)
  }

  /** An array index (ECMA-262, section 6.1.7): a canonical numeral below 2^32 - 1. */
  predicate IsArrayIndex(k: Text) {
    && k != []
    && (forall i :: 0 <= i < |k| ==> IsDigit(k[i]))
    && (|k| > 1 ==> k[0] != 0x30)
    && DecimalValue(k) < 0xFFFF_FFFF
  }

  function IndexMembers<V>(ms: seq<Member<V>>): seq<Member<V>> {
    if ms == [] then []
    else (if IsArrayIndex(ms[0].key) then [ms[0]] else []) + IndexMembers(ms[1..])
  }

  function NamedMembers<V>(ms: seq<Member<V>>): seq<Member<V>> {
    if ms == [] then []
    else (if IsArrayIndex(ms[0].key) then [] else [ms[0]]) + NamedMembers(ms[1..])
  }

  function IndexInsert<V>(m: Member<V>, ms: seq<Member<V>>): seq<Member<V>> {
    if ms == [] || DecimalValue(m.key) <= DecimalValue(ms[0].key) then [m] + ms
    else [ms[0]] + IndexInsert(m, ms[1..])
  }

  function IndexSort<V>(ms: seq<Member<V>>): seq<Member<V>> {
    if ms == [] then [] else IndexInsert(ms[0], IndexSort(ms[1..]))
  }

  /** Own-property order (ECMA-262, section 10.1.11): array indices ascending, then creation order. */
  function OwnOrder<V>(ms: seq<Member<V>>): seq<Member<V>> {
    IndexSort(IndexMembers(ms)) + NamedMembers(ms)
  }

  /** The value with every object, at every depth, listed in own-property order. */
  function Enumerated(v: Json): Json
    decreases v
  {
    match v
    case Arr(items) => Arr(EnumeratedItems(items))
    case Obj(members) => Obj(OwnOrder(EnumeratedMembers(members)))
    case _ => v
  }

  function EnumeratedItems(items: seq<Json>): (r: seq<Json>)
    ensures |r| == |items| && forall i :: 0 <= i < |r| ==> r[i] == Enumerated(items[i])
    decreases items
  {
    if items == [] then [] else [Enumerated(items[0])] + EnumeratedItems(items[1..])
  }

  function EnumeratedMembers(ms: seq<Member<Json>>): (r: seq<Member<Json>>)
    ensures |r| == |ms|
    ensures forall i :: 0 <= i < |r| ==> r[i] == Member(ms[i].key, Enumerated(ms[i].value))
    decreases ms
  {
    if ms == [] then [] else [Member(ms[0].key, Enumerated(ms[0].value))] + EnumeratedMembers(ms[1..])
  }

  /** sortValue: every object rebuilt with its keys added in code-unit order. */
  function SortValue(v: Json): Json
    decreases v
  {
    match v
    case Arr(items) => Arr(SortItems(items))
    case Obj(members) => Obj(LexSort(SortMembers(members)))
    case _ => v
  }

  function SortItems(items: seq<Json>): (r: seq<Json>)
    ensures |r| == |items| && forall i :: 0 <= i < |r| ==> r[i] == SortValue(items[i])
    decreases items
  {
    if items == [] then [] else [SortValue(items[0])] + SortItems(items[1..])
  }

  function SortMembers(ms: seq<Member<Json>>): (r: seq<Member<Json>>)
    ensures |r| == |ms|
    ensures forall i :: 0 <= i < |r| ==> r[i] == Member(ms[i].key, SortValue(ms[i].value))
    decreases ms
  {
    if ms == [] then [] else [Member(ms[0].key, SortValue(ms[0].value))] + SortMembers(ms[1..])
  }

  // ---------- printing ----------

  predicate IsHighSurrogate(c: CodeUnit) { 0xD800 <= c <= 0xDBFF }
  predicate IsLowSurrogate(c: CodeUnit) { 0xDC00 <= c <= 0xDFFF }

  function HexDigit(n: nat): CodeUnit
    requires n < 16
  {
    if n < 10 then 0x30 + n else 0x57 + n
  }

  function Hex4(c: CodeUnit): Text {
    var n := c;
    [HexDigit(n / 0x1000), HexDigit(n / 0x100 % 16), HexDigit(n / 16 % 16), HexDigit(n % 16)]
  }

  /** The unit after the backslash for the escapes of ECMA-262, section 25.5.2.3, table 76; 0 when there is none. */
  function ShortEscape(c: CodeUnit): CodeUnit {
    if c == 0x08 then 0x62
    else if c == 0x09 then 0x74
    else if c == 0x0A then 0x6E
    else if c == 0x0C then 0x66
    else if c == 0x0D then 0x72
    else if c == QUOTE then QUOTE
    else if c == BACKSLASH then BACKSLASH
    else 0
  }

  function EscapeUnit(c: CodeUnit): Text {
    if ShortEscape(c) != 0 then [BACKSLASH, ShortEscape(c)]
    else if c < 0x20 || IsHighSurrogate(c) || IsLowSurrogate(c) then [BACKSLASH, 0x75] + Hex4(c)
    else [c]
  }

  /** The body of QuoteJSONString: surrogate pairs are copied, unpaired surrogates escaped. */
  function Escaped(s: Text): Text {
    if s == [] then []
    else if |s| >= 2 && IsHighSurrogate(s[0]) && IsLowSurrogate(s[1]) then s[..2] + Escaped(s[2..])
    else EscapeUnit(s[0]) + Escaped(s[1..])
  }

  function Quoted(s: Text): Text { [QUOTE] + Escaped(s) + [QUOTE] }

  function Join(parts: seq<Text>): Text {
    if parts == [] then []
    else if |parts| == 1 then parts[0]
    else parts[0] + [COMMA] + Join(parts[1..])
  }

  /** The text of a value whose objects are listed in the order they print in. */
  function Print(v: Json): Text
    decreases v
  {
    match v
    case Null => NULL_TEXT
    case Bool(b) => if b then TRUE_TEXT else FALSE_TEXT
    case Num(token) => token
    case Str(s) => Quoted(s)
    case Arr(items) => [OPEN_BRACKET] + Join(PrintItems(items)) + [CLOSE_BRACKET]
    case Obj(members) => [OPEN_BRACE] + Join(PrintMembers(members)) + [CLOSE_BRACE]
  }

  function PrintItems(items: seq<Json>): (r: seq<Text>)
    ensures |r| == |items| && forall i :: 0 <= i < |r| ==> r[i] == Print(items[i])
    decreases items
  {
    if items == [] then [] else [Print(items[0])] + PrintItems(items[1..])
  }

  function PrintMembers(ms: seq<Member<Json>>): (r: seq<Text>)
    ensures |r| == |ms|
    ensures forall i :: 0 <= i < |r| ==> r[i] == Quoted(ms[i].key) + [COLON] + Print(ms[i].value)
    decreases ms
  {
    if ms == [] then []
    else [Quoted(ms[0].key) + [COLON] + Print(ms[0].value)] + PrintMembers(ms[1..])
  }

  /** JSON.stringify of a plain value. */
  function Stringify(v: Json): Text { Print(Enumerated(v)) }

  /** canonicalJson of packages/core. */
  function CanonicalJson(v: Json): Text { Stringify(SortValue(v)) }
}
