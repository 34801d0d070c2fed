/**
  A parser for compact JSON text (RFC 8259, sections 4 to 7, without insignificant white space)
  and the proof that it inverts the printer.
 */
module JsonParser {
  import opened Utf16
  import opened Json

  datatype Parsed<+T> = Fail | Ok(value: T, rest: Text)

  function HexValue(c: CodeUnit): int {
    if IsDigit(c) then c - 0x30 else if 0x61 <= c <= 0x66 then c - 0x57 else -1
  }

  /** The four digits after a backslash and the letter u; -1 when they are not four hex digits. */
  function Hex4Value(t: Text): (n: int)
    ensures n == -1 || (0 <= n < 0x1_0000 && |t| >= 4)
  {
    if |t| < 4 || HexValue(t[0]) < 0 || HexValue(t[1]) < 0 || HexValue(t[2]) < 0 || HexValue(t[3]) < 0 then -1
    else HexValue(t[0]) * 0x1000 + HexValue(t[1]) * 0x100 + HexValue(t[2]) * 0x10 + HexValue(t[3])
  }

  /** The unit a two-character escape stands for; -1 when the letter is not one of them. */
  function ShortUnescape(e: CodeUnit): int {
    if e == 0x62 then 0x08
    else if e == 0x74 then 0x09
    else if e == 0x6E then 0x0A
    else if e == 0x66 then 0x0C
    else if e == 0x72 then 0x0D
    else if e == QUOTE || e == BACKSLASH || e == 0x2F then e
    else -1
  }

  function Prepend(c: CodeUnit, p: Parsed<Text>): Parsed<Text> {
    if p.Fail? then Fail else Ok([c] + p.value, p.rest)
  }

  /** Reads a string body up to and including the closing quote. */
  function ParseString(t: Text): (r: Parsed<Text>)
    ensures r.Ok? ==> |r.rest| < |t|
    decreases |t|
  {
    if t == [] || t[0] < 0x20 then Fail
    else if t[0] == QUOTE then Ok([], t[1..])
    else if t[0] != BACKSLASH then Prepend(t[0], ParseString(t[1..]))
    else if |t| < 2 then Fail
    else if ShortUnescape(t[1]) >= 0 then Prepend(ShortUnescape(t[1]), ParseString(t[2..]))
    else if t[1] == 0x75 && Hex4Value(t[2..]) >= 0 then Prepend(Hex4Value(t[2..]), ParseString(t[6..]))
    else Fail
  }

  function NumberLength(t: Text): (n: nat)
    ensures n <= |t|
  {
    if t == [] || !IsNumberUnit(t[0]) then 0 else 1 + NumberLength(t[1..])
  }

  function ParseValue(t: Text): (r: Parsed<Json>)
    ensures r.Ok? ==> |r.rest| < |t|
    decreases |t|, 0
  {
    if t == [] then Fail
    else if t[0] == QUOTE then
      var s := ParseString(t[1..]);
      if s.Fail? then Fail else Ok(Str(s.value), s.rest)
    else if t[0] == OPEN_BRACKET then
      if |t| > 1 && t[1] == CLOSE_BRACKET then Ok(Arr([]), t[2..])
      else
        var items := ParseItems(t[1..]);
        if items.Fail? then Fail else Ok(Arr(items.value), items.rest)
    else if t[0] == OPEN_BRACE then
      if |t| > 1 && t[1] == CLOSE_BRACE then Ok(Obj([]), t[2..])
      else
        var members := ParseMembers(t[1..]);
        if members.Fail? then Fail else Ok(Obj(members.value), members.rest)
    else if IsNumberUnit(t[0]) then Ok(Num(t[..NumberLength(t)]), t[NumberLength(t)..])
    else if NULL_TEXT <= t then Ok(Null, t[4..])
    else if TRUE_TEXT <= t then Ok(Bool(true), t[4..])
    else if FALSE_TEXT <= t then Ok(Bool(false), t[5..])
    else Fail
  }

  /** One or more values separated by commas, then the closing bracket. */
  function ParseItems(t: Text): (r: Parsed<seq<Json>>)
    ensures r.Ok? ==> |r.rest| < |t|
    decreases |t|, 1
  {
    var v := ParseValue(t);
    if v.Fail? || v.rest == [] then Fail
    else if v.rest[0] == CLOSE_BRACKET then Ok([v.value], v.rest[1..])
    else if v.rest[0] != COMMA then Fail
    else
      var more := ParseItems(v.rest[1..]);
      if more.Fail? then Fail else Ok([v.value] + more.value, more.rest)
  }

  /** One or more members separated by commas, then the closing brace. */
  function ParseMembers(t: Text): (r: Parsed<seq<Member<Json>>>)
    ensures r.Ok? ==> |r.rest| < |t|
    decreases |t|, 1
  {
    if t == [] || t[0] != QUOTE then Fail
    else
      var k := ParseString(t[1..]);
      if k.Fail? || k.rest == [] || k.rest[0] != COLON then Fail
      else
        var v := ParseValue(k.rest[1..]);
        if v.Fail? || v.rest == [] then Fail
        else if v.rest[0] == CLOSE_BRACE then Ok([Member(k.value, v.value)], v.rest[1..])
        else if v.rest[0] != COMMA then Fail
        else
          var more := ParseMembers(v.rest[1..]);
          if more.Fail? then Fail else Ok([Member(k.value, v.value)] + more.value, more.rest)
  }

  // ---------- the parser inverts the printer ----------

  lemma NibblesSum(c: nat)
    requires c < 0x1_0000
    ensures c / 0x1000 * 0x1000 + c / 0x100 % 16 * 0x100 + c / 16 % 16 * 0x10 + c % 16 == c
  {
    assert c / 0x100 == c / 16 / 16 && c / 0x1000 == c / 16 / 16 / 16;
  }

  lemma HexDigitRoundTrip(n: nat)
    requires n < 16
    ensures HexValue(HexDigit(n)) == n
  {}

  lemma Hex4RoundTrip(c: CodeUnit, tail: Text)
    ensures Hex4Value(Hex4(c) + tail) == c
  {
    HexDigitRoundTrip(c / 0x1000);
    HexDigitRoundTrip(c / 0x100 % 16);
    HexDigitRoundTrip(c / 16 % 16);
    HexDigitRoundTrip(c % 16);
    NibblesSum(c);
  }

  lemma ParsePlainUnit(t: Text)
    requires t != [] && ShortEscape(t[0]) == 0 && t[0] >= 0x20
    ensures ParseString(t) == Prepend(t[0], ParseString(t[1..]))
  {}

  lemma ParseShortEscape(c: CodeUnit, t: Text)
    requires |t| >= 2 && ShortEscape(c) != 0 && t[0] == BACKSLASH && t[1] == ShortEscape(c)
    ensures ParseString(t) == Prepend(c, ParseString(t[2..]))
  {}

  lemma ParseHexEscape(c: CodeUnit, t: Text)
    requires |t| >= 6 && t[0] == BACKSLASH && t[1] == 0x75 && Hex4Value(t[2..]) == c
    ensures ParseString(t) == Prepend(c, ParseString(t[6..]))
  {}

  lemma UnitRoundTrip(c: CodeUnit, tail: Text)
    ensures ParseString(EscapeUnit(c) + tail) == Prepend(c, ParseString(tail))
  {
    hide ParseString, Hex4Value;
    var e := EscapeUnit(c);
    var t := e + tail;
    assert t[|e|..] == tail;
    if ShortEscape(c) != 0 {
      ParseShortEscape(c, t);
    } else if c < 0x20 || IsHighSurrogate(c) || IsLowSurrogate(c) {
      Hex4RoundTrip(c, tail);
      assert t[2..] == Hex4(c) + tail;
      ParseHexEscape(c, t);
    } else {
      ParsePlainUnit(t);
    }
  }

  lemma PairRoundTrip(h: CodeUnit, l: CodeUnit, tail: Text)
    requires IsHighSurrogate(h) && IsLowSurrogate(l)
    ensures ParseString([h, l] + tail) == Prepend(h, Prepend(l, ParseString(tail)))
  {
    hide ParseString;
    var t := [h, l] + tail;
    ParsePlainUnit(t);
    ParsePlainUnit(t[1..]);
    assert t[1..][1..] == tail;
  }

  predicate StartsWithPair(s: Text) { |s| >= 2 && IsHighSurrogate(s[0]) && IsLowSurrogate(s[1]) }

  lemma Associative(a: Text, b: Text, c: Text)
    ensures a + b + c == a + (b + c)
  {}

  lemma StringPairStep(s: Text, close: Text, rest: Text)
    requires StartsWithPair(s) && ParseString(Escaped(s[2..]) + close) == Ok(s[2..], rest)
    ensures ParseString(Escaped(s) + close) == Ok(s, rest)
  {
    hide ParseString, EscapeUnit;
    PairRoundTrip(s[0], s[1], Escaped(s[2..]) + close);
    assert Escaped(s) + close == [s[0], s[1]] + (Escaped(s[2..]) + close);
    assert [s[0]] + ([s[1]] + s[2..]) == s;
  }

  lemma StringUnitStep(s: Text, close: Text, rest: Text)
    requires s != [] && !StartsWithPair(s) && ParseString(Escaped(s[1..]) + close) == Ok(s[1..], rest)
    ensures ParseString(Escaped(s) + close) == Ok(s, rest)
  {
    hide ParseString, EscapeUnit;
    var e, tail := EscapeUnit(s[0]), Escaped(s[1..]);
    Associative(e, tail, close);
    UnitRoundTrip(s[0], tail + close);
    assert [s[0]] + s[1..] == s;
  }

  lemma {:induction false} StringRoundTrip(s: Text, rest: Text)
    ensures ParseString(Escaped(s) + ([QUOTE] + rest)) == Ok(s, rest)
    decreases |s|
  {
    var close := [QUOTE] + rest;
    if s == [] {
      assert Escaped(s) + close == close && close[1..] == rest;
    } else if StartsWithPair(s) {
      StringRoundTrip(s[2..], rest);
      StringPairStep(s, close, rest);
    } else {
      StringRoundTrip(s[1..], rest);
      StringUnitStep(s, close, rest);
    }
  }

  predicate NoNumberAhead(rest: Text) { rest == [] || !IsNumberUnit(rest[0]) }

  lemma {:induction false} NumberLengthOfToken(token: Text, rest: Text)
    requires forall i :: 0 <= i < |token| ==> IsNumberUnit(token[i])
    requires NoNumberAhead(rest)
    ensures NumberLength(token + rest) == |token|
  {
    if token == [] {
      assert token + rest == rest;
    } else {
      NumberLengthOfToken(token[1..], rest);
      assert (token + rest)[1..] == token[1..] + rest;
    }
  }

  lemma JoinStep(parts: seq<Text>, close: Text)
    requires parts != []
    ensures Join(parts) + close
         == parts[0] + (if |parts| == 1 then close else [COMMA] + (Join(parts[1..]) + close))
  {}

  /** No printed value starts with a closing bracket or brace. */
  lemma PrintStart(v: Json)
    requires WellFormed(v)
    ensures Print(v) != [] && Print(v)[0] != CLOSE_BRACKET && Print(v)[0] != CLOSE_BRACE
  {}

  lemma ParseNumber(token: Text, rest: Text)
    requires IsNumberToken(token) && NoNumberAhead(rest)
    ensures ParseValue(token + rest) == Ok(Num(token), rest)
  {
    NumberLengthOfToken(token, rest);
    assert (token + rest)[0] == token[0];
    assert (token + rest)[..|token|] == token && (token + rest)[|token|..] == rest;
  }

  lemma ParseLiterals(rest: Text)
    ensures ParseValue(NULL_TEXT + rest) == Ok(Null, rest)
    ensures ParseValue(TRUE_TEXT + rest) == Ok(Bool(true), rest)
    ensures ParseValue(FALSE_TEXT + rest) == Ok(Bool(false), rest)
  {
    assert (NULL_TEXT + rest)[4..] == rest;
    assert (TRUE_TEXT + rest)[4..] == rest;
    assert (FALSE_TEXT + rest)[5..] == rest;
  }

  lemma ParseQuoted(s: Text, rest: Text)
    ensures ParseValue(Quoted(s) + rest) == Ok(Str(s), rest)
  {
    hide ParseString, ParseItems, ParseMembers, Escaped;
    StringRoundTrip(s, rest);
    assert (Quoted(s) + rest)[1..] == Escaped(s) + ([QUOTE] + rest);
  }

  lemma ParseBrackets(body: Text, rest: Text, items: seq<Json>)
    requires body != [] ==> body[0] != CLOSE_BRACKET && ParseItems(body + ([CLOSE_BRACKET] + rest)) == Ok(items, rest)
    requires body == [] ==> items == []
    ensures ParseValue([OPEN_BRACKET] + body + [CLOSE_BRACKET] + rest) == Ok(Arr(items), rest)
  {
    hide ParseString, ParseItems, ParseMembers;
    var t := [OPEN_BRACKET] + body + [CLOSE_BRACKET] + rest;
    assert t[1..] == body + ([CLOSE_BRACKET] + rest);
    if body == [] {
      assert t[2..] == rest;
    }
  }

  lemma ParseBraces(body: Text, rest: Text, members: seq<Member<Json>>)
    requires body != [] ==> body[0] != CLOSE_BRACE && ParseMembers(body + ([CLOSE_BRACE] + rest)) == Ok(members, rest)
    requires body == [] ==> members == []
    ensures ParseValue([OPEN_BRACE] + body + [CLOSE_BRACE] + rest) == Ok(Obj(members), rest)
  {
    hide ParseString, ParseItems, ParseMembers;
    var t := [OPEN_BRACE] + body + [CLOSE_BRACE] + rest;
    assert t[1..] == body + ([CLOSE_BRACE] + rest);
    if body == [] {
      assert t[2..] == rest;
    }
  }

  lemma {:induction false} ValueRoundTrip(v: Json, rest: Text)
    requires WellFormed(v) && NoNumberAhead(rest)
    ensures ParseValue(Print(v) + rest) == Ok(v, rest)
    decreases v, 0
  {
    match v
    case Null => ParseLiterals(rest);
    case Bool(b) => ParseLiterals(rest);
    case Num(token) => ParseNumber(token, rest);
    case Str(s) => ParseQuoted(s, rest);
    case Arr(items) =>
      if items != [] {
        ItemsRoundTrip(items, rest);
      }
      ParseBrackets(Join(PrintItems(items)), rest, items);
    case Obj(members) =>
      if members != [] {
        MembersRoundTrip(members, rest);
      }
      ParseBraces(Join(PrintMembers(members)), rest, members);
  }

  lemma ParseItemStep(v: Json, after: Text)
    requires ParseValue(Print(v) + after) == Ok(v, after)
    requires after != [] && (after[0] == CLOSE_BRACKET || after[0] == COMMA)
    ensures ParseItems(Print(v) + after)
         == if after[0] == CLOSE_BRACKET then Ok([v], after[1..])
            else
              var more := ParseItems(after[1..]);
              if more.Fail? then Fail else Ok([v] + more.value, more.rest)
  {}

  lemma ItemsText(items: seq<Json>, close: Text)
    requires items != [] && Print(items[0]) != []
    ensures Join(PrintItems(items)) != [] && Join(PrintItems(items))[0] == Print(items[0])[0]
    ensures Join(PrintItems(items)) + close
         == Print(items[0]) + (if |items| == 1 then close else [COMMA] + (Join(PrintItems(items[1..])) + close))
  {
    hide Print;
    JoinStep(PrintItems(items), close);
  }

  lemma {:induction false} ItemsRoundTrip(items: seq<Json>, rest: Text)
    requires items != [] && forall i :: 0 <= i < |items| ==> WellFormed(items[i])
    ensures Join(PrintItems(items)) != [] && Join(PrintItems(items))[0] != CLOSE_BRACKET
    ensures ParseItems(Join(PrintItems(items)) + ([CLOSE_BRACKET] + rest)) == Ok(items, rest)
    decreases items, 1
  {
    hide ParseString, ParseValue, ParseItems, ParseMembers, Print, PrintItems, Join, WellFormed;
    var close := [CLOSE_BRACKET] + rest;
    PrintStart(items[0]);
    ItemsText(items, close);
    if |items| == 1 {
      ValueRoundTrip(items[0], close);
      ParseItemStep(items[0], close);
      assert items == [items[0]] && close[1..] == rest;
    } else {
      var more := Join(PrintItems(items[1..])) + close;
      ValueRoundTrip(items[0], [COMMA] + more);
      ParseItemStep(items[0], [COMMA] + more);
      assert ([COMMA] + more)[1..] == more;
      ItemsRoundTrip(items[1..], rest);
      assert items == [items[0]] + items[1..];
    }
  }

  lemma MemberText(key: Text, printed: Text, after: Text)
    ensures var t := Quoted(key) + [COLON] + printed + after;
      t != [] && t[0] == QUOTE && t[1..] == Escaped(key) + ([QUOTE] + ([COLON] + (printed + after)))
  {
    hide Escaped;
  }

  lemma ParseMemberStep(key: Text, v: Json, after: Text)
    requires ParseValue(Print(v) + after) == Ok(v, after)
    requires after != [] && (after[0] == CLOSE_BRACE || after[0] == COMMA)
    ensures ParseMembers(Quoted(key) + [COLON] + Print(v) + after)
         == if after[0] == CLOSE_BRACE then Ok([Member(key, v)], after[1..])
            else
              var more := ParseMembers(after[1..]);
              if more.Fail? then Fail else Ok([Member(key, v)] + more.value, more.rest)
  {
    hide ParseString, ParseValue, Escaped, Quoted, Print;
    var valueText := [COLON] + (Print(v) + after);
    MemberText(key, Print(v), after);
    StringRoundTrip(key, valueText);
    assert valueText[1..] == Print(v) + after;
  }

  lemma {:induction false} MembersRoundTrip(ms: seq<Member<Json>>, rest: Text)
    requires ms != [] && forall i :: 0 <= i < |ms| ==> WellFormed(ms[i].value)
    ensures Join(PrintMembers(ms)) != [] && Join(PrintMembers(ms))[0] == QUOTE
    ensures ParseMembers(Join(PrintMembers(ms)) + ([CLOSE_BRACE] + rest)) == Ok(ms, rest)
    decreases ms, 1
  {
    hide ParseString, ParseValue, ParseItems, ParseMembers;
    var close := [CLOSE_BRACE] + rest;
    var head := Quoted(ms[0].key) + [COLON] + Print(ms[0].value);
    JoinStep(PrintMembers(ms), close);
    assert head[0] == QUOTE;
    if |ms| == 1 {
      assert ms == [Member(ms[0].key, ms[0].value)];
      ValueRoundTrip(ms[0].value, close);
      ParseMemberStep(ms[0].key, ms[0].value, close);
      assert close[1..] == rest;
    } else {
      var more := Join(PrintMembers(ms[1..])) + close;
      assert ms == [Member(ms[0].key, ms[0].value)] + ms[1..];
      ValueRoundTrip(ms[0].value, [COMMA] + more);
      ParseMemberStep(ms[0].key, ms[0].value, [COMMA] + more);
      assert ([COMMA] + more)[1..] == more;
      MembersRoundTrip(ms[1..], rest);
    }
  }

  /** Printing loses nothing: distinct well-formed values print differently. */
  lemma PrintInjective(v: Json, w: Json)
    requires WellFormed(v) && WellFormed(w) && Print(v) == Print(w)
    ensures v == w
  {
    ValueRoundTrip(v, []);
    ValueRoundTrip(w, []);
    assert Print(v) + [] == Print(v) && Print(w) + [] == Print(w);
  }
}
