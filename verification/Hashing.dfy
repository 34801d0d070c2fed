/** stableHash: two 32-bit lanes mixed per code unit, a finaliser, and 53 bits printed in hexadecimal. */
module Hashing {
  import opened Utf16
  import opened Word32
  import opened Json
  import opened JsonParser

  datatype Lanes = Lanes(h1: Word, h2: Word)

  const UNIT_FACTOR_1: Word := 2654435761
  const UNIT_FACTOR_2: Word := 1597334677
  const FINAL_FACTOR_1: Word := 2246822507
  const FINAL_FACTOR_2: Word := 3266489909
  // Inverses modulo 2^32 of the factors the proofs undo.
  const UNIT_INVERSE_1: Word := 244002641
  const UNIT_INVERSE_2: Word := 851723965
  const FINAL_INVERSE_1: Word := 2781581891

  function Seed(length: nat): Lanes {
    Lanes(Xor(0xDEADBEEF, length % MODULUS), Xor(0x41C6CE57, length % MODULUS))
  }

  function Step(s: Lanes, c: CodeUnit): Lanes {
    Lanes(Imul(Xor(s.h1, c), UNIT_FACTOR_1), Imul(Xor(s.h2, c), UNIT_FACTOR_2))
  }

  function Absorb(s: Lanes, t: Text): Lanes
    decreases |t|
  {
    if t == [] then s else Absorb(Step(s, t[0]), t[1..])
  }

  function Stir1(x: Word): Word { Imul(Xor(x, ShiftRight(x, 16)), FINAL_FACTOR_1) }
  function Stir2(x: Word): Word { Imul(Xor(x, ShiftRight(x, 13)), FINAL_FACTOR_2) }

  /** The last two updates; the second reads the first one's result. */
  function Finish(s: Lanes): Lanes {
    var h1 := Xor(Stir1(s.h1), Stir2(s.h2));
    Lanes(h1, Xor(Stir1(s.h2), Stir2(h1)))
  }

  /** The low 21 bits of the second lane above the whole first lane. */
  function Lane53(s: Lanes): nat { 0x1_0000_0000 * (s.h2 % 0x20_0000) + s.h1 }

  function ToHex(n: nat): Text {
    if n < 16 then [HexDigit(n)] else ToHex(n / 16) + [HexDigit(n % 16)]
  }

  function PadStart(t: Text, width: nat): Text
    decreases width - |t|
  {
    if |t| >= width then t else PadStart([0x30] + t, width)
  }

  /** The lanes of a text before the last line drops 11 bits. */
  function FinalLanes(t: Text): Lanes { Finish(Absorb(Seed(|t|), t)) }

  function Digest(s: Lanes): Text { PadStart(ToHex(Lane53(s)), 14) }

  function StableHash(t: Text): Text { Digest(FinalLanes(t)) }

  // ---------- the loop ----------

  lemma {:induction false} AbsorbOneMore(s: Lanes, t: Text, c: CodeUnit)
    ensures Absorb(s, t + [c]) == Step(Absorb(s, t), c)
    decreases |t|
  {
    if t == [] {
      assert (t + [c])[1..] == [];
    } else {
      AbsorbOneMore(Step(s, t[0]), t[1..], c);
      assert (t + [c])[1..] == t[1..] + [c];
    }
  }

  method ComputeStableHash(text: Text) returns (digest: Text)
    ensures digest == StableHash(text)
  {
    hide Xor, Imul, ShiftRight, PadStart, ToHex;
    var h1 := Xor(0xDEADBEEF, |text| % MODULUS);
    var h2 := Xor(0x41C6CE57, |text| % MODULUS);
    for i := 0 to |text|
      invariant Lanes(h1, h2) == Absorb(Seed(|text|), text[..i])
    {
      AbsorbOneMore(Seed(|text|), text[..i], text[i]);
      assert text[..i + 1] == text[..i] + [text[i]];
      var ch := text[i];
      h1 := Imul(Xor(h1, ch), UNIT_FACTOR_1);
      h2 := Imul(Xor(h2, ch), UNIT_FACTOR_2);
    }
    assert text[..|text|] == text;
    h1 := Xor(Stir1(h1), Stir2(h2));
    h2 := Xor(Stir1(h2), Stir2(h1));
    digest := PadStart(ToHex(Lane53(Lanes(h1, h2))), 14);
  }

  // ---------- every step can be undone ----------

  function Unstep(s: Lanes, c: CodeUnit): Lanes {
    Lanes(Xor(Imul(s.h1, UNIT_INVERSE_1), c), Xor(Imul(s.h2, UNIT_INVERSE_2), c))
  }

  function Unstir1(y: Word): Word {
    var x := Imul(y, FINAL_INVERSE_1);
    Xor(x, ShiftRight(x, 16))
  }

  function Unfinish(s: Lanes): Lanes {
    var h2 := Unstir1(Xor(s.h2, Stir2(s.h1)));
    Lanes(Unstir1(Xor(s.h1, Stir2(h2))), h2)
  }

  lemma FactorsInvert(x: Word)
    ensures Imul(Imul(x, UNIT_FACTOR_1), UNIT_INVERSE_1) == x && Imul(Imul(x, UNIT_INVERSE_1), UNIT_FACTOR_1) == x
    ensures Imul(Imul(x, UNIT_FACTOR_2), UNIT_INVERSE_2) == x && Imul(Imul(x, UNIT_INVERSE_2), UNIT_FACTOR_2) == x
    ensures Imul(Imul(x, FINAL_FACTOR_1), FINAL_INVERSE_1) == x && Imul(Imul(x, FINAL_INVERSE_1), FINAL_FACTOR_1) == x
  {
    ImulInverts(x, UNIT_FACTOR_1, UNIT_INVERSE_1, 150801925);
    ImulInverts(x, UNIT_INVERSE_1, UNIT_FACTOR_1, 150801925);
    ImulInverts(x, UNIT_FACTOR_2, UNIT_INVERSE_2, 316763349);
    ImulInverts(x, UNIT_INVERSE_2, UNIT_FACTOR_2, 316763349);
    ImulInverts(x, FINAL_FACTOR_1, FINAL_INVERSE_1, 1455126516);
    ImulInverts(x, FINAL_INVERSE_1, FINAL_FACTOR_1, 1455126516);
  }

  /** For each code unit, the loop body is a bijection on the two lanes. */
  lemma StepIsBijective(s: Lanes, c: CodeUnit)
    ensures Unstep(Step(s, c), c) == s && Step(Unstep(s, c), c) == s
  {
    FactorsInvert(Xor(s.h1, c));
    FactorsInvert(Xor(s.h2, c));
    FactorsInvert(s.h1);
    FactorsInvert(s.h2);
    XorCancels(s.h1, c);
    XorCancels(s.h2, c);
    XorCancels(Imul(s.h1, UNIT_INVERSE_1), c);
    XorCancels(Imul(s.h2, UNIT_INVERSE_2), c);
  }

  lemma Stir1IsBijective(x: Word)
    ensures Unstir1(Stir1(x)) == x && Stir1(Unstir1(x)) == x
  {
    FactorsInvert(Xor(x, ShiftRight(x, 16)));
    XorShift16Inverts(x);
    FactorsInvert(x);
    XorShift16Inverts(Imul(x, FINAL_INVERSE_1));
  }

  /** The finaliser is a bijection on the two lanes. */
  lemma FinishIsBijective(s: Lanes)
    ensures Unfinish(Finish(s)) == s && Finish(Unfinish(s)) == s
  {
    XorCancels(Stir1(s.h2), Stir2(Finish(s).h1));
    XorCancels(Stir1(s.h1), Stir2(s.h2));
    Stir1IsBijective(s.h2);
    Stir1IsBijective(s.h1);
    var h2 := Unfinish(s).h2;
    Stir1IsBijective(Xor(s.h2, Stir2(s.h1)));
    Stir1IsBijective(Xor(s.h1, Stir2(h2)));
    XorCancels(s.h1, Stir2(h2));
    XorCancels(s.h2, Stir2(s.h1));
  }

  /** Both lanes keep differing while the same text is absorbed. */
  lemma {:induction false} AbsorbKeepsLanesApart(s: Lanes, r: Lanes, t: Text)
    requires s.h1 != r.h1 && s.h2 != r.h2
    ensures Absorb(s, t).h1 != Absorb(r, t).h1 && Absorb(s, t).h2 != Absorb(r, t).h2
    decreases |t|
  {
    if t != [] {
      StepIsBijective(s, t[0]);
      StepIsBijective(r, t[0]);
      AbsorbKeepsLanesApart(Step(s, t[0]), Step(r, t[0]), t[1..]);
    }
  }

  lemma DifferentUnitsPartLanes(s: Lanes, c: CodeUnit, d: CodeUnit)
    requires c != d
    ensures Step(s, c).h1 != Step(s, d).h1 && Step(s, c).h2 != Step(s, d).h2
  {
    FactorsInvert(Xor(s.h1, c));
    FactorsInvert(Xor(s.h1, d));
    FactorsInvert(Xor(s.h2, c));
    FactorsInvert(Xor(s.h2, d));
    XorRecovers(s.h1, c);
    XorRecovers(s.h1, d);
    XorRecovers(s.h2, c);
    XorRecovers(s.h2, d);
  }

  lemma XorRecovers(h: Word, c: Word)
    ensures Xor(h, Xor(h, c)) == c
  {
    XorCancels(c, h);
  }

  lemma {:induction false} AbsorbSplits(s: Lanes, a: Text, b: Text)
    ensures Absorb(s, a + b) == Absorb(Absorb(s, a), b)
    decreases |a|
  {
    if a == [] {
      assert a + b == b;
    } else {
      AbsorbSplits(Step(s, a[0]), a[1..], b);
      assert (a + b)[1..] == a[1..] + b;
    }
  }

  lemma OneUnitPartsLanes(seed: Lanes, before: Text, c: CodeUnit, d: CodeUnit, after: Text)
    requires c != d
    ensures var s, r := Absorb(seed, before + [c] + after), Absorb(seed, before + [d] + after);
      s.h1 != r.h1 && s.h2 != r.h2
  {
    var s := Absorb(seed, before);
    AbsorbSplits(seed, before + [c], after);
    AbsorbSplits(seed, before + [d], after);
    AbsorbOneMore(seed, before, c);
    AbsorbOneMore(seed, before, d);
    DifferentUnitsPartLanes(s, c, d);
    AbsorbKeepsLanesApart(Step(s, c), Step(s, d), after);
  }

  lemma FinishInjective(s: Lanes, r: Lanes)
    requires s != r
    ensures Finish(s) != Finish(r)
  {
    FinishIsBijective(s);
    FinishIsBijective(r);
  }

  lemma LanesFinishApart(t: Text, u: Text)
    requires Absorb(Seed(|t|), t) != Absorb(Seed(|u|), u)
    ensures FinalLanes(t) != FinalLanes(u)
  {
    FinishInjective(Absorb(Seed(|t|), t), Absorb(Seed(|u|), u));
  }

  /** Two texts that differ in one code unit end with different lanes. */
  lemma OneUnitChangesLanes(before: Text, c: CodeUnit, d: CodeUnit, after: Text)
    requires c != d
    ensures FinalLanes(before + [c] + after) != FinalLanes(before + [d] + after)
  {
    var t, u := before + [c] + after, before + [d] + after;
    OneUnitPartsLanes(Seed(|t|), before, c, d, after);
    assert |t| == |u|;
    LanesFinishApart(t, u);
  }

  // ---------- the printed form ----------

  function FromHex(t: Text): int {
    if t == [] then 0 else 16 * FromHex(t[..|t| - 1]) + HexValue(t[|t| - 1])
  }

  predicate IsLowerHex(t: Text) { forall i :: 0 <= i < |t| ==> HexValue(t[i]) >= 0 }

  function Pow16(k: nat): nat { if k == 0 then 1 else 16 * Pow16(k - 1) }

  lemma {:induction false} ToHexFacts(n: nat, k: nat)
    requires n < Pow16(k)
    ensures 1 <= |ToHex(n)| && (k > 0 ==> |ToHex(n)| <= k)
    ensures IsLowerHex(ToHex(n)) && FromHex(ToHex(n)) == n
    decreases n
  {
    HexDigitRoundTrip(n % 16);
    if n >= 16 {
      ToHexFacts(n / 16, k - 1);
      assert ToHex(n)[..|ToHex(n)| - 1] == ToHex(n / 16);
    } else {
      assert ToHex(n)[..0] == [];
    }
  }

  lemma {:induction false} LeadingZero(t: Text)
    ensures FromHex([0x30] + t) == FromHex(t)
    decreases |t|
  {
    if t != [] {
      LeadingZero(t[..|t| - 1]);
      assert ([0x30] + t)[..|t|] == [0x30] + t[..|t| - 1];
    }
  }

  lemma {:induction false} PadStartFacts(t: Text, width: nat)
    requires |t| <= width && IsLowerHex(t)
    ensures |PadStart(t, width)| == width && IsLowerHex(PadStart(t, width))
    ensures FromHex(PadStart(t, width)) == FromHex(t)
    decreases width - |t|
  {
    if |t| < width {
      LeadingZero(t);
      PadStartFacts([0x30] + t, width);
    }
  }

  /** The printed number is exact in a double: it stays below 2^53. */
  lemma Lane53Bound(s: Lanes)
    ensures Lane53(s) < 0x20_0000_0000_0000
    ensures Lane53(s) % 0x1_0000_0000 == s.h1 && Lane53(s) / 0x1_0000_0000 == s.h2 % 0x20_0000
  {}

  lemma DigestFacts(s: Lanes)
    ensures |Digest(s)| == 14 && IsLowerHex(Digest(s)) && FromHex(Digest(s)) == Lane53(s)
  {
    Lane53Bound(s);
    assert Pow16(7) == 0x1000_0000 && Pow16(14) == 0x100_0000_0000_0000;
    ToHexFacts(Lane53(s), 14);
    PadStartFacts(ToHex(Lane53(s)), 14);
  }

  /**
    A digest is exactly 14 lower-case hex digits, and reading it back gives the whole first lane
    and the low 21 bits of the second.
   */
  lemma DigestShape(t: Text)
    ensures |StableHash(t)| == 14 && IsLowerHex(StableHash(t))
    ensures 0 <= FromHex(StableHash(t)) < 0x20_0000_0000_0000
    ensures FromHex(StableHash(t)) % 0x1_0000_0000 == FinalLanes(t).h1
    ensures FromHex(StableHash(t)) / 0x1_0000_0000 == FinalLanes(t).h2 % 0x20_0000
  {
    DigestFacts(FinalLanes(t));
    Lane53Bound(FinalLanes(t));
  }

  /** Digests are equal exactly when the kept 53 bits are: a collision lies in the lanes or the 11 dropped bits. */
  lemma EqualDigestsExactly(s: Lanes, r: Lanes)
    ensures Digest(s) == Digest(r) <==> s.h1 == r.h1 && s.h2 % 0x20_0000 == r.h2 % 0x20_0000
  {
    DigestFacts(s);
    DigestFacts(r);
    Lane53Bound(s);
    Lane53Bound(r);
  }
}
