/**
  The digest said without recursion: what the word operators do to single bits, and the lanes as a list
  of values, one per code unit read.
 */
module HashForm {
  import opened Utf16
  import opened Word32
  import opened JsonParser
  import opened Hashing

  // ---------- the word operators, bit by bit ----------

  lemma HalvesDivide(a: nat, p: nat)
    requires p > 0
    ensures a / 2 / p == a / (2 * p)
  {
    var q, r := a / (2 * p), a % (2 * p);
    assert a == 2 * p * q + r;
    assert a / 2 == p * q + r / 2 && r / 2 < p;
    QuotientUnique(a / 2, p, q, r / 2);
  }

  lemma QuotientUnique(a: nat, p: nat, q: nat, r: nat)
    requires a == p * q + r && r < p
    ensures a / p == q
  {
    assert p * (q - a / p) == a % p - r;
    MultiplesAreFar(p, q - a / p);
  }

  lemma MultiplesAreFar(p: int, z: int)
    requires p > 0
    ensures z > 0 ==> p * z >= p
    ensures z < 0 ==> p * z <= -p
  {
    if z > 0 {
      assert p * z == p + p * (z - 1);
    } else if z < 0 {
      assert p * z == -p - p * (-z - 1);
    }
  }

  lemma {:induction false} ShiftedDivides(a: nat, k: nat)
    ensures Pow2(k) > 0 && Shifted(a, k) == a / Pow2(k)
    decreases k
  {
    if k > 0 {
      ShiftedDivides(a / 2, k - 1);
      HalvesDivide(a, Pow2(k - 1));
    }
  }

  /** The unsigned shift divides by a power of two. */
  lemma ShiftRightExactly(a: Word, k: nat)
    requires k <= 32
    ensures Pow2(k) > 0 && ShiftRight(a, k) == a / Pow2(k)
  {
    ShiftedDivides(a, k);
  }

  predicate BitsDiffer(a: nat, b: nat, k: nat) { Shifted(a, k) % 2 != Shifted(b, k) % 2 }

  lemma LowestBitOfXor(x: nat, y: nat)
    ensures BitXor(x, y) % 2 == 1 <==> x % 2 != y % 2
  {
    assert BitXor(x, y) % 2 == (x + y) % 2;
  }

  lemma BitOfXor(a: nat, b: nat, k: nat)
    ensures Shifted(BitXor(a, b), k) % 2 == 1 <==> BitsDiffer(a, b, k)
  {
    hide BitXor, Shifted;
    BitXorShift(a, b, k);
    LowestBitOfXor(Shifted(a, k), Shifted(b, k));
  }

  lemma {:induction false} BitsDetermine(x: nat, y: nat, n: nat)
    requires x < Pow2(n) && y < Pow2(n)
    requires forall k: nat | k < n :: Shifted(x, k) % 2 == Shifted(y, k) % 2
    ensures x == y
    decreases n
  {
    if n > 0 {
      assert Shifted(x, 0) == x && Shifted(y, 0) == y;
      forall k: nat | k < n - 1 ensures Shifted(x / 2, k) % 2 == Shifted(y / 2, k) % 2 {
        assert Shifted(x, k + 1) % 2 == Shifted(y, k + 1) % 2;
      }
      BitsDetermine(x / 2, y / 2, n - 1);
    }
  }

  /** Of all words only the exclusive or has a one exactly where the operands' bits differ. */
  lemma XorExactly(a: Word, b: Word, x: Word)
    ensures x == Xor(a, b) <==> forall k: nat | k < 32 :: Shifted(x, k) % 2 == 1 <==> BitsDiffer(a, b, k)
  {
    forall k: nat ensures Shifted(Xor(a, b), k) % 2 == 1 <==> BitsDiffer(a, b, k) { BitOfXor(a, b, k); }
    if forall k: nat | k < 32 :: Shifted(x, k) % 2 == 1 <==> BitsDiffer(a, b, k) {
      Pow2Of32();
      BitsDetermine(x, Xor(a, b), 32);
    }
  }

  // ---------- the lanes ----------

  /** The two lanes before the first code unit, and after each. */
  ghost predicate IsReading(t: Text, h1: seq<Word>, h2: seq<Word>) {
    && |h1| == |h2| == |t| + 1
    && h1[0] == Xor(0xDEADBEEF, |t| % 0x1_0000_0000) && h2[0] == Xor(0x41C6CE57, |t| % 0x1_0000_0000)
    && (forall i | 0 <= i < |t| :: h1[i + 1] == Xor(h1[i], t[i]) * 2654435761 % 0x1_0000_0000)
    && (forall i | 0 <= i < |t| :: h2[i + 1] == Xor(h2[i], t[i]) * 1597334677 % 0x1_0000_0000)
  }

  lemma {:induction false} ReadingAbsorbs(t: Text, h1: seq<Word>, h2: seq<Word>, i: nat)
    requires IsReading(t, h1, h2) && i <= |t|
    ensures Absorb(Seed(|t|), t[..i]) == Lanes(h1[i], h2[i])
    decreases i
  {
    hide Xor;
    if i > 0 {
      ReadingAbsorbs(t, h1, h2, i - 1);
      AbsorbOneMore(Seed(|t|), t[..i - 1], t[i - 1]);
      assert t[..i] == t[..i - 1] + [t[i - 1]];
      assert h1[(i - 1) + 1] == h1[i] && h2[(i - 1) + 1] == h2[i];
    }
  }

  /** h ^ (h >>> shift), times the factor. */
  function Stirred(h: Word, shift: nat, factor: Word): Word
    requires shift <= 32
  {
    Xor(h, ShiftRight(h, shift)) * factor % 0x1_0000_0000
  }

  lemma {:induction false} HexDetermines(d: Text, e: Text)
    requires |d| == |e| && IsLowerHex(d) && IsLowerHex(e) && FromHex(d) == FromHex(e)
    ensures d == e
    decreases |d|
  {
    if d != [] {
      var n := |d| - 1;
      assert d == d[..n] + [d[n]] && e == e[..n] + [e[n]];
      HexDigitsDetermine(d[n], e[n]);
      HexDetermines(d[..n], e[..n]);
    }
  }

  lemma HexDigitsDetermine(c: CodeUnit, d: CodeUnit)
    ensures HexValue(c) < 16 && (HexValue(c) >= 0 && HexValue(c) == HexValue(d) ==> c == d)
  {}

  /** The digest is the one text of 14 lower-case hex digits whose value the finished lanes give. */
  lemma StableHashExactly(t: Text, h1: seq<Word>, h2: seq<Word>, digest: Text)
    requires IsReading(t, h1, h2)
    ensures var a, b := h1[|t|], h2[|t|];
      var lane1 := Xor(Stirred(a, 16, 2246822507), Stirred(b, 13, 3266489909));
      var lane2 := Xor(Stirred(b, 16, 2246822507), Stirred(lane1, 13, 3266489909));
      digest == StableHash(t) <==>
        |digest| == 14 && IsLowerHex(digest) && FromHex(digest) == 4294967296 * (lane2 % 2097152) + lane1
  {
    hide Xor, ShiftRight, ToHex, PadStart, FromHex, IsLowerHex;
    ReadingAbsorbs(t, h1, h2, |t|);
    assert t[..|t|] == t;
    DigestFacts(FinalLanes(t));
    if |digest| == 14 && IsLowerHex(digest) && FromHex(digest) == FromHex(StableHash(t)) {
      HexDetermines(digest, StableHash(t));
    }
  }
}
