/** 32-bit words as the engine's bitwise operators treat them: unsigned residues modulo 2^32. */
module Word32 {

  const MODULUS := 0x1_0000_0000

  type Word = x: int | 0 <= x < 0x1_0000_0000

  /** Bitwise exclusive or, bit by bit from the lowest. */
  function BitXor(a: nat, b: nat): nat
    decreases a
  {
    if a == 0 then b else (a + b) % 2 + 2 * BitXor(a / 2, b / 2)
  }

  function Pow2(k: nat): nat { if k == 0 then 1 else 2 * Pow2(k - 1) }

  lemma Pow2Of32()
    ensures Pow2(32) == MODULUS
  {
    assert Pow2(8) == 0x100;
    assert Pow2(12) == 0x1000;
    assert Pow2(16) == 0x1_0000;
    assert Pow2(20) == 0x10_0000;
    assert Pow2(24) == 0x100_0000;
    assert Pow2(28) == 0x1000_0000;
  }

  lemma {:induction false} BitXorBound(a: nat, b: nat, k: nat)
    requires a < Pow2(k) && b < Pow2(k)
    ensures BitXor(a, b) < Pow2(k)
  {
    if a != 0 {
      BitXorBound(a / 2, b / 2, k - 1);
    }
  }

  lemma {:induction false} BitXorZero(a: nat)
    ensures BitXor(a, 0) == a
  {
    if a != 0 {
      BitXorZero(a / 2);
    }
  }

  lemma {:induction false} BitXorCommutes(a: nat, b: nat)
    ensures BitXor(a, b) == BitXor(b, a)
    decreases a
  {
    BitXorZero(a);
    BitXorZero(b);
    if a != 0 && b != 0 {
      BitXorCommutes(a / 2, b / 2);
    }
  }

  /** Applying the same mask twice restores the word. */
  lemma {:induction false} BitXorCancels(a: nat, b: nat)
    ensures BitXor(BitXor(a, b), b) == a
    decreases a, b
  {
    var x := BitXor(a, b);
    if a == 0 {
      BitXorSelf(b);
    } else if x == 0 {
      BitXorZeroMeansEqual(a, b);
    } else {
      BitXorCancels(a / 2, b / 2);
      assert x / 2 == BitXor(a / 2, b / 2);
      assert BitXor(x, b) == (x + b) % 2 + 2 * BitXor(x / 2, b / 2);
      ParityCancels(a, b, x);
    }
  }

  lemma ParityCancels(a: nat, b: nat, x: nat)
    requires x % 2 == (a + b) % 2
    ensures (x + b) % 2 == a % 2
  {}

  lemma {:induction false} BitXorSelf(b: nat)
    ensures BitXor(b, b) == 0
  {
    if b != 0 {
      BitXorSelf(b / 2);
    }
  }

  lemma {:induction false} BitXorZeroMeansEqual(a: nat, b: nat)
    requires BitXor(a, b) == 0
    ensures a == b
    decreases a
  {
    if a != 0 {
      BitXorZeroMeansEqual(a / 2, b / 2);
    }
  }

  lemma BitXorHalf(a: nat, b: nat)
    ensures BitXor(a, b) / 2 == BitXor(a / 2, b / 2)
  {}

  function Shifted(a: nat, k: nat): nat { if k == 0 then a else Shifted(a / 2, k - 1) }

  lemma {:induction false} BitXorShift(a: nat, b: nat, k: nat)
    ensures Shifted(BitXor(a, b), k) == BitXor(Shifted(a, k), Shifted(b, k))
    decreases k
  {
    if k > 0 {
      BitXorHalf(a, b);
      BitXorShift(a / 2, b / 2, k - 1);
    }
  }

  lemma {:induction false} ShiftedBound(a: nat, j: nat, k: nat)
    requires k <= j && a < Pow2(j)
    ensures Shifted(a, k) < Pow2(j - k)
    decreases k
  {
    if k > 0 {
      ShiftedBound(a / 2, j - 1, k - 1);
    }
  }

  lemma {:induction false} ShiftedTwice(a: nat, j: nat, k: nat)
    ensures Shifted(Shifted(a, j), k) == Shifted(a, j + k)
    decreases j
  {
    if j > 0 {
      ShiftedTwice(a / 2, j - 1, k);
    }
  }

  // ---------- the three operators on words ----------

  function Xor(a: Word, b: Word): Word {
    Pow2Of32();
    BitXorBound(a, b, 32);
    BitXor(a, b)
  }

  /** The unsigned shift a >>> k. */
  function ShiftRight(a: Word, k: nat): Word
    requires k <= 32
  {
    Pow2Of32();
    ShiftedBound(a, 32, k);
    PowMonotone(32 - k, 32);
    Shifted(a, k)
  }

  lemma {:induction false} PowMonotone(j: nat, k: nat)
    requires j <= k
    ensures Pow2(j) <= Pow2(k)
  {
    if j < k {
      PowMonotone(j, k - 1);
    }
  }

  /** Math.imul, read as an unsigned word. */
  function Imul(a: Word, b: Word): Word { (a * b) % MODULUS }

  lemma XorCancels(a: Word, b: Word)
    ensures Xor(Xor(a, b), b) == a && Xor(b, Xor(b, a)) == a
  {
    BitXorCancels(a, b);
    BitXorCommutes(b, a);
    BitXorCommutes(b, BitXor(b, a));
  }

  /** x ^ (x >>> 16) is its own inverse. */
  lemma XorShift16Inverts(x: Word)
    ensures var y := Xor(x, ShiftRight(x, 16)); Xor(y, ShiftRight(y, 16)) == x
  {
    Pow2Of32();
    ShiftedBound(x, 32, 32);
    BitXorShift16(x);
  }

  lemma BitXorShift16(x: nat)
    requires Shifted(x, 32) == 0
    ensures var y := BitXor(x, Shifted(x, 16)); BitXor(y, Shifted(y, 16)) == x
  {
    var s := Shifted(x, 16);
    BitXorShift(x, s, 16);
    ShiftedTwice(x, 16, 16);
    BitXorZero(s);
    BitXorCancels(x, s);
  }

  /** Multiplying by a factor and then by its inverse modulo 2^32 restores the word. */
  lemma ImulInverts(x: Word, factor: Word, inverse: Word, carry: nat)
    requires factor * inverse == 1 + carry * MODULUS
    ensures Imul(Imul(x, factor), inverse) == x
  {
    var q := x * factor / MODULUS;
    var r := Imul(x, factor);
    assert x * factor == q * MODULUS + r;
    assert r * inverse == x + MODULUS * (x * carry - q * inverse) by {
      assert r * inverse == (x * factor - q * MODULUS) * inverse;
      assert x * factor * inverse == x * (1 + carry * MODULUS);
    }
    ResidueUnique(x, x * carry - q * inverse);
  }

  lemma ResidueUnique(a: Word, z: int)
    ensures (a + MODULUS * z) % MODULUS == a
  {}
}
