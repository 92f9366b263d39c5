/**
 * Machine-word arithmetic used by the predictor: powers of two, bitwise AND
 * and XOR on naturals, and the 32-bit two's-complement operations behind the
 * index masks `~((-1) << bits)`.
 *
 * Histories and program counters are naturals; every bit operation the C code
 * performs on them is written out here so that `(ghr ^ pc) & gMask` can be
 * modelled term for term.
 */
module Bits {

  /** Number of distinct values of a 32-bit machine word. */
  const WordSpan: nat := 0x1_0000_0000

  /** A 32-bit machine word, read as an unsigned number (`uint32_t`). */
  type Word = x: nat | x < WordSpan

  /** The bit pattern of the C `int` constant `-1`: all 32 bits set. */
  const AllOnes: Word := WordSpan - 1

  function Pow2(n: nat): (r: nat)
    ensures r >= 1
  {
    if n == 0 then 1 else 2 * Pow2(n - 1)
  }

  lemma {:induction false} Pow2Monotone(m: nat, n: nat)
    requires m <= n
    ensures Pow2(m) <= Pow2(n)
  {
    if m < n {
      Pow2Monotone(m, n - 1);
    }
  }

  lemma {:induction false} Pow2Add(a: nat, b: nat)
    ensures Pow2(a + b) == Pow2(a) * Pow2(b)
  {
    if b > 0 {
      Pow2Add(a, b - 1);
      assert Pow2(a + b) == 2 * Pow2(a + b - 1);
    }
  }

  /** A machine word has exactly `2^32` values. */
  lemma Pow2WordSpan()
    ensures Pow2(32) == WordSpan
  {
    assert Pow2(8) == 256;
    Pow2Add(8, 8);
    Pow2Add(16, 16);
  }

  lemma Pow2BelowWordSpan(n: nat)
    requires n < 32
    ensures Pow2(n) < WordSpan
  {
    Pow2Monotone(n, 31);
    Pow2Add(31, 1);
    Pow2WordSpan();
  }

  /** Bitwise AND, built one bit at a time from the low end. */
  function And(a: nat, b: nat): nat
  {
    if a == 0 || b == 0 then 0
    else 2 * And(a / 2, b / 2) + (if a % 2 == 1 && b % 2 == 1 then 1 else 0)
  }

  /** Bitwise exclusive OR, built one bit at a time from the low end. */
  function Xor(a: nat, b: nat): nat
  {
    if a == 0 then b
    else if b == 0 then a
    else 2 * Xor(a / 2, b / 2) + (if a % 2 == b % 2 then 0 else 1)
  }

  /** `x << n` on a 32-bit word: bits shifted past bit 31 are lost. */
  function ShiftLeft(x: Word, n: nat): Word
    requires n < 32
  {
    (x * Pow2(n)) % WordSpan
  }

  /** `~x` on a 32-bit word. */
  function Not(x: Word): Word
  {
    AllOnes - x
  }

  /** Multiplying by a positive factor preserves strict order. */
  lemma MulStrict(d: int, a: int, b: int)
    requires d > 0
    ensures d * a < d * b <==> a < b
  {
    assert d * b - d * a == d * (b - a);
  }

  /** Division by a modulus is unique: a quotient/remainder pair determines `x % d`. */
  lemma ModOfDecomposition(x: int, d: int, q: int, r: int)
    requires d > 0 && 0 <= r < d && x == d * q + r
    ensures x % d == r && x / d == q
  {
    var q', r' := x / d, x % d;
    assert x == d * q' + r';
    MulStrict(d, q - 1, q');
    MulStrict(d, q' - 1, q);
    assert d * (q - 1) == d * q - d;
    assert d * (q' - 1) == d * q' - d;
  }

  /** A number below the modulus is its own residue. */
  lemma ModOfSmall(x: nat, d: int)
    requires d > 0
    ensures x < d ==> x % d == x
  {
    if x < d {
      ModOfDecomposition(x, d, 0, x);
    }
  }

  /** The residue modulo `2^(n+1)` is one more low bit on top of the residue of `x / 2` modulo `2^n`. */
  lemma ModPow2Split(x: nat, n: nat)
    ensures x % Pow2(n + 1) == 2 * ((x / 2) % Pow2(n)) + x % 2
    ensures (x % Pow2(n + 1)) / 2 == (x / 2) % Pow2(n)
    ensures (x % Pow2(n + 1)) % 2 == x % 2
  {
    var p := Pow2(n);
    var q := x / 2;
    var k, m := q / p, q % p;
    assert q == p * k + m;
    assert x == (2 * p) * k + (2 * m + x % 2);
    ModOfDecomposition(x, 2 * p, k, 2 * m + x % 2);
    ModOfDecomposition(2 * m + x % 2, 2, m, x % 2);
  }

  /**
   * Masking with `2^n - 1` keeps exactly the low `n` bits: `x & (2^n - 1)`
   * is `x mod 2^n`.
   */
  lemma {:induction false} AndLowOnes(x: nat, n: nat)
    ensures And(x, Pow2(n) - 1) == x % Pow2(n)
  {
    if n == 0 {
      AndNoBits(x);
    } else {
      AndLowOnes(x / 2, n - 1);
      AndLowOnesStep(x, n - 1);
    }
  }

  /** Masking with `2^0 - 1 = 0` keeps nothing. */
  lemma AndNoBits(x: nat)
    ensures And(x, Pow2(0) - 1) == x % Pow2(0)
  {
    ModOfDecomposition(x, 1, x, 0);
  }

  /** If masking `x / 2` with `2^m - 1` keeps its low `m` bits, masking `x` with `2^(m+1) - 1` keeps its low `m + 1` bits. */
  lemma AndLowOnesStep(x: nat, m: nat)
    requires And(x / 2, Pow2(m) - 1) == (x / 2) % Pow2(m)
    ensures And(x, Pow2(m + 1) - 1) == x % Pow2(m + 1)
  {
    if x == 0 {
      ModOfDecomposition(0, Pow2(m + 1), 0, 0);
    } else {
      LowOnesHalve(m + 1);
      AndLowBit(x, Pow2(m + 1) - 1);
      ModPow2Split(x, m);
    }
  }

  /** `2^n - 1` is odd, and halving it drops one of its ones. */
  lemma LowOnesHalve(n: nat)
    requires n > 0
    ensures (Pow2(n) - 1) / 2 == Pow2(n - 1) - 1 && (Pow2(n) - 1) % 2 == 1
  {
    ModOfDecomposition(Pow2(n) - 1, 2, Pow2(n - 1) - 1, 1);
  }

  /** ANDing with an odd number keeps the low bit. */
  lemma AndLowBit(x: nat, b: nat)
    requires x > 0 && b % 2 == 1
    ensures And(x, b) == 2 * And(x / 2, b / 2) + x % 2
  {
  }

  /**
   * The C index mask `~((-1) << bits)`, computed on 32-bit two's-complement
   * words; for every shift count 0..31 it is the number with the low `bits`
   * bits set. C leaves a left shift of a negative value undefined, so the
   * two's-complement reading is an assumption about the compiler.
   */
  function Mask(bits: nat): (m: Word)
    requires bits < 32
    ensures m == Pow2(bits) - 1
  {
    MaskIsLowOnes(bits);
    Not(ShiftLeft(AllOnes, bits))
  }

  lemma MaskIsLowOnes(bits: nat)
    requires bits < 32
    ensures Not(ShiftLeft(AllOnes, bits)) == Pow2(bits) - 1
  {
    var p := Pow2(bits);
    Pow2BelowWordSpan(bits);
    ModOfDecomposition(AllOnes * p, WordSpan, p - 1, WordSpan - p);
    assert ShiftLeft(AllOnes, bits) == WordSpan - p;
  }

  /** `x & mask` with the mask of `bits` bits: the low `bits` bits of `x`. */
  function LowBits(x: nat, bits: nat): (r: nat)
    requires bits < 32
    ensures r == x % Pow2(bits)
    ensures r < Pow2(bits)
    ensures x < Pow2(bits) ==> r == x
  {
    AndLowOnes(x, bits);
    ModOfSmall(x, Pow2(bits));
    And(x, Mask(bits))
  }

  /** The low bit of an exclusive OR is the exclusive OR of the low bits, and the rest is the XOR of the halves. */
  lemma XorHalves(a: nat, b: nat)
    ensures Xor(a, b) % 2 == (if a % 2 == b % 2 then 0 else 1)
    ensures Xor(a, b) / 2 == Xor(a / 2, b / 2)
  {
    if a == 0 {
      assert Xor(a / 2, b / 2) == b / 2;
    } else if b == 0 {
      assert Xor(a / 2, b / 2) == a / 2;
    } else {
      ModOfDecomposition(Xor(a, b), 2, Xor(a / 2, b / 2), if a % 2 == b % 2 then 0 else 1);
    }
  }

  /**
   * The low `n` bits of `a ^ b` depend only on the low `n` bits of `a` and of
   * `b`: two program counters that agree in their low bits XOR with the same
   * history to the same masked index.
   */
  lemma {:induction false} XorLowBits(a: nat, b: nat, n: nat)
    ensures Xor(a, b) % Pow2(n) == Xor(a % Pow2(n), b % Pow2(n))
  {
    if n == 0 {
      ModOfDecomposition(Xor(a, b), 1, Xor(a, b), 0);
      ModOfDecomposition(a, 1, a, 0);
      ModOfDecomposition(b, 1, b, 0);
    } else {
      XorLowBits(a / 2, b / 2, n - 1);
      XorModSplit(a, b, n - 1);
      XorOfModsSplit(a, b, n - 1);
    }
  }

  /** The low `n + 1` bits of `a ^ b`: the low `n` bits of the halves' XOR, then the XOR of the low bits. */
  lemma XorModSplit(a: nat, b: nat, n: nat)
    ensures Xor(a, b) % Pow2(n + 1)
         == 2 * (Xor(a / 2, b / 2) % Pow2(n)) + (if a % 2 == b % 2 then 0 else 1)
  {
    ModPow2Split(Xor(a, b), n);
    XorHalves(a, b);
  }

  /** The XOR of the low `n + 1` bits of `a` and `b`, split the same way. */
  lemma XorOfModsSplit(a: nat, b: nat, n: nat)
    ensures Xor(a % Pow2(n + 1), b % Pow2(n + 1))
         == 2 * Xor((a / 2) % Pow2(n), (b / 2) % Pow2(n)) + (if a % 2 == b % 2 then 0 else 1)
  {
    var a', b' := a % Pow2(n + 1), b % Pow2(n + 1);
    ModPow2Split(a, n);
    ModPow2Split(b, n);
    XorHalves(a', b');
    var lo := Xor(a', b');
    ModOfDecomposition(lo, 2, lo / 2, lo % 2);
  }
}
