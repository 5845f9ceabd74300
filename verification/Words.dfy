/**
 The unsigned 64-bit words of the C++ source, as naturals below 2^64, with the
 bitwise operators given digit by digit. `SetBit`, `ClearBit`, the ring masks and
 the zero counts of the source are all built from these.
 */
module Words {

  const TWO64: nat := 0x1_0000_0000_0000_0000

  /** uint64_t */
  type u64 = x: nat | x < TWO64

  function Pow2(k: nat): (p: nat)
    ensures p >= 1
  {
    if k == 0 then 1 else 2 * Pow2(k - 1)
  }

  /** Binary digit b of w: (w >> b) & 1. */
  predicate Bit(w: nat, b: nat) {
    if b == 0 then w % 2 == 1 else Bit(w / 2, b - 1)
  }

  /** x | y */
  function Or(x: nat, y: nat): nat {
    if x == 0 && y == 0 then 0
    else 2 * Or(x / 2, y / 2) + (if x % 2 == 1 || y % 2 == 1 then 1 else 0)
  }

  /** x & y */
  function And(x: nat, y: nat): nat {
    if x == 0 || y == 0 then 0
    else 2 * And(x / 2, y / 2) + (if x % 2 == 1 && y % 2 == 1 then 1 else 0)
  }

  /** ~x on 64 bits */
  function Not(x: u64): u64 {
    TWO64 - 1 - x
  }

  /** x - y on uint64_t: wraps modulo 2^64. */
  function Sub(x: u64, y: u64): u64 {
    (x - y) % TWO64
  }

  /** x + 1 on uint64_t: wraps modulo 2^64. */
  function Inc(x: u64): u64 {
    (x + 1) % TWO64
  }

  /** Zero digits of w above the highest set digit, looking at digits k-1 .. 0. */
  function LeadingZeros(w: nat, k: nat): (z: nat)
    ensures z <= k
  {
    if k == 0 || Bit(w, k - 1) then 0 else 1 + LeadingZeros(w, k - 1)
  }

  /** __builtin_clzll, undefined at zero as in the source language. */
  function Clz(w: u64): (z: nat)
    requires w != 0
    ensures z < 64 && Bit(w, 63 - z) && forall b: nat :: 63 - z < b < 64 ==> !Bit(w, b)
  {
    LeadingZerosFound(w, 64);
    LeadingZeros(w, 64)
  }

  /** __builtin_ctzll, undefined at zero as in the source language. */
  function Ctz(w: nat): (z: nat)
    requires w != 0
    ensures Bit(w, z) && forall b: nat :: b < z ==> !Bit(w, b)
  {
    if w % 2 == 1 then 0 else
      var z := 1 + Ctz(w / 2);
      assert forall b: nat :: 0 < b < z ==> !Bit(w, b) by {
        forall b: nat | 0 < b < z ensures !Bit(w, b) { assert !Bit(w / 2, b - 1); }
      }
      z
  }

  // ---- powers of two

  lemma TwoTo64()
    ensures Pow2(64) == TWO64
  {
    assert Pow2(4) == 16;
    Pow2Double(4, 16);
    Pow2Double(8, 256);
    Pow2Double(16, 0x1_0000);
    Pow2Double(32, 0x1_0000_0000);
  }

  lemma {:induction false} Pow2Double(a: nat, v: nat)
    requires Pow2(a) == v
    ensures Pow2(2 * a) == v * v
  {
    Pow2Add(a, a);
  }

  lemma {:induction false} Pow2Add(a: nat, b: nat)
    ensures Pow2(a + b) == Pow2(a) * Pow2(b)
  {
    if a > 0 {
      Pow2Add(a - 1, b);
      assert Pow2(a + b) == 2 * Pow2(a - 1 + b);
    }
  }

  lemma {:induction false} Pow2Mono(a: nat, b: nat)
    requires a <= b
    ensures Pow2(a) <= Pow2(b)
  {
    if a < b { Pow2Mono(a, b - 1); }
  }

  // ---- digits of the bitwise operators

  lemma {:induction false} BitOfZero(b: nat)
    ensures !Bit(0, b)
  {
    if b > 0 { BitOfZero(b - 1); }
  }

  lemma {:induction false} BitOfPow2(i: nat, b: nat)
    ensures Bit(Pow2(i), b) <==> i == b
  {
    if i == 0 {
      if b > 0 { BitOfZero(b - 1); }
    } else if b > 0 {
      BitOfPow2(i - 1, b - 1);
    }
  }

  lemma {:induction false} BitOfOr(x: nat, y: nat, b: nat)
    ensures Bit(Or(x, y), b) <==> Bit(x, b) || Bit(y, b)
  {
    if x == 0 && y == 0 {
      BitOfZero(b);
    } else if b > 0 {
      BitOfOr(x / 2, y / 2, b - 1);
    }
  }

  lemma {:induction false} BitOfAnd(x: nat, y: nat, b: nat)
    ensures Bit(And(x, y), b) <==> Bit(x, b) && Bit(y, b)
  {
    if x == 0 || y == 0 {
      BitOfZero(b);
    } else if b > 0 {
      BitOfAnd(x / 2, y / 2, b - 1);
    }
  }

  lemma {:induction false} BitOfComplement(x: nat, k: nat, b: nat)
    requires x < Pow2(k) && b < k
    ensures Bit(Pow2(k) - 1 - x, b) <==> !Bit(x, b)
  {
    if b > 0 {
      assert (Pow2(k) - 1 - x) / 2 == Pow2(k - 1) - 1 - x / 2;
      BitOfComplement(x / 2, k - 1, b - 1);
    }
  }

  lemma {:induction false} OrBound(x: nat, y: nat, k: nat)
    requires x < Pow2(k) && y < Pow2(k)
    ensures Or(x, y) < Pow2(k)
  {
    if k > 0 && !(x == 0 && y == 0) { OrBound(x / 2, y / 2, k - 1); }
  }

  lemma {:induction false} AndBound(x: nat, y: nat)
    ensures And(x, y) <= x
  {
    if x != 0 && y != 0 { AndBound(x / 2, y / 2); }
  }

  /** A word below 2^k with no digit set is zero. */
  lemma {:induction false} NoDigits(x: nat, k: nat)
    requires x < Pow2(k)
    requires forall b: nat :: b < k ==> !Bit(x, b)
    ensures x == 0
  {
    if k > 0 {
      assert !Bit(x, 0);
      forall b: nat | b < k - 1 ensures !Bit(x / 2, b) { assert !Bit(x, b + 1); }
      NoDigits(x / 2, k - 1);
    }
  }

  lemma {:induction false} LeadingZerosFound(w: nat, k: nat)
    requires w < Pow2(k) || (k == 64 && w < TWO64)
    requires w != 0
    ensures LeadingZeros(w, k) < k
    ensures Bit(w, k - 1 - LeadingZeros(w, k))
    ensures forall b: nat :: k - 1 - LeadingZeros(w, k) < b < k ==> !Bit(w, b)
  {
    TwoTo64();
    if !Bit(w, k - 1) {
      TopDigitClear(w, k);
      LeadingZerosFound(w, k - 1);
    }
  }

  lemma {:induction false} TopDigitClear(w: nat, k: nat)
    requires k > 0 && w < Pow2(k) && !Bit(w, k - 1)
    ensures w < Pow2(k - 1)
  {
    if k > 1 { TopDigitClear(w / 2, k - 1); }
  }

  /** x & (2^k - 1) is x modulo 2^k: the ring masks of the source. */
  lemma {:induction false} MaskIsMod(x: nat, k: nat)
    ensures And(x, Pow2(k) - 1) == x % Pow2(k)
  {
    if k > 0 {
      MaskIsMod(x / 2, k - 1);
      MaskStep(x, Pow2(k - 1));
    }
  }

  lemma {:induction false} MaskStep(x: nat, p: nat)
    requires p >= 1 && And(x / 2, p - 1) == (x / 2) % p
    ensures And(x, 2 * p - 1) == x % (2 * p)
  {
    HalfMod(x, p);
    AndOdd(x, p - 1);
  }

  lemma {:induction false} AndOdd(x: nat, h: nat)
    ensures And(x, 2 * h + 1) == 2 * And(x / 2, h) + x % 2
  {
    var y := 2 * h + 1;
    assert y / 2 == h && y % 2 == 1;
  }

  lemma HalfMod(x: nat, p: nat)
    requires p >= 1
    ensures x % (2 * p) == 2 * ((x / 2) % p) + x % 2
  {
    var q := x / (2 * p);
    var r := x % (2 * p);
    assert x == q * (2 * p) + r;
    assert x / 2 == q * p + r / 2 by {
      assert x == 2 * (q * p) + r;
    }
    ModUnique(x / 2, p, q, r / 2);
  }

  lemma ModUnique(x: int, p: int, q: int, r: int)
    requires p > 0 && x == q * p + r && 0 <= r < p
    ensures x % p == r && x / p == q
  {
    var d := x / p - q;
    assert x == (x / p) * p + x % p;
    assert d * p == r - x % p;
    MultipleFarFromZero(d, p);
  }

  lemma MultipleFarFromZero(d: int, p: int)
    requires p > 0
    ensures d == 0 || d * p >= p || d * p <= -p
  {
  }

  // ---- setting and clearing one digit of a 64-bit word

  /** 1 << b */
  function BitMask(b: nat): (m: u64)
    requires b < 64
  {
    Pow2Mono(b, 63);
    TwoTo64();
    Pow2(b)
  }

  function WithBit(w: u64, b: nat): (r: u64)
    requires b < 64
    ensures forall j: nat :: j < 64 ==> (Bit(r, j) <==> j == b || Bit(w, j))
    ensures r != 0
  {
    TwoTo64();
    OrBound(w, BitMask(b), 64);
    assert forall j: nat :: Bit(Or(w, BitMask(b)), j) <==> j == b || Bit(w, j) by {
      forall j: nat ensures Bit(Or(w, BitMask(b)), j) <==> j == b || Bit(w, j) {
        BitOfOr(w, BitMask(b), j);
        BitOfPow2(b, j);
      }
    }
    assert Or(w, BitMask(b)) != 0 by { BitOfZero(b); assert Bit(Or(w, BitMask(b)), b); }
    Or(w, BitMask(b))
  }

  function WithoutBit(w: u64, b: nat): (r: u64)
    requires b < 64
    ensures forall j: nat :: j < 64 ==> (Bit(r, j) <==> j != b && Bit(w, j))
  {
    AndBound(w, Not(BitMask(b)));
    assert forall j: nat :: j < 64 ==> (Bit(And(w, Not(BitMask(b))), j) <==> j != b && Bit(w, j)) by {
      forall j: nat | j < 64 ensures Bit(And(w, Not(BitMask(b))), j) <==> j != b && Bit(w, j) {
        BitOfAnd(w, Not(BitMask(b)), j);
        TwoTo64();
        BitOfComplement(BitMask(b), 64, j);
        BitOfPow2(b, j);
      }
    }
    And(w, Not(BitMask(b)))
  }

  /** A 64-bit word is zero exactly when it has no digit set. */
  lemma ZeroWord(w: u64)
    ensures w == 0 ==> forall b: nat :: !Bit(w, b)
    ensures (forall b: nat :: b < 64 ==> !Bit(w, b)) ==> w == 0
  {
    forall b: nat ensures !Bit(0, b) { BitOfZero(b); }
    if forall b: nat :: b < 64 ==> !Bit(w, b) {
      TwoTo64();
      NoDigits(w, 64);
    }
  }
}
