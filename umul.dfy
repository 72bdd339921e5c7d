/** The 64x64 -> 128-bit unsigned multiply used by the CryptoNight mixer.
  * On x86-64 with GCC it is one 128-bit product; on 32-bit x86 it is built
  * from four 32x32 partial products with explicit carries. Both forms
  * return the low half and deliver the high half separately.
  */
module WideMul {
  import opened Bits

  const LOW32: u64 := 0xFFFF_FFFF

  /** The portable form: (product_lo, product_hi), built from 32-bit halves
    * a:b of the multiplier and c:d of the multiplicand. */
  function Umul128(multiplier: u64, multiplicand: u64): (r: (u64, u64))
  {
    var a := Shr32(multiplier);
    var b := And64(multiplier, LOW32);
    var c := Shr32(multiplicand);
    var d := And64(multiplicand, LOW32);
    CombineHalves(a, b, c, d)
  }

  /** The rest of the portable form: the four partial products, the middle
    * sum with its carry, and the two result words. Every uint64_t operation
    * wraps; a carry is detected by the wrapped sum being smaller than an
    * operand. */
  function CombineHalves(a: u64, b: u64, c: u64, d: u64): (r: (u64, u64))
  {
    var ad := Mul64(a, d);
    var bd := Mul64(b, d);
    var adbc := Add64(ad, Mul64(b, c));
    var adbcCarry: u64 := if adbc < ad then 1 else 0;
    var productLo := Add64(bd, Shl32(adbc));
    var productLoCarry: u64 := if productLo < bd then 1 else 0;
    var productHi :=
      Add64(Add64(Add64(Mul64(a, c), Shr32(adbc)), Shl32(adbcCarry)), productLoCarry);
    (productLo, productHi)
  }

  /** The GCC form: one unsigned __int128 product, split into halves. */
  function Umul128Wide(a: u64, b: u64): (r: (u64, u64))
    ensures r.1 * TWO_64 + r.0 == a * b
  {
    ProductBound(a, b, TWO_64);
    var r := a * b;
    (r % TWO_64, r / TWO_64)
  }

  lemma ProductBound(x: nat, y: nat, bound: nat)
    requires x < bound && y < bound
    ensures x * y < bound * bound
  {
    MulLe(y, bound - 1, x);
    MulLe(x, bound - 1, bound - 1);
    assert (bound - 1) * (bound - 1) + 2 * bound - 1 == bound * bound;
  }

  /** Multiplying both sides of a <= b by c keeps the order. */
  lemma {:induction false} MulLe(a: nat, b: nat, c: nat)
    requires a <= b
    ensures a * c <= b * c
    decreases c
  {
    if c > 0 {
      MulLe(a, b, c - 1);
      assert a * c == a * (c - 1) + a && b * c == b * (c - 1) + b;
    }
  }

  /** A product of two 32-bit halves fits in 64 bits and does not wrap. */
  lemma HalfProduct(p: nat, q: nat)
    requires p < TWO_32 && q < TWO_32
    ensures p * q < TWO_64 && Mul64(p, q) == p * q
  {
    ProductBound(p, q, TWO_32);
    assert TWO_32 * TWO_32 == TWO_64;
    DivModUnique(p * q, TWO_64, 0, p * q);
  }

  lemma Expand(a: int, b: int, c: int, d: int, k: int)
    ensures (a * k + b) * (c * k + d) == (a * c) * (k * k) + (a * d + b * c) * k + b * d
  {
  }

  /** `v & 0xFFFFFFFF` keeps the low 32 bits. */
  lemma LowHalf(v: u64)
    ensures And64(v, LOW32) == v % TWO_32
  {
    Pow2Constants();
    AndLowMask(v, 32);
  }

  /** `v << 32` keeps the low 32 bits of v, moved up. */
  lemma ShiftUp32(v: u64)
    ensures Shl32(v) == (v % TWO_32) * TWO_32
  {
    var h, l := v / TWO_32, v % TWO_32;
    assert v * TWO_32 == h * TWO_64 + l * TWO_32;
    DivModUnique(v * TWO_32, TWO_64, h, l * TWO_32);
  }

  /** Collecting the partial products and carries around 2^64. */
  lemma Regroup(ac: int, ad: int, bc: int, bd: int, adbc: int, carry: int,
                h1: int, l1: int, lo: int, loCarry: int)
    requires ad + bc == adbc + carry * TWO_64
    requires adbc == h1 * TWO_32 + l1
    requires bd + l1 * TWO_32 == lo + loCarry * TWO_64
    ensures ac * TWO_64 + (ad + bc) * TWO_32 + bd
         == (ac + h1 + carry * TWO_32 + loCarry) * TWO_64 + lo
  {
  }

  /** A wrapping addition overflowed exactly when its result is smaller
    * than an operand: the carry test of the portable form. */
  lemma CarryDetect(p: u64, q: u64)
    ensures (Add64(p, q) < p) == (p + q >= TWO_64)
    ensures p + q == Add64(p, q) + (if Add64(p, q) < p then TWO_64 else 0)
  {
  }

  /** Combining the partial products of four 32-bit halves gives the exact
    * product of the two 64-bit numbers they make up. */
  lemma CombineExact(a: u64, b: u64, c: u64, d: u64)
    requires a < TWO_32 && b < TWO_32 && c < TWO_32 && d < TWO_32
    ensures CombineHalves(a, b, c, d).1 * TWO_64 + CombineHalves(a, b, c, d).0
         == (a * TWO_32 + b) * (c * TWO_32 + d)
  {
    HalfProduct(a, d);
    HalfProduct(b, d);
    HalfProduct(b, c);
    HalfProduct(a, c);
    var ad, bd, bc, ac := a * d, b * d, b * c, a * c;

    // The middle sum ad + bc, with the carry out of 64 bits.
    var adbc := Add64(ad, bc);
    var carry: u64 := if adbc < ad then 1 else 0;
    CarryDetect(ad, bc);

    // The low word: bd plus the low 32 bits of adbc moved up, with its carry.
    var h1, l1 := adbc / TWO_32, adbc % TWO_32;
    ShiftUp32(adbc);
    assert Shl32(carry) == carry * TWO_32;
    var lo := Add64(bd, l1 * TWO_32);
    var loCarry := if lo < bd then 1 else 0;
    CarryDetect(bd, l1 * TWO_32);

    // The exact product, regrouped around 2^64; the high word cannot wrap,
    // since the product is below 2^128.
    var x, y := a * TWO_32 + b, c * TWO_32 + d;
    Expand(a, b, c, d, TWO_32);
    assert TWO_32 * TWO_32 == TWO_64;
    Regroup(ac, ad, bc, bd, adbc, carry, h1, l1, lo, loCarry);
    ProductBound(x, y, TWO_64);
    NoWrap(ac, h1, carry * TWO_32, loCarry, lo, x * y);
  }

  /** The portable form computes the exact 128-bit product: hi * 2^64 + lo
    * equals the mathematical product of the operands. */
  lemma Umul128Exact(x: u64, y: u64)
    ensures Umul128(x, y).1 * TWO_64 + Umul128(x, y).0 == x * y
  {
    LowHalf(x);
    LowHalf(y);
    var a, b, c, d := x / TWO_32, x % TWO_32, y / TWO_32, y % TWO_32;
    assert x == a * TWO_32 + b && y == c * TWO_32 + d;
    CombineExact(a, b, c, d);
  }

  /** A sum of words whose total, scaled by 2^64, stays below the product
    * bound is computed without wrapping. */
  lemma NoWrap(p: u64, q: u64, r: u64, s: u64, lo: u64, product: int)
    requires product == (p + q + r + s) * TWO_64 + lo && product < TWO_64 * TWO_64
    ensures Add64(Add64(Add64(p, q), r), s) == p + q + r + s
  {
    assert p + q + r + s < TWO_64;
  }

  /** The portable and the GCC forms agree on every input. */
  lemma Umul128Agree(x: u64, y: u64)
    ensures Umul128(x, y) == Umul128Wide(x, y)
  {
    Umul128Exact(x, y);
    var (lo, hi) := Umul128(x, y);
    DivModUnique(x * y, TWO_64, hi, lo);
  }
}
