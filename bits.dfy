/** Machine words as bounded integers.
  * C's unsigned 32- and 64-bit arithmetic is written out explicitly: sums and
  * products wrap modulo 2^64, shifts are multiplications and divisions by
  * powers of two, and the bitwise operators `^` and `&` are defined bit by bit
  * over a given width.
  */
module Bits {

  const TWO_32: int := 0x1_0000_0000
  const TWO_64: int := 0x1_0000_0000_0000_0000

  type u8 = x: int | 0 <= x < 0x100
  type u32 = x: int | 0 <= x < 0x1_0000_0000
  type u64 = x: int | 0 <= x < 0x1_0000_0000_0000_0000

  function Pow2(n: nat): (r: nat)
    ensures r >= 1
  {
    if n == 0 then 1 else 2 * Pow2(n - 1)
  }

  /** `a ^ b` on naturals, bit by bit from the lowest. The recursion is on
    * the operands, not on a width, so that the solver unfolds it only as far
    * as a proof needs. */
  function XorV(a: nat, b: nat): nat
    decreases a + b
  {
    if a == 0 && b == 0 then 0
    else 2 * XorV(a / 2, b / 2) + (if a % 2 == b % 2 then 0 else 1)
  }

  /** `a & b` on naturals, bit by bit from the lowest. */
  function AndV(a: nat, b: nat): nat
    decreases a
  {
    if a == 0 || b == 0 then 0
    else 2 * AndV(a / 2, b / 2) + (if a % 2 == 1 && b % 2 == 1 then 1 else 0)
  }

  /** uint64_t `a ^ b`. */
  function Xor64(a: u64, b: u64): u64
  {
    Pow2Constants();
    XorBound(a, b, 64);
    XorV(a, b)
  }

  /** uint32_t `a ^ b`. */
  function Xor32(a: u32, b: u32): u32
  {
    Pow2Constants();
    XorBound(a, b, 32);
    XorV(a, b)
  }

  /** uint64_t `a & b`: never more than the mask. */
  function And64(a: u64, b: u64): (r: u64)
    ensures r <= b
  {
    AndBelow(a, b);
    AndV(a, b)
  }

  /** uint64_t `a + b`, wrapping. */
  function Add64(a: u64, b: u64): (r: u64)
    ensures a + b < TWO_64 ==> r == a + b
    ensures a + b >= TWO_64 ==> r == a + b - TWO_64
  {
    (a + b) % TWO_64
  }

  /** uint64_t `a - b`, wrapping. */
  function Sub64(a: u64, b: u64): (r: u64)
    ensures a >= b ==> r == a - b
    ensures a < b ==> r == a - b + TWO_64
  {
    (a - b) % TWO_64
  }

  /** uint64_t `a * b`, wrapping. */
  function Mul64(a: u64, b: u64): (r: u64)
  {
    (a * b) % TWO_64
  }

  /** uint64_t `a << 32`: the bits shifted out are lost. */
  function Shl32(a: u64): u64
  {
    (a * TWO_32) % TWO_64
  }

  /** uint64_t `a >> 32`. */
  function Shr32(a: u64): u64
  {
    a / TWO_32
  }

  // ---------------------------------------------------------------------
  // Arithmetic facts

  lemma {:induction false} Pow2Add(m: nat, n: nat)
    ensures Pow2(m + n) == Pow2(m) * Pow2(n)
  {
    if m > 0 {
      Pow2Add(m - 1, n);
      assert Pow2(m + n) == 2 * Pow2(m - 1 + n);
    }
  }

  lemma Pow2Constants()
    ensures Pow2(4) == 16 && Pow2(32) == TWO_32 && Pow2(64) == TWO_64
  {
    assert Pow2(4) == 16;
    assert Pow2(8) == 256;
    assert Pow2(16) == 0x1_0000;
    assert Pow2(24) == 0x100_0000;
    assert Pow2(32) == TWO_32;
    assert Pow2(40) == 0x100_0000_0000;
    assert Pow2(48) == 0x1_0000_0000_0000;
    assert Pow2(56) == 0x100_0000_0000_0000;
  }

  /** Division with remainder has one answer. */
  lemma DivModUnique(a: int, d: int, q: int, r: int)
    requires d > 0 && 0 <= r < d && a == d * q + r
    ensures a / d == q && a % d == r
  {
    var e := q - a / d;
    assert d * e == a % d - r;
    if e != 0 {
      assert false;
    }
  }

  /** Peeling the lowest bit off a remainder by 2p. */
  lemma ModStep(a: nat, p: nat)
    requires p >= 1
    ensures a % (2 * p) == 2 * ((a / 2) % p) + a % 2
  {
    var s, t := (a / 2) / p, (a / 2) % p;
    assert a == (2 * p) * s + (2 * t + a % 2);
    DivModUnique(a, 2 * p, s, 2 * t + a % 2);
  }

  /** Peeling the lowest bit off a division or remainder by 2^m. */
  lemma DivModStep(a: nat, m: nat)
    requires m > 0
    ensures a % Pow2(m) == 2 * ((a / 2) % Pow2(m - 1)) + a % 2
    ensures a / Pow2(m) == (a / 2) / Pow2(m - 1)
  {
    var p := Pow2(m - 1);
    var s, t := (a / 2) / p, (a / 2) % p;
    assert a / 2 == p * s + t;
    assert a == 2 * (a / 2) + a % 2;
    assert a == (2 * p) * s + (2 * t + a % 2);
    DivModUnique(a, 2 * p, s, 2 * t + a % 2);
  }

  // ---------------------------------------------------------------------
  // XOR

  /** The low bit of a XOR, and the XOR of what lies above it. */
  lemma XorUnfold(a: nat, b: nat)
    ensures XorV(a, b) / 2 == XorV(a / 2, b / 2)
    ensures XorV(a, b) % 2 == (if a % 2 == b % 2 then 0 else 1)
  {
  }

  /** The XOR of two n-bit numbers has n bits. */
  lemma {:induction false} XorBound(a: nat, b: nat, n: nat)
    requires a < Pow2(n) && b < Pow2(n)
    ensures XorV(a, b) < Pow2(n)
  {
    if n > 0 && (a != 0 || b != 0) {
      XorBound(a / 2, b / 2, n - 1);
    }
  }

  lemma {:induction false} XorZero(a: nat)
    ensures XorV(a, 0) == a
    decreases a
  {
    if a != 0 { XorZero(a / 2); }
  }

  lemma {:induction false} XorComm(a: nat, b: nat)
    ensures XorV(a, b) == XorV(b, a)
    decreases a + b
  {
    if a != 0 || b != 0 { XorComm(a / 2, b / 2); }
  }

  lemma {:induction false} XorAssoc(a: nat, b: nat, c: nat)
    ensures XorV(XorV(a, b), c) == XorV(a, XorV(b, c))
    decreases a + b + c
  {
    if a != 0 || b != 0 || c != 0 {
      XorUnfold(a, b);
      XorUnfold(b, c);
      XorUnfold(XorV(a, b), c);
      XorUnfold(a, XorV(b, c));
      XorAssoc(a / 2, b / 2, c / 2);
    }
  }

  /** The low m bits of a XOR are the XOR of the low m bits. */
  lemma {:induction false} XorLowPart(a: nat, b: nat, m: nat)
    ensures XorV(a, b) % Pow2(m) == XorV(a % Pow2(m), b % Pow2(m))
  {
    if m > 0 {
      var p := Pow2(m - 1);
      var x, am, bm := XorV(a, b), a % Pow2(m), b % Pow2(m);
      XorUnfold(a, b);
      XorUnfold(am, bm);
      DivModStep(x, m);
      DivModStep(a, m);
      DivModStep(b, m);
      assert am / 2 == (a / 2) % p && am % 2 == a % 2;
      assert bm / 2 == (b / 2) % p && bm % 2 == b % 2;
      XorLowPart(a / 2, b / 2, m - 1);
    } else {
      assert XorV(a % 1, b % 1) == 0;
    }
  }

  /** `a >> m`, one bit at a time. */
  function ShiftDown(a: nat, m: nat): nat
    decreases m
  {
    if m == 0 then a else ShiftDown(a / 2, m - 1)
  }

  lemma {:induction false} ShiftDownIsDiv(a: nat, m: nat)
    ensures ShiftDown(a, m) == a / Pow2(m)
  {
    if m > 0 {
      ShiftDownIsDiv(a / 2, m - 1);
      DivModStep(a, m);
    }
  }

  /** What lies above the low m bits of a XOR is the XOR of what lies above
    * the low m bits of the operands. */
  lemma {:induction false} XorHighPart(a: nat, b: nat, m: nat)
    ensures ShiftDown(XorV(a, b), m) == XorV(ShiftDown(a, m), ShiftDown(b, m))
  {
    if m > 0 {
      XorUnfold(a, b);
      XorHighPart(a / 2, b / 2, m - 1);
    }
  }

  /** uint64_t `^` does not depend on the order of its operands. */
  lemma Xor64Comm(a: u64, b: u64)
    ensures Xor64(a, b) == Xor64(b, a)
  {
    XorComm(a, b);
  }

  /** The two 32-bit halves of a 64-bit XOR are the XORs of the halves: XOR
    * works on every lane of a wide word independently. */
  lemma XorHalves(a: u64, b: u64)
    ensures Xor64(a, b) % TWO_32 == Xor32(a % TWO_32, b % TWO_32)
    ensures Xor64(a, b) / TWO_32 == Xor32(a / TWO_32, b / TWO_32)
  {
    Pow2Constants();
    XorLowPart(a, b, 32);
    XorHighPart(a, b, 32);
    ShiftDownIsDiv(XorV(a, b), 32);
    ShiftDownIsDiv(a, 32);
    ShiftDownIsDiv(b, 32);
  }

  // ---------------------------------------------------------------------
  // AND

  lemma {:induction false} AndBelow(a: nat, m: nat)
    ensures AndV(a, m) <= m
    decreases a
  {
    if a != 0 && m != 0 { AndBelow(a / 2, m / 2); }
  }

  /** Masking with a multiple of 2^k gives a multiple of 2^k. */
  lemma {:induction false} AndKeepsMultiple(a: nat, m: nat, k: nat)
    requires m % Pow2(k) == 0
    ensures AndV(a, m) % Pow2(k) == 0
    decreases a
  {
    var r := AndV(a, m);
    if k > 0 && a != 0 && m != 0 {
      DivModStep(m, k);
      assert m % 2 == 0 && (m / 2) % Pow2(k - 1) == 0;
      AndKeepsMultiple(a / 2, m / 2, k - 1);
      var q := AndV(a / 2, m / 2);
      assert r == 2 * q;
      DivModUnique(r, 2, q, 0);
      DivModStep(r, k);
    } else if k > 0 {
      assert r == 0;
    }
  }

  /** Masking with a mask whose low four bits are clear gives a multiple of 16. */
  lemma AndClearsLowNibble(a: nat, m: nat)
    requires m % 16 == 0
    ensures AndV(a, m) % 16 == 0
  {
    Pow2Constants();
    AndKeepsMultiple(a, m, 4);
  }

  /** Masking with 2^k - 1 keeps the value modulo 2^k. */
  lemma {:induction false} AndLowMask(a: nat, k: nat)
    ensures AndV(a, Pow2(k) - 1) == a % Pow2(k)
    decreases a
  {
    if k > 0 && a != 0 {
      var j: nat := k - 1;
      var p := Pow2(j);
      var m: nat := 2 * p - 1;
      assert Pow2(k) == 2 * p;
      DivModUnique(m, 2, p - 1, 1);
      AndLowMask(a / 2, j);
      var low := AndV(a / 2, p - 1);
      assert AndV(a, m) == 2 * low + a % 2;
      ModStep(a, p);
      assert a % Pow2(k) == a % (2 * p) == 2 * low + a % 2;
      assert Pow2(k) - 1 == m;
    } else if k == 0 {
      assert Pow2(k) - 1 == 0;
      assert a % 1 == 0;
    } else {
      assert AndV(a, Pow2(k) - 1) == 0;
      assert 0 % Pow2(k) == 0;
    }
  }

  /** Reducing modulo p * q, then modulo p, is reducing modulo p. */
  lemma ModOfMod(x: int, p: int, q: int)
    requires p > 0 && q > 0
    ensures (x % (p * q)) % p == x % p
  {
    var big, r := x / (p * q), x % (p * q);
    assert x == p * (q * big) + r;
    assert x == p * (q * big + r / p) + r % p;
    DivModUnique(x, p, q * big + r / p, r % p);
  }

  /** Masking a value taken modulo 2^w with 2^k - 1, k <= w, keeps it
    * modulo 2^k: the wrap-around of a w-bit subtraction does not show in
    * its low k bits. */
  lemma WrapThenMask(x: int, w: nat, k: nat)
    requires k <= w
    ensures AndV(x % Pow2(w), Pow2(k) - 1) == x % Pow2(k)
  {
    AndLowMask(x % Pow2(w), k);
    Pow2Add(k, w - k);
    ModOfMod(x, Pow2(k), Pow2(w - k));
  }

  /** 2^k never exceeds 2^w for k <= w. */
  lemma Pow2Mono(k: nat, w: nat)
    requires k <= w
    ensures Pow2(k) <= Pow2(w)
  {
    Pow2Add(k, w - k);
  }
}
