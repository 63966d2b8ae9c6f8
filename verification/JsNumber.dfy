/** The 32-bit operators of JavaScript, on the exact integers that a JavaScript
    number holds below 2^53. Each operator first reduces its operands modulo
    2^32; all but `>>>` give a SIGNED 32-bit result. */
module JsNumber {

  const TWO32 := 0x1_0000_0000
  const TWO31 := 0x8000_0000

  // --- bitwise operations on natural numbers, one binary digit at a time ---

  function BitAnd(x: nat, y: nat): (r: nat)
    ensures r <= x && r <= y
  {
    if x == 0 || y == 0 then 0
    else 2 * BitAnd(x / 2, y / 2) + (if x % 2 == 1 && y % 2 == 1 then 1 else 0)
  }

  function BitOr(x: nat, y: nat): (r: nat)
    ensures x <= r <= x + y && y <= r
  {
    if x == 0 then y
    else if y == 0 then x
    else 2 * BitOr(x / 2, y / 2) + (if x % 2 == 1 || y % 2 == 1 then 1 else 0)
  }

  function BitXor(x: nat, y: nat): (r: nat)
    ensures r <= x + y
  {
    if x == 0 then y
    else if y == 0 then x
    else 2 * BitXor(x / 2, y / 2) + (if x % 2 != y % 2 then 1 else 0)
  }

  /** x times 2^n. */
  function Doubled(x: nat, n: nat): (r: nat)
    ensures r >= x
    decreases n
  {
    if n == 0 then x else 2 * Doubled(x, n - 1)
  }

  /** x divided by 2^n, rounded down. */
  function Halved(x: int, n: nat): (r: int)
    ensures x >= 0 ==> 0 <= r <= x
    decreases n
  {
    if n == 0 then x else Halved(x / 2, n - 1)
  }

  /** The n low bits of x. */
  function Low(x: nat, n: nat): nat
    decreases n
  {
    if n == 0 then 0 else 2 * Low(x / 2, n - 1) + x % 2
  }

  // --- the operators ---

  function ToUint32(x: int): (u: nat)
    ensures u < TWO32
  {
    x % TWO32
  }

  function ToInt32(x: int): (i: int)
    ensures -TWO31 <= i < TWO31
    ensures ToUint32(i) == ToUint32(x)
  {
    var u := ToUint32(x);
    if u < TWO31 then u else u - TWO32
  }

  function And(x: int, y: int): (r: int)
    ensures -TWO31 <= r < TWO31
  {
    ToInt32(BitAnd(ToUint32(x), ToUint32(y)))
  }

  function Or(x: int, y: int): (r: int)
    ensures -TWO31 <= r < TWO31
  {
    ToInt32(BitOr(ToUint32(x), ToUint32(y)))
  }

  function Xor(x: int, y: int): (r: int)
    ensures -TWO31 <= r < TWO31
  {
    ToInt32(BitXor(ToUint32(x), ToUint32(y)))
  }

  function Not(x: int): int { ToInt32(TWO32 - 1 - ToUint32(x)) }

  // A shift takes its count modulo 32; the program only has counts below that.

  function Shl(x: int, n: nat): (r: int)
    requires n < 32
    ensures -TWO31 <= r < TWO31
  {
    ToInt32(Doubled(ToUint32(x), n))
  }

  /** Arithmetic shift: the sign bit is copied in, so this is division rounding down. */
  function Shr(x: int, n: nat): int
    requires n < 32
  {
    Halved(ToInt32(x), n)
  }

  function Ushr(x: int, n: nat): int
    requires n < 32
  {
    Halved(ToUint32(x), n)
  }

  // --- the shift counts and masks in use, as plain arithmetic ---

  lemma DoubledBy2(x: nat)
    ensures Doubled(x, 2) == x * 4
  {}

  lemma DoubledBy4(x: nat)
    ensures Doubled(x, 4) == x * 16
  {
    hide Doubled;
    DoubledBy2(x);
    DoubledBy2(x * 4);
    DoubledAdd(x, 2, 2);
  }

  lemma DoubledBy6(x: nat)
    ensures Doubled(x, 6) == x * 64
  {
    hide Doubled;
    DoubledBy4(x);
    DoubledBy2(x * 16);
    DoubledAdd(x, 4, 2);
  }

  lemma DoubledBy12(x: nat)
    ensures Doubled(x, 12) == x * 4096
  {
    hide Doubled;
    DoubledBy6(x);
    DoubledBy6(x * 64);
    DoubledAdd(x, 6, 6);
  }

  lemma DoubledValues(x: nat)
    ensures Doubled(x, 2) == x * 4 && Doubled(x, 4) == x * 16 && Doubled(x, 6) == x * 64
    ensures Doubled(x, 10) == x * 1024 && Doubled(x, 12) == x * 4096 && Doubled(x, 18) == x * 0x40000
  {
    hide Doubled;
    DoubledBy2(x);
    DoubledBy4(x);
    DoubledBy6(x);
    DoubledBy4(x * 64);
    DoubledAdd(x, 6, 4);
    DoubledBy12(x);
    DoubledBy6(x * 4096);
    DoubledAdd(x, 12, 6);
  }

  lemma {:induction false} DoubledAdd(x: nat, m: nat, n: nat)
    ensures Doubled(x, m + n) == Doubled(Doubled(x, m), n)
  {
    if n > 0 {
      DoubledAdd(x, m, n - 1);
    }
  }

  lemma HalvedBy2(x: int)
    ensures Halved(x, 2) == x / 4
  {
    assert Halved(x, 2) == x / 2 / 2;
  }

  lemma HalvedBy4(x: int)
    ensures Halved(x, 4) == x / 16
  {
    hide Halved;
    HalvedBy2(x);
    HalvedBy2(x / 4);
    HalvedAdd(x, 2, 2);
    assert x / 4 / 4 == x / 16;
  }

  lemma HalvedBy6(x: int)
    ensures Halved(x, 6) == x / 64
  {
    hide Halved;
    HalvedBy4(x);
    HalvedBy2(x / 16);
    HalvedAdd(x, 4, 2);
    assert x / 16 / 4 == x / 64;
  }

  lemma HalvedBy10(x: int)
    ensures Halved(x, 10) == x / 1024
  {
    hide Halved;
    HalvedBy6(x);
    HalvedBy4(x / 64);
    HalvedAdd(x, 6, 4);
    assert x / 64 / 16 == x / 1024;
  }

  lemma HalvedBy12(x: int)
    ensures Halved(x, 12) == x / 4096
  {
    hide Halved;
    HalvedBy6(x);
    HalvedBy6(x / 64);
    HalvedAdd(x, 6, 6);
    assert x / 64 / 64 == x / 4096;
  }

  lemma HalvedBy18(x: int)
    ensures Halved(x, 18) == x / 0x40000
  {
    hide Halved;
    HalvedBy12(x);
    HalvedBy6(x / 4096);
    HalvedAdd(x, 12, 6);
    assert x / 4096 / 64 == x / 0x40000;
  }

  lemma HalvedValues(x: int)
    ensures Halved(x, 0) == x && Halved(x, 2) == x / 4 && Halved(x, 4) == x / 16 && Halved(x, 6) == x / 64
  {
    assert Halved(x, 0) == x;
    hide Halved;
    HalvedBy2(x);
    HalvedBy4(x);
    HalvedBy6(x);
  }

  lemma HalvedValuesHigh(x: int)
    ensures Halved(x, 10) == x / 1024 && Halved(x, 12) == x / 4096 && Halved(x, 18) == x / 0x40000
  {
    hide Halved;
    HalvedBy10(x);
    HalvedBy12(x);
    HalvedBy18(x);
  }

  lemma {:induction false} HalvedAdd(x: int, m: nat, n: nat)
    ensures Halved(x, m + n) == Halved(Halved(x, m), n)
    decreases m
  {
    if m > 0 {
      HalvedAdd(x / 2, m - 1, n);
    }
  }

  function Pow2(n: nat): (p: nat)
    ensures p > 0
  {
    if n == 0 then 1 else 2 * Pow2(n - 1)
  }

  lemma {:induction false} LowIsMod(x: nat, n: nat, p: nat)
    requires p == Pow2(n)
    ensures Low(x, n) == x % p
  {
    if n > 0 {
      LowIsMod(x / 2, n - 1, Pow2(n - 1));
      HalfMod(x, Pow2(n - 1));
    }
  }

  lemma HalfMod(x: nat, p: nat)
    requires p > 0
    ensures x % (2 * p) == 2 * (x / 2 % p) + x % 2
  {
    var h := x / 2;
    var q, r := h / p, h % p;
    DivModIdentity(h, p);
    assert (2 * p) * q == 2 * (p * q);
    DivModUnique(x, 2 * p, q, 2 * r + x % 2);
  }

  // --- bit fields ---

  /** The mask of n ones. */
  function Ones(n: nat): nat { if n == 0 then 0 else 2 * Ones(n - 1) + 1 }

  lemma MaskValues()
    ensures Pow2(2) == 4 && Pow2(3) == 8 && Pow2(4) == 16 && Pow2(5) == 32 && Pow2(6) == 64
    ensures Pow2(8) == 256 && Pow2(10) == 1024
    ensures Ones(2) == 0x03 && Ones(3) == 0x07 && Ones(4) == 0x0f && Ones(5) == 0x1f && Ones(6) == 0x3f
    ensures Ones(8) == 0xff && Ones(10) == 0x3ff
  {}

  /** A value with n zero low bits, combined with an n-bit field, is a sum. */
  lemma {:induction false} OrDisjoint(x: nat, n: nat, field: nat)
    requires field <= Ones(n)
    ensures BitOr(Doubled(x, n), field) == Doubled(x, n) + field
  {
    if n > 0 {
      OrDisjoint(x, n - 1, field / 2);
    }
  }

  lemma {:induction false} AndOnes(x: nat, n: nat)
    ensures BitAnd(x, Ones(n)) == Low(x, n)
  {
    if n > 0 {
      AndOnes(x / 2, n - 1);
      assert Ones(n) / 2 == Ones(n - 1) && Ones(n) % 2 == 1;
    }
  }

  // --- the operators, read as unsigned words ---

  lemma ShlUnsigned(x: int, n: nat)
    requires n < 32
    ensures ToUint32(Shl(x, n)) == Doubled(ToUint32(x), n) % TWO32
  {}

  lemma OrUnsigned(x: int, y: int)
    requires ToUint32(x) + ToUint32(y) < TWO32
    ensures ToUint32(Or(x, y)) == BitOr(ToUint32(x), ToUint32(y))
  {}

  /** Masking an operand, whatever its sign: the low bits of its two's complement. */
  lemma AndLowBits(x: int, n: nat, mask: nat, p: nat)
    requires mask == Ones(n) < TWO31 && p == Pow2(n)
    ensures And(x, mask) == ToUint32(x) % p
  {
    Reduced(mask);
    AndOnes(ToUint32(x), n);
    LowIsMod(ToUint32(x), n, p);
    Reduced(BitAnd(ToUint32(x), mask));
  }

  // --- the operators on small non-negative operands ---

  lemma Reduced(x: nat)
    requires x < TWO31
    ensures ToUint32(x) == x && ToInt32(x) == x
  {}

  lemma AndField(x: nat, n: nat, mask: nat, p: nat)
    requires x < TWO31 && mask == Ones(n) < TWO31 && p == Pow2(n)
    ensures And(x, mask) == x % p
  {
    Reduced(x);
    AndLowBits(x, n, mask, p);
  }

  lemma OrField(hi: nat, n: nat, x: nat, lo: nat)
    requires x == Doubled(hi, n) && lo <= Ones(n) && x + lo < TWO31
    ensures Or(x, lo) == x + lo
  {
    Reduced(x);
    Reduced(lo);
    OrDisjoint(hi, n, lo);
    Reduced(x + lo);
  }

  lemma ShlSmall(x: nat, n: nat)
    requires n < 32 && Doubled(x, n) < TWO31
    ensures Shl(x, n) == Doubled(x, n)
  {
    Reduced(x);
    Reduced(Doubled(x, n));
  }

  lemma ShrSmall(x: nat, n: nat)
    requires n < 32 && x < TWO31
    ensures Shr(x, n) == Halved(x, n)
  {
    Reduced(x);
  }

  // --- division with remainder ---

  lemma DivModIdentity(x: int, d: nat)
    requires d > 0
    ensures x == d * (x / d) + x % d && 0 <= x % d < d
  {}

  lemma MulAtLeast(a: int, b: int)
    requires a >= 1 && b >= 0
    ensures a * b >= b
  {}

  /** Quotient and remainder are the only such pair. */
  lemma DivModUnique(x: int, d: nat, q: int, r: int)
    requires 0 <= r < d && x == d * q + r
    ensures x % d == r && x / d == q
  {
    var q', r' := x / d, x % d;
    DivModIdentity(x, d);
    assert (q - q') * d == r' - r && (q' - q) * d == r - r';
    if q > q' {
      MulAtLeast(q - q', d);
    } else if q' > q {
      MulAtLeast(q' - q, d);
    }
  }
}
