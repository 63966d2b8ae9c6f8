/** SHA-256 as FIPS 180-4 defines it, on words that are numbers below 2^32. The bitwise
    operations are those of JsNumber on natural numbers; nothing here is signed. */
module Fips180 {
  import opened JsNumber

  type Word = x: nat | x < TWO32
  type Byte = x: nat | x < 256

  // --- operations on words (section 2.2.2) ---

  lemma {:induction false} BelowPow2(x: nat, y: nat, n: nat)
    requires x < Doubled(1, n) && y < Doubled(1, n)
    ensures BitXor(x, y) < Doubled(1, n) && BitOr(x, y) < Doubled(1, n)
  {
    if n > 0 {
      BelowPow2(x / 2, y / 2, n - 1);
    }
  }

  lemma Word32()
    ensures Doubled(1, 32) == TWO32
  {
    hide Doubled;
    DoubledAdd(1, 10, 10);
    DoubledAdd(1, 20, 12);
    DoubledValues(1);
    DoubledValues(1024);
    DoubledValues(1024 * 1024);
  }

  function XorW(x: Word, y: Word): Word {
    Word32();
    BelowPow2(x, y, 32);
    BitXor(x, y)
  }

  function AndW(x: Word, y: Word): Word { BitAnd(x, y) }

  function NotW(x: Word): Word { TWO32 - 1 - x }

  function ShrW(n: nat, x: Word): Word { Halved(x, n) }

  function Rotr(n: nat, x: Word): Word
    requires n <= 32
  {
    Word32();
    BelowPow2(Halved(x, n), Doubled(x, 32 - n) % TWO32, 32);
    BitOr(Halved(x, n), Doubled(x, 32 - n) % TWO32)
  }

  // --- the six logical functions (section 4.1.2) ---

  function Ch(x: Word, y: Word, z: Word): Word { XorW(AndW(x, y), AndW(NotW(x), z)) }

  function Maj(x: Word, y: Word, z: Word): Word { XorW(XorW(AndW(x, y), AndW(x, z)), AndW(y, z)) }

  function BigSigma0(x: Word): Word { XorW(XorW(Rotr(2, x), Rotr(13, x)), Rotr(22, x)) }

  function BigSigma1(x: Word): Word { XorW(XorW(Rotr(6, x), Rotr(11, x)), Rotr(25, x)) }

  function SmallSigma0(x: Word): Word { XorW(XorW(Rotr(7, x), Rotr(18, x)), ShrW(3, x)) }

  function SmallSigma1(x: Word): Word { XorW(XorW(Rotr(17, x), Rotr(19, x)), ShrW(10, x)) }

  // --- the constants (sections 4.2.2 and 5.3.3) ---

  const K0: seq<Word> := [
    0x428a2f98, 0x71374491, 0xb5c0fbcf, 0xe9b5dba5, 0x3956c25b, 0x59f111f1,
    0x923f82a4, 0xab1c5ed5, 0xd807aa98, 0x12835b01, 0x243185be, 0x550c7dc3,
    0x72be5d74, 0x80deb1fe, 0x9bdc06a7, 0xc19bf174
  ]
  const K1: seq<Word> := [
    0xe49b69c1, 0xefbe4786, 0x0fc19dc6, 0x240ca1cc, 0x2de92c6f, 0x4a7484aa,
    0x5cb0a9dc, 0x76f988da, 0x983e5152, 0xa831c66d, 0xb00327c8, 0xbf597fc7,
    0xc6e00bf3, 0xd5a79147, 0x06ca6351, 0x14292967
  ]
  const K2: seq<Word> := [
    0x27b70a85, 0x2e1b2138, 0x4d2c6dfc, 0x53380d13, 0x650a7354, 0x766a0abb,
    0x81c2c92e, 0x92722c85, 0xa2bfe8a1, 0xa81a664b, 0xc24b8b70, 0xc76c51a3,
    0xd192e819, 0xd6990624, 0xf40e3585, 0x106aa070
  ]
  const K3: seq<Word> := [
    0x19a4c116, 0x1e376c08, 0x2748774c, 0x34b0bcb5, 0x391c0cb3, 0x4ed8aa4a,
    0x5b9cca4f, 0x682e6ff3, 0x748f82ee, 0x78a5636f, 0x84c87814, 0x8cc70208,
    0x90befffa, 0xa4506ceb, 0xbef9a3f7, 0xc67178f2
  ]
  const K: seq<Word> := K0 + K1 + K2 + K3

  lemma KLength()
    ensures |K| == 64
  {}

  const PRIMES0: seq<nat> := [2, 3, 5, 7, 11, 13, 17, 19, 23, 29, 31, 37, 41, 43, 47, 53]
  const PRIMES1: seq<nat> := [59, 61, 67, 71, 73, 79, 83, 89, 97, 101, 103, 107, 109, 113, 127, 131]
  const PRIMES2: seq<nat> := [137, 139, 149, 151, 157, 163, 167, 173, 179, 181, 191, 193, 197, 199, 211, 223]
  const PRIMES3: seq<nat> := [227, 229, 233, 239, 241, 251, 257, 263, 269, 271, 277, 281, 283, 293, 307, 311]

  /** k is the first 32 bits of the fractional part of the cube root of p. */
  ghost predicate CubeRootBits(p: nat, k: Word) {
    var v := CubeRoot(p) * TWO32 + k;
    v * v * v <= p * TWO32 * TWO32 * TWO32 < (v + 1) * (v + 1) * (v + 1)
  }

  /** The whole part of the cube root of p, for p below 343. */
  function CubeRoot(p: nat): nat {
    if p < 8 then 1 else if p < 27 then 2 else if p < 64 then 3 else if p < 125 then 4 else if p < 216 then 5 else 6
  }

  ghost predicate CubeRootTable(primes: seq<nat>, k: seq<Word>) {
    |primes| == |k| && forall i :: 0 <= i < |k| ==> CubeRootBits(primes[i], k[i])
  }

  /** The eight working variables, or the eight words of a hash value. */
  datatype Eight = Eight(a: Word, b: Word, c: Word, d: Word, e: Word, f: Word, g: Word, h: Word)

  const H0 := Eight(0x6a09e667, 0xbb67ae85, 0x3c6ef372, 0xa54ff53a, 0x510e527f, 0x9b05688c, 0x1f83d9ab, 0x5be0cd19)

  /** k is the first 32 bits of the fractional part of the square root of p, whose whole
      part is c. */
  ghost predicate SquareRootBits(p: nat, c: nat, k: Word) {
    var v := c * TWO32 + k;
    v * v <= p * TWO32 * TWO32 < (v + 1) * (v + 1)
  }

  // Eight cases at a time, on numbers, so that each can be computed.

  lemma FirstEight0()
    ensures CubeRootBits(2, 0x428a2f98) && CubeRootBits(3, 0x71374491)
    ensures CubeRootBits(5, 0xb5c0fbcf) && CubeRootBits(7, 0xe9b5dba5)
    ensures CubeRootBits(11, 0x3956c25b) && CubeRootBits(13, 0x59f111f1)
    ensures CubeRootBits(17, 0x923f82a4) && CubeRootBits(19, 0xab1c5ed5)
  {}

  lemma LastEight0()
    ensures CubeRootBits(23, 0xd807aa98) && CubeRootBits(29, 0x12835b01)
    ensures CubeRootBits(31, 0x243185be) && CubeRootBits(37, 0x550c7dc3)
    ensures CubeRootBits(41, 0x72be5d74) && CubeRootBits(43, 0x80deb1fe)
    ensures CubeRootBits(47, 0x9bdc06a7) && CubeRootBits(53, 0xc19bf174)
  {}

  /** The constants are those that the standard defines from the first 64 and 8 primes. */
  lemma RoundConstants0()
    ensures CubeRootTable(PRIMES0, K0)
  {
    hide CubeRootBits;
    FirstEight0();
    LastEight0();
  }

  lemma FirstEight1()
    ensures CubeRootBits(59, 0xe49b69c1) && CubeRootBits(61, 0xefbe4786)
    ensures CubeRootBits(67, 0x0fc19dc6) && CubeRootBits(71, 0x240ca1cc)
    ensures CubeRootBits(73, 0x2de92c6f) && CubeRootBits(79, 0x4a7484aa)
    ensures CubeRootBits(83, 0x5cb0a9dc) && CubeRootBits(89, 0x76f988da)
  {}

  lemma LastEight1()
    ensures CubeRootBits(97, 0x983e5152) && CubeRootBits(101, 0xa831c66d)
    ensures CubeRootBits(103, 0xb00327c8) && CubeRootBits(107, 0xbf597fc7)
    ensures CubeRootBits(109, 0xc6e00bf3) && CubeRootBits(113, 0xd5a79147)
    ensures CubeRootBits(127, 0x06ca6351) && CubeRootBits(131, 0x14292967)
  {}

  lemma RoundConstants1()
    ensures CubeRootTable(PRIMES1, K1)
  {
    hide CubeRootBits;
    FirstEight1();
    LastEight1();
  }

  lemma FirstEight2()
    ensures CubeRootBits(137, 0x27b70a85) && CubeRootBits(139, 0x2e1b2138)
    ensures CubeRootBits(149, 0x4d2c6dfc) && CubeRootBits(151, 0x53380d13)
    ensures CubeRootBits(157, 0x650a7354) && CubeRootBits(163, 0x766a0abb)
    ensures CubeRootBits(167, 0x81c2c92e) && CubeRootBits(173, 0x92722c85)
  {}

  lemma LastEight2()
    ensures CubeRootBits(179, 0xa2bfe8a1) && CubeRootBits(181, 0xa81a664b)
    ensures CubeRootBits(191, 0xc24b8b70) && CubeRootBits(193, 0xc76c51a3)
    ensures CubeRootBits(197, 0xd192e819) && CubeRootBits(199, 0xd6990624)
    ensures CubeRootBits(211, 0xf40e3585) && CubeRootBits(223, 0x106aa070)
  {}

  lemma RoundConstants2()
    ensures CubeRootTable(PRIMES2, K2)
  {
    hide CubeRootBits;
    FirstEight2();
    LastEight2();
  }

  lemma FirstEight3()
    ensures CubeRootBits(227, 0x19a4c116) && CubeRootBits(229, 0x1e376c08)
    ensures CubeRootBits(233, 0x2748774c) && CubeRootBits(239, 0x34b0bcb5)
    ensures CubeRootBits(241, 0x391c0cb3) && CubeRootBits(251, 0x4ed8aa4a)
    ensures CubeRootBits(257, 0x5b9cca4f) && CubeRootBits(263, 0x682e6ff3)
  {}

  lemma LastEight3()
    ensures CubeRootBits(269, 0x748f82ee) && CubeRootBits(271, 0x78a5636f)
    ensures CubeRootBits(277, 0x84c87814) && CubeRootBits(281, 0x8cc70208)
    ensures CubeRootBits(283, 0x90befffa) && CubeRootBits(293, 0xa4506ceb)
    ensures CubeRootBits(307, 0xbef9a3f7) && CubeRootBits(311, 0xc67178f2)
  {}

  lemma RoundConstants3()
    ensures CubeRootTable(PRIMES3, K3)
  {
    hide CubeRootBits;
    FirstEight3();
    LastEight3();
  }

  lemma InitialConstants()
    ensures SquareRootBits(2, 1, H0.a) && SquareRootBits(3, 1, H0.b) && SquareRootBits(5, 2, H0.c)
    ensures SquareRootBits(7, 2, H0.d) && SquareRootBits(11, 3, H0.e) && SquareRootBits(13, 3, H0.f)
    ensures SquareRootBits(17, 4, H0.g) && SquareRootBits(19, 4, H0.h)
  {}

  // --- padding (section 5.1.1), in whole bytes ---

  function BigEndian(v: nat, n: nat): (b: seq<Byte>)
    ensures |b| == n
    decreases n
  {
    if n == 0 then [] else BigEndian(v / 256, n - 1) + [v % 256]
  }

  /** The smallest number of zero bytes after the 0x80 byte that makes room for the
      8-byte length at the end of a whole number of 64-byte blocks. */
  function ZeroBytes(n: nat): (z: nat)
    ensures z < 64 && (n + 9 + z) % 64 == 0
  {
    63 - (n + 8) % 64
  }

  lemma ZeroBytesLeast(n: nat, z: nat)
    requires (n + 9 + z) % 64 == 0
    ensures ZeroBytes(n) <= z
  {}

  function Zeros(n: nat): (z: seq<Byte>)
    ensures |z| == n
  {
    seq(n, _ => 0)
  }

  function Padded(m: seq<Byte>): (p: seq<Byte>)
    ensures |p| == |m| + 9 + ZeroBytes(|m|) && |p| % 64 == 0
  {
    m + [0x80] + Zeros(ZeroBytes(|m|)) + BigEndian(8 * |m|, 8)
  }

  // --- hash computation (section 6.2.2) ---

  function WordAt(p: seq<Byte>, i: nat): Word
    requires i + 4 <= |p|
  {
    (p[i] as int) * 0x100_0000 + (p[i + 1] as int) * 0x1_0000 + (p[i + 2] as int) * 0x100 + p[i + 3] as int
  }

  /** Word t of the message schedule of the block that starts at byte off. */
  function Schedule(p: seq<Byte>, off: nat, t: nat): Word
    requires off + 64 <= |p| && t < 64
  {
    if t < 16 then WordAt(p, off + 4 * t)
    else (SmallSigma1(Schedule(p, off, t - 2)) + Schedule(p, off, t - 7)
          + SmallSigma0(Schedule(p, off, t - 15)) + Schedule(p, off, t - 16)) % TWO32
  }

  function T1(s: Eight, k: Word, w: Word): Word {
    (s.h + BigSigma1(s.e) + Ch(s.e, s.f, s.g) + k + w) % TWO32
  }

  function T2(s: Eight): Word { (BigSigma0(s.a) + Maj(s.a, s.b, s.c)) % TWO32 }

  function Plus(x: Word, y: Word): Word { (x + y) % TWO32 }

  function Round(s: Eight, k: Word, w: Word): Eight {
    var t1 := T1(s, k, w);
    Eight(Plus(t1, T2(s)), s.a, s.b, s.c, Plus(s.d, t1), s.e, s.f, s.g)
  }

  /** The working variables after t rounds on the block at byte off. */
  function Rounds(p: seq<Byte>, off: nat, h: Eight, t: nat): Eight
    requires off + 64 <= |p| && t <= 64
    decreases t
  {
    KLength();
    if t == 0 then h else Round(Rounds(p, off, h, t - 1), K[t - 1], Schedule(p, off, t - 1))
  }

  function Add(x: Eight, y: Eight): Eight {
    Eight(Plus(x.a, y.a), Plus(x.b, y.b), Plus(x.c, y.c), Plus(x.d, y.d),
          Plus(x.e, y.e), Plus(x.f, y.f), Plus(x.g, y.g), Plus(x.h, y.h))
  }

  /** The hash value after n blocks. */
  function HashValue(p: seq<Byte>, n: nat): Eight
    requires 64 * n <= |p|
    decreases n
  {
    if n == 0 then H0
    else
      var h := HashValue(p, n - 1);
      Add(h, Rounds(p, 64 * (n - 1), h, 64))
  }

  function Digest(h: Eight): (d: seq<Byte>)
    ensures |d| == 32
  {
    BigEndian(h.a, 4) + BigEndian(h.b, 4) + BigEndian(h.c, 4) + BigEndian(h.d, 4)
    + BigEndian(h.e, 4) + BigEndian(h.f, 4) + BigEndian(h.g, 4) + BigEndian(h.h, 4)
  }

  function Sha256(m: seq<Byte>): (d: seq<Byte>)
    ensures |d| == 32
  {
    var p := Padded(m);
    Digest(HashValue(p, |p| / 64))
  }

  // --- padding loses nothing ---

  lemma {:induction false} BigEndianInjective(v: nat, w: nat, n: nat)
    requires BigEndian(v, n) == BigEndian(w, n) && v < Bound(n) && w < Bound(n)
    ensures v == w
    decreases n
  {
    if n > 0 {
      var x, y := BigEndian(v / 256, n - 1), BigEndian(w / 256, n - 1);
      assert x == (x + [v % 256])[..n - 1] && y == (y + [w % 256])[..n - 1];
      assert (x + [v % 256])[n - 1] == v % 256 && (y + [w % 256])[n - 1] == w % 256;
      BigEndianInjective(v / 256, w / 256, n - 1);
    }
  }

  function Bound(n: nat): nat { if n == 0 then 1 else 256 * Bound(n - 1) }

  /** Distinct messages, of fewer than 2^64 bits as the standard requires, have distinct
      padded forms. */
  lemma PaddingInjective(m: seq<Byte>, n: seq<Byte>)
    requires Padded(m) == Padded(n) && 8 * |m| < 0x1_0000_0000_0000_0000 && 8 * |n| < 0x1_0000_0000_0000_0000
    ensures m == n
  {
    var p, q := Padded(m), Padded(n);
    assert BigEndian(8 * |m|, 8) == p[|p| - 8..] && BigEndian(8 * |n|, 8) == q[|q| - 8..];
    assert Bound(8) == 0x1_0000_0000_0000_0000;
    BigEndianInjective(8 * |m|, 8 * |n|, 8);
    assert m == p[..|m|] && n == q[..|n|];
  }
}
