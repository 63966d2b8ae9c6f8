/** The client's SHA-256, in JavaScript arithmetic and in place, against FIPS 180-4.
    Intermediate values are signed and sums exceed 32 bits until `>>> 0` is applied; the
    schedule array is allocated once and overwritten by every block. */
module Sha256 {
  import opened JsNumber
  import F = Fips180

  type Byte = F.Byte
  type Word = F.Word

  datatype Outcome = Digest(bytes: seq<Byte>) | RangeError

  // --- the operators refine operations on words ---

  function Rotr(x: int, n: nat): int
    requires 1 <= n <= 31
  {
    Ushr(Or(Ushr(x, n), Shl(x, 32 - n)), 0)
  }

  lemma RotrIsRotation(x: Word, n: nat)
    requires 1 <= n <= 31
    ensures Rotr(x, n) == F.Rotr(n, x)
  {
    hide BitOr, Or, Shl, Halved, Doubled, ToUint32;
    var lo, hi := Halved(x, n), Shl(x, 32 - n);
    UnsignedSelf(x);
    UnsignedSelf(lo);
    assert Ushr(x, n) == lo;
    ShlUnsigned(x, 32 - n);
    OrWords(lo, hi);
    UshrZero(Or(lo, hi));
  }

  lemma OrWords(x: int, y: int)
    ensures ToUint32(Or(x, y)) == BitOr(ToUint32(x), ToUint32(y))
  {
    hide BitOr;
    F.Word32();
    F.BelowPow2(ToUint32(x), ToUint32(y), 32);
    UnsignedSelf(BitOr(ToUint32(x), ToUint32(y)));
  }

  lemma XorWords(x: int, y: int)
    ensures ToUint32(Xor(x, y)) == F.XorW(ToUint32(x), ToUint32(y))
  {
    hide BitXor;
  }

  lemma AndWords(x: int, y: int)
    ensures ToUint32(And(x, y)) == F.AndW(ToUint32(x), ToUint32(y))
  {
    hide BitAnd;
  }

  lemma NotWord(x: int)
    ensures ToUint32(Not(x)) == F.NotW(ToUint32(x))
  {}

  lemma UnsignedSelf(x: Word)
    ensures ToUint32(x) == x
  {}

  /** Two exclusive ors in a row, of words. */
  lemma Xor3(x: Word, y: Word, z: Word)
    ensures ToUint32(Xor(Xor(x, y), z)) == F.XorW(F.XorW(x, y), z)
  {
    hide Xor, F.XorW;
    XorWords(x, y);
    XorWords(Xor(x, y), z);
    UnsignedSelf(x);
    UnsignedSelf(y);
    UnsignedSelf(z);
  }

  // A sum of words, some of them still signed, is right once it is reduced.

  lemma UshrZero(x: int)
    ensures Ushr(x, 0) == ToUint32(x) == x % TWO32
  {}

  lemma Reduce(x: int, y: int)
    ensures ToUint32(x + y) == ToUint32(ToUint32(x) + y)
  {}

  lemma Sum2(x: int, y: int)
    ensures Ushr(x + y, 0) == (ToUint32(x) + ToUint32(y)) % TWO32
  {
    Reduce(x, y);
    Reduce(y, ToUint32(x));
    UshrZero(x + y);
  }

  lemma Sum4(x: int, y: int, z: int, u: int)
    ensures Ushr(x + y + z + u, 0) == (ToUint32(x) + ToUint32(y) + ToUint32(z) + ToUint32(u)) % TWO32
  {
    Sum5(x, y, z, u, 0);
  }

  lemma Sum5(x: int, y: int, z: int, u: int, v: int)
    ensures Ushr(x + y + z + u + v, 0)
         == (ToUint32(x) + ToUint32(y) + ToUint32(z) + ToUint32(u) + ToUint32(v)) % TWO32
  {
    hide ToUint32;
    var x', y', z', u' := ToUint32(x), ToUint32(y), ToUint32(z), ToUint32(u);
    UshrZero(x + y + z + u + v);
    UshrZero(x' + y' + z' + u' + ToUint32(v));
    Reduce(x, y + z + u + v);
    Reduce(y, x' + z + u + v);
    Reduce(z, x' + y' + u + v);
    Reduce(u, x' + y' + z' + v);
    Reduce(v, x' + y' + z' + u');
  }

  // --- the message schedule ---

  method GetUint32(buf: array<Byte>, i: nat) returns (w: Word)
    requires i + 4 <= buf.Length
    ensures w == F.WordAt(buf[..], i)
  {
    w := (buf[i] as int) * 0x100_0000 + (buf[i + 1] as int) * 0x1_0000 + (buf[i + 2] as int) * 0x100 + buf[i + 3] as int;
  }

  method ScheduleWord(x15: Word, x2: Word, x16: Word, x7: Word) returns (w: Word)
    ensures w == (F.SmallSigma1(x2) + x7 + F.SmallSigma0(x15) + x16) % TWO32
  {
    hide *;
    var s0 := Xor(Xor(Rotr(x15, 7), Rotr(x15, 18)), Ushr(x15, 3));
    var s1 := Xor(Xor(Rotr(x2, 17), Rotr(x2, 19)), Ushr(x2, 10));
    SmallSigmas(x15, x2);
    Sum4(x16, s0, x7, s1);
    UnsignedSelf(x16);
    UnsignedSelf(x7);
    w := Ushr(x16 + s0 + x7 + s1, 0);
  }

  lemma SmallSigmas(x: Word, y: Word)
    ensures ToUint32(Xor(Xor(Rotr(x, 7), Rotr(x, 18)), Ushr(x, 3))) == F.SmallSigma0(x)
    ensures ToUint32(Xor(Xor(Rotr(y, 17), Rotr(y, 19)), Ushr(y, 10))) == F.SmallSigma1(y)
  {
    hide Xor, F.XorW, F.Rotr, Rotr, Halved;
    RotrIsRotation(x, 7);
    RotrIsRotation(x, 18);
    RotrIsRotation(y, 17);
    RotrIsRotation(y, 19);
    UnsignedSelf(x);
    UnsignedSelf(y);
    Xor3(F.Rotr(7, x), F.Rotr(18, x), F.ShrW(3, x));
    Xor3(F.Rotr(17, y), F.Rotr(19, y), F.ShrW(10, y));
  }

  /** Fills w for the block at byte off; whatever w held before is overwritten. */
  method ExpandSchedule(buf: array<Byte>, off: nat, w: array<Word>)
    requires off + 64 <= buf.Length && w.Length == 64
    modifies w
    ensures forall t :: 0 <= t < 64 ==> w[t] == F.Schedule(buf[..], off, t)
  {
    hide F.SmallSigma0, F.SmallSigma1, F.WordAt;
    var t := 0;
    while t < 16
      invariant 0 <= t <= 16
      invariant forall j :: 0 <= j < t ==> w[j] == F.Schedule(buf[..], off, j)
    {
      w[t] := GetUint32(buf, off + t * 4);
      t := t + 1;
    }
    while t < 64
      invariant 16 <= t <= 64
      invariant forall j :: 0 <= j < t ==> w[j] == F.Schedule(buf[..], off, j)
    {
      w[t] := ScheduleWord(w[t - 15], w[t - 2], w[t - 16], w[t - 7]);
      t := t + 1;
    }
  }

  // --- the rounds ---

  method Temp1(e: Word, f: Word, g: Word, h: Word, k: Word, w: Word) returns (t1: Word)
    ensures t1 == (h + F.BigSigma1(e) + F.Ch(e, f, g) + k + w) % TWO32
  {
    hide *;
    var S1 := Xor(Xor(Rotr(e, 6), Rotr(e, 11)), Rotr(e, 25));
    var ch := Xor(And(e, f), And(Not(e), g));
    BigSigmas(e, e);
    Choice(e, f, g);
    Sum5(h, S1, ch, k, w);
    UnsignedSelf(h);
    UnsignedSelf(k);
    UnsignedSelf(w);
    t1 := Ushr(h + S1 + ch + k + w, 0);
  }

  method Temp2(a: Word, b: Word, c: Word) returns (t2: Word)
    ensures t2 == (F.BigSigma0(a) + F.Maj(a, b, c)) % TWO32
  {
    hide *;
    var S0 := Xor(Xor(Rotr(a, 2), Rotr(a, 13)), Rotr(a, 22));
    var maj := Xor(Xor(And(a, b), And(a, c)), And(b, c));
    BigSigmas(a, a);
    Majority(a, b, c);
    Sum2(S0, maj);
    t2 := Ushr(S0 + maj, 0);
  }

  lemma BigSigmas(x: Word, y: Word)
    ensures ToUint32(Xor(Xor(Rotr(x, 2), Rotr(x, 13)), Rotr(x, 22))) == F.BigSigma0(x)
    ensures ToUint32(Xor(Xor(Rotr(y, 6), Rotr(y, 11)), Rotr(y, 25))) == F.BigSigma1(y)
  {
    hide Xor, F.XorW, F.Rotr, Rotr;
    RotrIsRotation(x, 2);
    RotrIsRotation(x, 13);
    RotrIsRotation(x, 22);
    RotrIsRotation(y, 6);
    RotrIsRotation(y, 11);
    RotrIsRotation(y, 25);
    Xor3(F.Rotr(2, x), F.Rotr(13, x), F.Rotr(22, x));
    Xor3(F.Rotr(6, y), F.Rotr(11, y), F.Rotr(25, y));
  }

  lemma Choice(x: Word, y: Word, z: Word)
    ensures ToUint32(Xor(And(x, y), And(Not(x), z))) == F.Ch(x, y, z)
  {
    hide Xor, And, Not, F.XorW, F.AndW, F.NotW;
    UnsignedSelf(x);
    UnsignedSelf(y);
    UnsignedSelf(z);
    NotWord(x);
    AndWords(x, y);
    AndWords(Not(x), z);
    XorWords(And(x, y), And(Not(x), z));
  }

  lemma Majority(x: Word, y: Word, z: Word)
    ensures ToUint32(Xor(Xor(And(x, y), And(x, z)), And(y, z))) == F.Maj(x, y, z)
  {
    hide Xor, And, F.XorW, F.AndW;
    UnsignedSelf(x);
    UnsignedSelf(y);
    UnsignedSelf(z);
    AndWords(x, y);
    AndWords(x, z);
    AndWords(y, z);
    XorWords(And(x, y), And(x, z));
    XorWords(Xor(And(x, y), And(x, z)), And(y, z));
  }

  /** The 64 rounds on the schedule w, starting from the hash value s. */
  method Compress(w: array<Word>, s: F.Eight, ghost p: seq<Byte>, ghost off: nat) returns (r: F.Eight)
    requires off + 64 <= |p| && w.Length == 64
    requires forall t :: 0 <= t < 64 ==> w[t] == F.Schedule(p, off, t)
    ensures r == F.Rounds(p, off, s, 64)
  {
    hide F.BigSigma0, F.BigSigma1, F.Ch, F.Maj, F.Schedule, Ushr, ToUint32;
    F.KLength();
    var a: Word, b: Word, c: Word, d: Word := s.a, s.b, s.c, s.d;
    var e: Word, f: Word, g: Word, h: Word := s.e, s.f, s.g, s.h;
    var t := 0;
    while t < 64
      invariant 0 <= t <= 64
      invariant F.Eight(a, b, c, d, e, f, g, h) == F.Rounds(p, off, s, t)
    {
      var temp1: int := Temp1(e, f, g, h, F.K[t], w[t]);
      var temp2: int := Temp2(a, b, c);
      h := g;
      g := f;
      f := e;
      UshrZero(d + temp1);
      e := Ushr(d + temp1, 0);
      d := c;
      c := b;
      b := a;
      UshrZero(temp1 + temp2);
      a := Ushr(temp1 + temp2, 0);
      t := t + 1;
    }
    r := F.Eight(a, b, c, d, e, f, g, h);
  }

  method AddWords(h: F.Eight, v: F.Eight) returns (r: F.Eight)
    ensures r == F.Add(h, v)
  {
    hide Ushr;
    UshrZero(h.a + v.a);
    UshrZero(h.b + v.b);
    UshrZero(h.c + v.c);
    UshrZero(h.d + v.d);
    UshrZero(h.e + v.e);
    UshrZero(h.f + v.f);
    UshrZero(h.g + v.g);
    UshrZero(h.h + v.h);
    r := F.Eight(Ushr(h.a + v.a, 0), Ushr(h.b + v.b, 0), Ushr(h.c + v.c, 0), Ushr(h.d + v.d, 0),
                 Ushr(h.e + v.e, 0), Ushr(h.f + v.f, 0), Ushr(h.g + v.g, 0), Ushr(h.h + v.h, 0));
  }

  // --- padding ---

  /** The size the program computes, with 32-bit shifts. */
  function PaddedSize(ml: nat): int { Shl(Shr(ml + 8, 6) + 1, 6) }

  /** The largest input whose padded size still fits the shifts. */
  const LIMIT: nat := TWO31 - 73

  /** Up to LIMIT the size is the least multiple of 64 with room for the data, the 0x80
      byte and the length; above it no buffer of the computed size holds the data. */
  lemma PaddedSizeExact(ml: nat)
    ensures ml <= LIMIT ==> PaddedSize(ml) == ml + 9 + F.ZeroBytes(ml)
    ensures ml > LIMIT ==> PaddedSize(ml) < ml
  {
    hide PaddedSize, F.ZeroBytes;
    if ml <= LIMIT {
      SmallSize(ml);
    } else if ml < TWO31 - 8 {
      FirstTooLarge(ml);
    } else {
      LargeSize(ml);
    }
  }

  lemma SmallSize(ml: nat)
    requires ml <= LIMIT
    ensures PaddedSize(ml) == ml + 9 + F.ZeroBytes(ml)
  {
    hide Shr, Shl, Halved, Doubled;
    var q := (ml + 8) / 64;
    DivModIdentity(ml + 8, 64);
    ShrSmall(ml + 8, 6);
    HalvedValues(ml + 8);
    DoubledValues(q + 1);
    ShlSmall(q + 1, 6);
  }

  /** The shift left by 6 sets the sign bit. */
  lemma FirstTooLarge(ml: nat)
    requires LIMIT < ml < TWO31 - 8
    ensures PaddedSize(ml) == -TWO31
  {
    hide Shr, Shl, Halved, Doubled;
    DivModUnique(ml + 8, 64, 0x1ff_ffff, ml + 8 - 64 * 0x1ff_ffff);
    ShrSmall(ml + 8, 6);
    HalvedValues(ml + 8);
    SignBit();
  }

  lemma SignBit()
    ensures Shl(0x200_0000, 6) == -TWO31
  {
    hide Doubled;
    DoubledValues(0x200_0000);
  }

  lemma LargeSize(ml: nat)
    requires ml >= TWO31 - 8
    ensures PaddedSize(ml) < ml
  {
    hide Shr, Shl;
    MultipleOf64(Shr(ml + 8, 6) + 1);
  }

  lemma MultipleOf64(x: int)
    ensures Shl(x, 6) <= TWO31 - 64
  {
    hide Doubled;
    DoubledValues(ToUint32(x));
  }

  /** view.setUint32(i, v, false) */
  method SetUint32(buf: array<Byte>, i: nat, v: int)
    requires i + 4 <= buf.Length
    modifies buf
    ensures buf[..] == old(buf[..i]) + F.BigEndian(ToUint32(v), 4) + old(buf[i + 4..])
  {
    var u := ToUint32(v);
    FourBytes(u);
    buf[i] := u / 0x100_0000 % 256;
    buf[i + 1] := u / 0x1_0000 % 256;
    buf[i + 2] := u / 0x100 % 256;
    buf[i + 3] := u % 256;
  }

  lemma FourBytes(u: nat)
    ensures F.BigEndian(u, 4) == [u / 0x100_0000 % 256, u / 0x1_0000 % 256, u / 0x100 % 256, u % 256]
  {
    assert u / 256 / 256 == u / 0x1_0000 && u / 0x1_0000 / 256 == u / 0x100_0000;
    assert F.BigEndian(u / 0x100_0000, 1) == [u / 0x100_0000 % 256];
    assert F.BigEndian(u / 0x1_0000, 2) == [u / 0x100_0000 % 256, u / 0x1_0000 % 256];
    assert F.BigEndian(u / 0x100, 3) == [u / 0x100_0000 % 256, u / 0x1_0000 % 256, u / 0x100 % 256];
  }

  /** A zeroed buffer with the data and the 0x80 byte in front. */
  method Fill(data: array<Byte>, padded: nat) returns (b: array<Byte>)
    requires data.Length < padded
    ensures fresh(b) && b[..] == data[..] + [0x80] + F.Zeros(padded - data.Length - 1)
  {
    var ml := data.Length;
    b := new Byte[padded](_ => 0);
    forall i | 0 <= i < ml {
      b[i] := data[i];
    }
    b[ml] := 0x80;
  }

  /** A write of four bytes eight from the end, and one of four bytes at the end. */
  lemma LastTwoWrites(head: seq<Byte>, s0: seq<Byte>, s1: seq<Byte>, s2: seq<Byte>, hi: seq<Byte>, lo: seq<Byte>)
    requires |hi| == |lo| == 4 && |s0| == |s1| == |s2| == |head| + 8
    requires s0[..|head|] == head && s1 == s0[..|head|] + hi + s0[|head| + 4..]
    requires s2 == s1[..|head| + 4] + lo + s1[|head| + 8..]
    ensures s2 == head + (hi + lo)
  {
    assert s1[..|head| + 4] == head + hi;
    assert s1[|head| + 8..] == [];
  }

  /** The padded message, or null when allocating or filling the buffer throws. */
  method Pad(data: array<Byte>) returns (buf: array?<Byte>)
    ensures buf == null <==> data.Length > LIMIT
    ensures buf != null ==> fresh(buf) && buf[..] == F.Padded(data[..])
  {
    hide *;
    var ml := data.Length;
    var bitLen := ml * 8;
    var padded := PaddedSize(ml);
    PaddedSizeExact(ml);
    if padded < 0 || padded < ml {
      return null;
    }
    var b := Fill(data, padded);
    ghost var head := data[..] + [0x80] + F.Zeros(F.ZeroBytes(ml));
    ghost var s0 := b[..];
    HeadOf(data[..], padded);
    SetUint32(b, padded - 8, bitLen / 0x1_0000_0000);
    ghost var s1 := b[..];
    UshrZero(bitLen);
    UnsignedSelf(ToUint32(bitLen));
    SetUint32(b, padded - 4, Ushr(bitLen, 0));
    LastTwoWrites(head, s0, s1, b[..], F.BigEndian(ToUint32(bitLen / 0x1_0000_0000), 4), F.BigEndian(ToUint32(bitLen), 4));
    PaddedFromWords(data[..]);
    buf := b;
  }

  lemma HeadOf(m: seq<Byte>, padded: nat)
    requires padded == |m| + 9 + F.ZeroBytes(|m|)
    ensures var s := m + [0x80] + F.Zeros(padded - |m| - 1);
            s[..padded - 8] == m + [0x80] + F.Zeros(F.ZeroBytes(|m|))
  {
    hide F.ZeroBytes;
  }

  lemma PaddedFromWords(m: seq<Byte>)
    requires |m| <= LIMIT
    ensures F.Padded(m) == m + [0x80] + F.Zeros(F.ZeroBytes(|m|))
                           + (F.BigEndian(ToUint32(|m| * 8 / 0x1_0000_0000), 4) + F.BigEndian(ToUint32(|m| * 8), 4))
  {
    hide F.BigEndian, F.ZeroBytes, ToUint32;
    LengthWords(|m|);
  }

  /** The two words written are the 64-bit length; neither is cut off. */
  lemma LengthWords(ml: nat)
    requires ml <= LIMIT
    ensures F.BigEndian(ToUint32(8 * ml / TWO32), 4) + F.BigEndian(ToUint32(8 * ml), 4) == F.BigEndian(8 * ml, 8)
  {
    hide F.BigEndian;
    var v := 8 * ml;
    FourBytes(v);
    FourBytes(v % TWO32);
    LowBytes(v);
    UpperBytes(v);
    UnsignedSelf(v / TWO32);
  }

  lemma LowBytes(v: nat)
    ensures v / 0x100_0000 % 256 == v % TWO32 / 0x100_0000 % 256 && v / 0x1_0000 % 256 == v % TWO32 / 0x1_0000 % 256
    ensures v / 0x100 % 256 == v % TWO32 / 0x100 % 256 && v % 256 == v % TWO32 % 256
  {
    var q, r := v / TWO32, v % TWO32;
    Upper(v, q, r);
    SameRemainder(r / 0x100_0000, q);
    SameRemainder(r / 0x1_0000, 0x100 * q);
    SameRemainder(r / 0x100, 0x1_0000 * q);
    SameRemainder(r, 0x100_0000 * q);
  }

  lemma Upper(v: nat, q: nat, r: nat)
    requires v == q * TWO32 + r
    ensures v / 0x100_0000 == 256 * q + r / 0x100_0000
    ensures v / 0x1_0000 == 256 * (0x100 * q) + r / 0x1_0000
    ensures v / 0x100 == 256 * (0x1_0000 * q) + r / 0x100
  {}

  lemma SameRemainder(x: nat, k: nat)
    ensures (256 * k + x) % 256 == x % 256
  {}

  lemma UpperBytes(v: nat)
    ensures F.BigEndian(v, 8) == F.BigEndian(v / TWO32, 4) + F.BigEndian(v, 4)
  {
    hide F.BigEndian;
    Split(v, 4, 4);
    HalvedBytes(v);
  }

  function Shifted(v: nat, n: nat): nat
    decreases n
  {
    if n == 0 then v else Shifted(v / 256, n - 1)
  }

  lemma HalvedBytes(v: nat)
    ensures Shifted(v, 4) == v / TWO32
  {
    assert Shifted(v, 4) == v / 256 / 256 / 256 / 256;
  }

  lemma {:induction false} Split(v: nat, n: nat, m: nat)
    ensures F.BigEndian(v, n + m) == F.BigEndian(Shifted(v, m), n) + F.BigEndian(v, m)
    decreases m
  {
    if m > 0 {
      Split(v / 256, n, m - 1);
    }
  }

  // --- the digest ---

  /** The big-endian bytes of the first n words. */
  function Flattened(words: seq<Word>, n: nat): (b: seq<Byte>)
    requires n <= |words|
    ensures |b| == 4 * n
  {
    if n == 0 then [] else Flattened(words, n - 1) + F.BigEndian(words[n - 1], 4)
  }

  method Output(h: F.Eight) returns (digest: seq<Byte>)
    ensures digest == F.Digest(h)
  {
    var out := new Byte[32](_ => 0);
    var words: seq<Word> := [h.a, h.b, h.c, h.d, h.e, h.f, h.g, h.h];
    var i := 0;
    while i < 8
      invariant 0 <= i <= 8
      invariant out[..4 * i] == Flattened(words, i)
    {
      UnsignedSelf(words[i]);
      ghost var before := out[..4 * i];
      SetUint32(out, i * 4, words[i]);
      assert out[..4 * i + 4] == before + F.BigEndian(words[i], 4);
      i := i + 1;
    }
    digest := out[..];
    FlattenedDigest(h);
    assert digest == out[..32];
  }

  lemma FlattenedDigest(h: F.Eight)
    ensures Flattened([h.a, h.b, h.c, h.d, h.e, h.f, h.g, h.h], 8) == F.Digest(h)
  {
    hide F.BigEndian;
    var w: seq<Word> := [h.a, h.b, h.c, h.d, h.e, h.f, h.g, h.h];
    assert Flattened(w, 2) == F.BigEndian(h.a, 4) + F.BigEndian(h.b, 4);
    assert Flattened(w, 4) == Flattened(w, 2) + F.BigEndian(h.c, 4) + F.BigEndian(h.d, 4);
    assert Flattened(w, 6) == Flattened(w, 4) + F.BigEndian(h.e, 4) + F.BigEndian(h.f, 4);
  }

  /** The digest, for every input that fits the padding shifts; a thrown RangeError for
      every other input. */
  method Hash(data: array<Byte>) returns (r: Outcome)
    ensures r == if data.Length <= LIMIT then Digest(F.Sha256(data[..])) else RangeError
  {
    hide F.Padded, F.Rounds, F.Digest, F.H0;
    var buf := Pad(data);
    if buf == null {
      return RangeError;
    }
    ghost var p := buf[..];
    var h := F.H0;
    var w := new Word[64](_ => 0);
    var off := 0;
    ghost var n := 0;
    while off < buf.Length
      invariant off == 64 * n <= buf.Length
      invariant buf[..] == p
      invariant h == F.HashValue(p, n)
    {
      ExpandSchedule(buf, off, w);
      var v := Compress(w, h, p, off);
      h := AddWords(h, v);
      off := off + 64;
      n := n + 1;
    }
    var out := Output(h);
    r := Digest(out);
  }
}
