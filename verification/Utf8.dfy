/** The client's UTF-8 encoder and decoder over UTF-16 code units, against the byte
    forms of section 3 of RFC 3629. */
module Utf8 {
  import opened JsNumber
  import opened Numerals

  /** A JavaScript string: any sequence of 16-bit code units. */
  ghost predicate AreUnits(s: seq<nat>) {
    forall k :: 0 <= k < |s| ==> s[k] < 0x10000
  }

  predicate IsHigh(u: nat) { 0xd800 <= u <= 0xdbff }

  predicate IsLow(u: nat) { 0xdc00 <= u <= 0xdfff }

  /** Every high surrogate is followed at once by a low one. */
  ghost predicate HighsPaired(s: seq<nat>) {
    forall k :: 0 <= k < |s| && IsHigh(s[k]) ==> k + 1 < |s| && IsLow(s[k + 1])
  }

  /** The UTF-8 byte form of a code point (the table in section 3 of RFC 3629). */
  function ByteForm(p: nat): (b: seq<nat>)
    requires p < 0x110000
    ensures AreBytes(b) && |b| >= 1
  {
    if p < 0x80 then [p]
    else if p < 0x800 then [0xc0 + p / 64, 0x80 + p % 64]
    else if p < 0x10000 then [0xe0 + p / 4096, 0x80 + p / 64 % 64, 0x80 + p % 64]
    else [0xf0 + p / 0x40000, 0x80 + p / 4096 % 64, 0x80 + p / 64 % 64, 0x80 + p % 64]
  }

  /** The code point of a surrogate pair; only the low ten bits of each unit matter. */
  function PairPoint(hi: nat, lo: nat): (p: nat)
    ensures 0x10000 <= p < 0x110000
  {
    0x10000 + hi % 1024 * 1024 + lo % 1024
  }

  /** The code units of a code point in UTF-16. */
  function UnitsOf(p: nat): (u: seq<nat>)
    requires p < 0x110000
    ensures AreUnits(u)
  {
    if p < 0x10000 then [p] else [0xd800 + (p - 0x10000) / 1024, 0xdc00 + (p - 0x10000) % 1024]
  }

  /** `charCodeAt`: past the end it gives `NaN`, which counts as 0 in a bitwise operation. */
  function CharCodeAt(s: seq<nat>, i: nat): nat {
    if i < |s| then s[i] else 0
  }

  /** The character at position i as the encoder reads it: whatever follows a high
      surrogate is taken for the low one. */
  function PointAt(s: seq<nat>, i: nat): (p: nat)
    requires i < |s| && s[i] < 0x10000
    ensures p < 0x110000
  {
    if IsHigh(s[i]) then PairPoint(s[i], CharCodeAt(s, i + 1)) else s[i]
  }

  function Width(u: nat): nat { if IsHigh(u) then 2 else 1 }

  /** The encoding of s from position i on; i may be one past the end. */
  function EncodedFrom(s: seq<nat>, i: nat): (b: seq<nat>)
    requires AreUnits(s)
    decreases |s| - i
  {
    if i < |s| then ByteForm(PointAt(s, i)) + EncodedFrom(s, i + Width(s[i])) else []
  }

  // --- utf8Encode ---

  /** A continuation byte carries six bits. */
  lemma Continuation(x: nat)
    requires x < TWO31
    ensures Or(0x80, And(x, 0x3f)) == 0x80 + x % 64
  {
    MaskValues();
    DoubledValues(2);
    AndField(x, 6, 0x3f, 64);
    OrField(2, 6, 0x80, x % 64);
  }

  lemma ShiftedContinuation(c: nat)
    requires c < 0x110000
    ensures Or(0x80, And(Shr(c, 6), 0x3f)) == 0x80 + c / 64 % 64
    ensures Or(0x80, And(Shr(c, 12), 0x3f)) == 0x80 + c / 4096 % 64
  {
    HalvedValues(c);
    HalvedValuesHigh(c);
    ShrSmall(c, 6);
    ShrSmall(c, 12);
    Continuation(c / 64);
    Continuation(c / 4096);
  }

  lemma LeadTwo(c: nat)
    requires c < 0x800
    ensures Or(0xc0, Shr(c, 6)) == 0xc0 + c / 64
  {
    MaskValues();
    HalvedValues(c);
    ShrSmall(c, 6);
    DoubledValues(3);
    OrField(3, 6, 0xc0, c / 64);
  }

  lemma LeadThree(c: nat)
    requires c < 0x10000
    ensures Or(0xe0, Shr(c, 12)) == 0xe0 + c / 4096
  {
    MaskValues();
    HalvedValuesHigh(c);
    ShrSmall(c, 12);
    DoubledValues(14);
    OrField(14, 4, 0xe0, c / 4096);
  }

  lemma LeadFour(c: nat)
    requires c < 0x110000
    ensures Or(0xf0, Shr(c, 18)) == 0xf0 + c / 0x40000
  {
    MaskValues();
    HalvedValuesHigh(c);
    ShrSmall(c, 18);
    assert Doubled(30, 3) == 0xf0;
    OrField(30, 3, 0xf0, c / 0x40000);
  }

  method PushTwo(c: nat) returns (b: seq<nat>)
    requires 0x80 <= c < 0x800
    ensures b == ByteForm(c)
  {
    hide And, Or, Shl, Shr;
    LeadTwo(c);
    Continuation(c);
    b := [Or(0xc0, Shr(c, 6)), Or(0x80, And(c, 0x3f))];
  }

  method PushThree(c: nat) returns (b: seq<nat>)
    requires 0x800 <= c < 0x10000
    ensures b == ByteForm(c)
  {
    hide And, Or, Shl, Shr;
    LeadThree(c);
    ShiftedContinuation(c);
    Continuation(c);
    b := [Or(0xe0, Shr(c, 12)), Or(0x80, And(Shr(c, 6), 0x3f)), Or(0x80, And(c, 0x3f))];
  }

  method PushFour(c: nat) returns (b: seq<nat>)
    requires 0x10000 <= c < 0x110000
    ensures b == ByteForm(c)
  {
    hide And, Or, Shl, Shr;
    LeadFour(c);
    ShiftedContinuation(c);
    Continuation(c);
    b := [Or(0xf0, Shr(c, 18)), Or(0x80, And(Shr(c, 12), 0x3f)), Or(0x80, And(Shr(c, 6), 0x3f)), Or(0x80, And(c, 0x3f))];
  }

  method Combine(hi: nat, lo: nat) returns (code: nat)
    requires hi < 0x10000 && lo < 0x10000
    ensures code == PairPoint(hi, lo)
  {
    hide And, Or, Shl, Shr;
    MaskValues();
    AndField(hi, 10, 0x3ff, 1024);
    AndField(lo, 10, 0x3ff, 1024);
    DoubledValues(hi % 1024);
    ShlSmall(hi % 1024, 10);
    code := 0x10000 + Shl(And(hi, 0x3ff), 10) + And(lo, 0x3ff);
  }

  lemma Associative<T>(a: seq<T>, b: seq<T>, c: seq<T>)
    ensures (a + b) + c == a + (b + c)
  {}

  lemma {:induction false} EncodedBytes(s: seq<nat>, i: nat)
    requires AreUnits(s)
    ensures AreBytes(EncodedFrom(s, i))
    decreases |s| - i
  {
    if i < |s| {
      EncodedBytes(s, i + Width(s[i]));
    }
  }

  lemma AsciiForm(c: nat)
    requires c < 0x80
    ensures ByteForm(c) == [c]
  {}

  /** What the loop still has to encode after one character. */
  lemma EncodeNext(s: seq<nat>, i: nat, done: seq<nat>)
    requires AreUnits(s) && i < |s|
    ensures done + EncodedFrom(s, i) == (done + ByteForm(PointAt(s, i))) + EncodedFrom(s, i + Width(s[i]))
  {
    hide ByteForm, PointAt, Width;
    Associative(done, ByteForm(PointAt(s, i)), EncodedFrom(s, i + Width(s[i])));
  }

  method Utf8Encode(s: seq<nat>) returns (bytes: seq<nat>)
    requires AreUnits(s)
    ensures bytes == EncodedFrom(s, 0) && AreBytes(bytes)
  {
    hide ByteForm, EncodedFrom, PairPoint, And, Or, Shl, Shr;
    bytes := [];
    var i := 0;
    while i < |s|
      invariant 0 <= i
      invariant EncodedFrom(s, 0) == bytes + EncodedFrom(s, i)
    {
      EncodeNext(s, i, bytes);
      ghost var point := PointAt(s, i);
      var code := s[i];
      var pushed: seq<nat>;
      if code < 0x80 {
        AsciiForm(code);
        pushed := [code];
      } else if code < 0x800 {
        pushed := PushTwo(code);
      } else if code >= 0xd800 && code <= 0xdbff {
        i := i + 1;
        code := Combine(code, CharCodeAt(s, i));
        pushed := PushFour(code);
      } else {
        pushed := PushThree(code);
      }
      assert pushed == ByteForm(point);
      bytes := bytes + pushed;
      i := i + 1;
    }
    NothingToEncode(s, i);
    EncodedBytes(s, 0);
  }

  lemma NothingToEncode(s: seq<nat>, i: nat)
    requires AreUnits(s) && i >= |s|
    ensures EncodedFrom(s, i) == []
  {}

  // --- utf8Decode ---

  /** A byte read past the end is `undefined`, which counts as 0 in a bitwise operation. */
  function ByteAt(b: seq<nat>, i: nat): nat {
    if i < |b| then b[i] else 0
  }

  /** The code point in the low bits of a two-, three- or four-byte form. */
  function TwoBytePoint(b0: nat, b1: nat): nat { b0 % 32 * 64 + b1 % 64 }

  function ThreeBytePoint(b0: nat, b1: nat, b2: nat): nat { b0 % 16 * 4096 + b1 % 64 * 64 + b2 % 64 }

  function FourBytePoint(b0: nat, b1: nat, b2: nat, b3: nat): nat {
    b0 % 8 * 0x40000 + b1 % 64 * 4096 + b2 % 64 * 64 + b3 % 64
  }

  /** The surrogates the decoder writes for a four-byte form, which may spell a number
      outside the range of code points. */
  function Surrogates(p: nat): seq<int> {
    [0xd800 + (p - 0x10000) / 1024, 0xdc00 + (p - 0x10000) % 1024]
  }

  /** The length of a byte form, told by its first byte. */
  function FormSize(b0: nat): nat {
    if b0 < 0x80 then 1 else if b0 < 0xe0 then 2 else if b0 < 0xf0 then 3 else 4
  }

  /** The units read at position i. */
  function UnitsAt(b: seq<nat>, i: nat): seq<int>
    requires i < |b|
  {
    var b0, b1, b2, b3 := b[i], ByteAt(b, i + 1), ByteAt(b, i + 2), ByteAt(b, i + 3);
    if b0 < 0x80 then [b0]
    else if b0 < 0xe0 then [TwoBytePoint(b0, b1)]
    else if b0 < 0xf0 then [ThreeBytePoint(b0, b1, b2)]
    else Surrogates(FourBytePoint(b0, b1, b2, b3))
  }

  /** What the bytes from position i on decode to; i may be past the end. */
  function DecodedFrom(b: seq<nat>, i: nat): (s: seq<int>)
    decreases |b| - i
  {
    if i < |b| then UnitsAt(b, i) + DecodedFrom(b, i + FormSize(b[i])) else []
  }

  lemma TailByte(b: nat)
    requires b < 256
    ensures And(b, 0x3f) == b % 64
  {
    MaskValues();
    AndField(b, 6, 0x3f, 64);
  }

  lemma OrSix(x: nat, c: nat)
    requires x < 0x10000 && c < 64
    ensures Or(x * 64, c) == x * 64 + c
  {
    MaskValues();
    DoubledValues(x);
    OrField(x, 6, x * 64, c);
  }

  lemma OrTwelve(x: nat, y: nat)
    requires x < 0x1000 && y < 4096
    ensures Or(x * 4096, y) == x * 4096 + y
  {
    MaskValuesHigh();
    DoubledValues(x);
    OrField(x, 12, x * 4096, y);
  }

  lemma OrEighteen(x: nat, y: nat)
    requires x < 8 && y < 0x40000
    ensures Or(x * 0x40000, y) == x * 0x40000 + y
  {
    MaskValuesHigh();
    DoubledValues(x);
    OrField(x, 18, x * 0x40000, y);
  }

  lemma MaskValuesHigh()
    ensures Ones(12) == 0xfff && Ones(18) == 0x3ffff
  {
    assert Ones(9) == 511;
  }

  lemma ShlSix(x: nat)
    requires x < 0x1000
    ensures Shl(x, 6) == x * 64
  {
    DoubledValues(x);
    ShlSmall(x, 6);
  }

  lemma ShlTwelve(x: nat)
    requires x < 0x1000
    ensures Shl(x, 12) == x * 4096
  {
    DoubledValues(x);
    ShlSmall(x, 12);
  }

  lemma ShlEighteen(x: nat)
    requires x < 8
    ensures Shl(x, 18) == x * 0x40000
  {
    DoubledValues(x);
    ShlSmall(x, 18);
  }

  lemma LeadBits(b: nat)
    requires b < 256
    ensures And(b, 0x1f) == b % 32 && And(b, 0x0f) == b % 16 && And(b, 0x07) == b % 8
  {
    MaskValues();
    AndField(b, 5, 0x1f, 32);
    AndField(b, 4, 0x0f, 16);
    AndField(b, 3, 0x07, 8);
  }

  lemma TwoByteDecode(b0: nat, b1: nat)
    requires b0 < 256 && b1 < 256
    ensures Or(Shl(And(b0, 0x1f), 6), And(b1, 0x3f)) == TwoBytePoint(b0, b1)
  {
    hide And, Or, Shl, Shr;
    LeadBits(b0);
    TailByte(b1);
    ShlSix(b0 % 32);
    OrSix(b0 % 32, b1 % 64);
  }

  lemma ThreeByteDecode(b0: nat, b1: nat, b2: nat)
    requires b0 < 256 && b1 < 256 && b2 < 256
    ensures Or(Or(Shl(And(b0, 0x0f), 12), Shl(And(b1, 0x3f), 6)), And(b2, 0x3f)) == ThreeBytePoint(b0, b1, b2)
  {
    hide And, Or, Shl, Shr;
    LeadBits(b0);
    TailByte(b1);
    TailByte(b2);
    ShlTwelve(b0 % 16);
    AppendTail(b0 % 16, b1 % 64, b2 % 64);
  }

  /** Twelve bits of room, filled by two tail bytes. */
  lemma AppendTail(x: nat, c1: nat, c2: nat)
    requires x < 0x400 && c1 < 64 && c2 < 64
    ensures Or(Or(x * 4096, Shl(c1, 6)), c2) == x * 4096 + c1 * 64 + c2
  {
    hide And, Or, Shl, Shr;
    ShlSix(c1);
    OrTwelve(x, c1 * 64);
    OrSix(x * 64 + c1, c2);
  }

  lemma FourByteDecode(b0: nat, b1: nat, b2: nat, b3: nat)
    requires b0 < 256 && b1 < 256 && b2 < 256 && b3 < 256
    ensures Or(Or(Or(Shl(And(b0, 0x07), 18), Shl(And(b1, 0x3f), 12)), Shl(And(b2, 0x3f), 6)), And(b3, 0x3f))
         == FourBytePoint(b0, b1, b2, b3)
  {
    hide And, Or, Shl, Shr;
    LeadBits(b0);
    TailByte(b1);
    TailByte(b2);
    TailByte(b3);
    ShlEighteen(b0 % 8);
    ShlTwelve(b1 % 64);
    FourFields(b0 % 8, b1 % 64, b2 % 64, b3 % 64);
  }

  lemma AppendTailTo(w: nat, x: nat, c1: nat, c2: nat)
    requires w == x * 4096 && x < 0x400 && c1 < 64 && c2 < 64
    ensures Or(Or(w, Shl(c1, 6)), c2) == w + c1 * 64 + c2
  {
    hide And, Or, Shl, Shr;
    AppendTail(x, c1, c2);
  }

  lemma FourFields(x: nat, c1: nat, c2: nat, c3: nat)
    requires x < 8 && c1 < 64 && c2 < 64 && c3 < 64
    ensures Or(Or(Or(x * 0x40000, c1 * 4096), Shl(c2, 6)), c3) == x * 0x40000 + c1 * 4096 + c2 * 64 + c3
  {
    hide And, Or, Shl, Shr;
    OrEighteen(x, c1 * 4096);
    AppendTailTo(x * 0x40000 + c1 * 4096, x * 64 + c1, c2, c3);
  }

  lemma SurrogateOps(p: nat)
    requires p < 0x20_0000
    ensures 0xd800 + Shr(p - 0x10000, 10) == Surrogates(p)[0]
    ensures 0xdc00 + And(p - 0x10000, 0x3ff) == Surrogates(p)[1]
  {
    var cp := p - 0x10000;
    MaskValues();
    HalvedValuesHigh(cp);
    InWord(cp);
    AndLowBits(cp, 10, 0x3ff, 1024);
  }

  lemma InWord(x: int)
    requires -TWO31 <= x < TWO31
    ensures ToInt32(x) == x && ToUint32(x) % 1024 == x % 1024
  {
    if x < 0 {
      DivModUnique(x, TWO32, -1, x + TWO32);
      DivModIdentity(x, 1024);
      DivModUnique(x + TWO32, 1024, x / 1024 + 0x40_0000, x % 1024);
    }
  }

  method ReadTwo(b0: nat, b1: nat) returns (units: seq<int>)
    requires b0 < 256 && b1 < 256
    ensures units == [TwoBytePoint(b0, b1)]
  {
    hide And, Or, Shl, Shr;
    TwoByteDecode(b0, b1);
    units := [Or(Shl(And(b0, 0x1f), 6), And(b1, 0x3f))];
  }

  method ReadThree(b0: nat, b1: nat, b2: nat) returns (units: seq<int>)
    requires b0 < 256 && b1 < 256 && b2 < 256
    ensures units == [ThreeBytePoint(b0, b1, b2)]
  {
    hide And, Or, Shl, Shr;
    ThreeByteDecode(b0, b1, b2);
    units := [Or(Or(Shl(And(b0, 0x0f), 12), Shl(And(b1, 0x3f), 6)), And(b2, 0x3f))];
  }

  method ReadFour(b0: nat, b1: nat, b2: nat, b3: nat) returns (units: seq<int>)
    requires b0 < 256 && b1 < 256 && b2 < 256 && b3 < 256
    ensures units == Surrogates(FourBytePoint(b0, b1, b2, b3))
  {
    hide And, Or, Shl, Shr;
    FourByteDecode(b0, b1, b2, b3);
    var cp := Or(Or(Or(Shl(And(b0, 0x07), 18), Shl(And(b1, 0x3f), 12)), Shl(And(b2, 0x3f), 6)), And(b3, 0x3f));
    SurrogateOps(cp);
    cp := cp - 0x10000;
    units := [0xd800 + Shr(cp, 10), 0xdc00 + And(cp, 0x3ff)];
  }

  lemma UnitsFit(b: seq<nat>, i: nat)
    requires AreBytes(b) && i < |b|
    ensures forall k :: 0 <= k < |UnitsAt(b, i)| ==> 0 <= UnitsAt(b, i)[k] < 0x10000
  {
    var b0, b1, b2, b3 := b[i], ByteAt(b, i + 1), ByteAt(b, i + 2), ByteAt(b, i + 3);
    if b0 >= 0xf0 {
      SurrogatesFit(FourBytePoint(b0, b1, b2, b3));
    }
  }

  lemma SurrogatesFit(p: nat)
    requires p < 0x20_0000
    ensures forall k :: 0 <= k < |Surrogates(p)| ==> 0 <= Surrogates(p)[k] < 0x10000
  {}

  lemma {:induction false} DecodedFit(b: seq<nat>, i: nat)
    requires AreBytes(b)
    ensures forall k :: 0 <= k < |DecodedFrom(b, i)| ==> 0 <= DecodedFrom(b, i)[k] < 0x10000
    decreases |b| - i
  {
    if i < |b| {
      UnitsFit(b, i);
      DecodedFit(b, i + FormSize(b[i]));
      hide AreBytes, UnitsAt, FormSize;
    }
  }

  /** What the loop still has to decode after one form. */
  lemma DecodeNext(b: seq<nat>, i: nat, done: seq<int>)
    requires i < |b|
    ensures done + DecodedFrom(b, i) == (done + UnitsAt(b, i)) + DecodedFrom(b, i + FormSize(b[i]))
  {
    hide UnitsAt, FormSize;
    Associative(done, UnitsAt(b, i), DecodedFrom(b, i + FormSize(b[i])));
  }

  /** The decoder. Each unit is 16 bits wide, so `fromCharCode` keeps it as it is. */
  method Utf8Decode(bytes: seq<nat>) returns (out: seq<int>)
    requires AreBytes(bytes)
    ensures out == DecodedFrom(bytes, 0)
    ensures forall k :: 0 <= k < |out| ==> 0 <= out[k] < 0x10000
  {
    hide DecodedFrom, TwoBytePoint, ThreeBytePoint, FourBytePoint, Surrogates, And, Or, Shl, Shr;
    out := [];
    var i := 0;
    while i < |bytes|
      invariant 0 <= i
      invariant DecodedFrom(bytes, 0) == out + DecodedFrom(bytes, i)
      decreases |bytes| - i
    {
      DecodeNext(bytes, i, out);
      ghost var form := UnitsAt(bytes, i);
      var b0 := bytes[i];
      var b1, b2, b3 := ByteAt(bytes, i + 1), ByteAt(bytes, i + 2), ByteAt(bytes, i + 3);
      var units: seq<int>;
      if b0 < 0x80 {
        units, i := [b0], i + 1;
      } else if b0 < 0xe0 {
        units := ReadTwo(b0, b1);
        i := i + 2;
      } else if b0 < 0xf0 {
        units := ReadThree(b0, b1, b2);
        i := i + 3;
      } else {
        units := ReadFour(b0, b1, b2, b3);
        i := i + 4;
      }
      assert units == form;
      out := out + units;
    }
    NothingToDecode(bytes, i);
    DecodedFit(bytes, 0);
  }

  lemma NothingToDecode(b: seq<nat>, i: nat)
    requires i >= |b|
    ensures DecodedFrom(b, i) == []
  {}

  // --- round trip ---

  /** A byte form inside a byte string decodes to the units of its code point. */
  lemma DecodeForm(b: seq<nat>, i: nat, p: nat)
    requires p < 0x110000 && i + |ByteForm(p)| <= |b|
    requires forall k :: 0 <= k < |ByteForm(p)| ==> b[i + k] == ByteForm(p)[k]
    ensures DecodedFrom(b, i) == UnitsOf(p) + DecodedFrom(b, i + |ByteForm(p)|)
  {
    hide UnitsAt, FormSize, UnitsOf;
    FormAt(b, i, p);
  }

  lemma FormAt(b: seq<nat>, i: nat, p: nat)
    requires p < 0x110000 && i + |ByteForm(p)| <= |b|
    requires forall k :: 0 <= k < |ByteForm(p)| ==> b[i + k] == ByteForm(p)[k]
    ensures UnitsAt(b, i) == UnitsOf(p) && FormSize(b[i]) == |ByteForm(p)|
  {
    hide TwoBytePoint, ThreeBytePoint, FourBytePoint;
    var f := ByteForm(p);
    FormPoint(p);
    assert b[i] == f[0];
    if p < 0x80 {
    } else if p < 0x800 {
      assert ByteAt(b, i + 1) == f[1];
    } else if p < 0x10000 {
      assert ByteAt(b, i + 1) == f[1] && ByteAt(b, i + 2) == f[2];
    } else {
      assert ByteAt(b, i + 1) == f[1] && ByteAt(b, i + 2) == f[2] && ByteAt(b, i + 3) == f[3];
    }
  }

  lemma FormPoint(p: nat)
    requires p < 0x110000
    ensures 0x80 <= p < 0x800 ==> TwoBytePoint(0xc0 + p / 64, 0x80 + p % 64) == p
    ensures 0x800 <= p < 0x10000 ==> ThreeBytePoint(0xe0 + p / 4096, 0x80 + p / 64 % 64, 0x80 + p % 64) == p
    ensures 0x10000 <= p ==>
              FourBytePoint(0xf0 + p / 0x40000, 0x80 + p / 4096 % 64, 0x80 + p / 64 % 64, 0x80 + p % 64) == p
  {
    TailBits(p);
    if p < 0x800 {
      DivModUnique(0xc0 + p / 64, 32, 6, p / 64);
    } else if p < 0x10000 {
      ThreeByteForm(p, p / 64, p / 4096);
    } else {
      FourByteForm(p, p / 64, p / 4096, p / 0x40000);
    }
  }

  lemma ThreeByteForm(p: nat, x: nat, y: nat)
    requires p < 0x10000 && x == p / 64 && y == p / 4096
    ensures ThreeBytePoint(0xe0 + y, 0x80 + x % 64, 0x80 + p % 64) == p
  {
    TailBits(p);
    TailBits(x);
    assert x == y * 64 + x % 64;
    DivModUnique(0xe0 + y, 16, 14, y);
  }

  lemma FourByteForm(p: nat, x: nat, y: nat, z: nat)
    requires p < 0x110000 && x == p / 64 && y == p / 4096 && z == p / 0x40000
    ensures FourBytePoint(0xf0 + z, 0x80 + y % 64, 0x80 + x % 64, 0x80 + p % 64) == p
  {
    TailBits(p);
    TailBits(x);
    TailBits(y);
    SixBitDigits(p);
    DivModUnique(0xf0 + z, 8, 30, z);
  }

  lemma SixBitDigits(p: nat)
    ensures p == p / 64 * 64 + p % 64
    ensures p / 64 == p / 4096 * 64 + p / 64 % 64
    ensures p / 4096 == p / 0x40000 * 64 + p / 4096 % 64
  {}

  lemma TailBits(x: nat)
    ensures (0x80 + x % 64) % 64 == x % 64
  {
    DivModUnique(0x80 + x % 64, 64, 2, x % 64);
  }

  /** The units of what the encoder reads at i are the units it took, unless it took a
      high surrogate without a low one behind it. */
  lemma UnitsRead(s: seq<nat>, i: nat)
    requires AreUnits(s) && i < |s|
    ensures !IsHigh(s[i]) ==> UnitsOf(PointAt(s, i)) == [s[i]]
    ensures IsHigh(s[i]) ==> UnitsOf(PointAt(s, i)) == [s[i], 0xdc00 + CharCodeAt(s, i + 1) % 1024]
  {}

  ghost predicate PairedFrom(s: seq<nat>, i: nat) {
    forall k :: i <= k < |s| && IsHigh(s[k]) ==> k + 1 < |s| && IsLow(s[k + 1])
  }

  /** That the rest from position i on comes back, behind these bytes. */
  ghost predicate ComesBack(s: seq<nat>, i: nat, before: seq<nat>)
    requires AreUnits(s) && i <= |s|
  {
    DecodedFrom(before + EncodedFrom(s, i), |before|) == s[i..]
  }

  lemma {:induction false} RoundTripFrom(s: seq<nat>, i: nat, before: seq<nat>)
    requires AreUnits(s) && i <= |s|
    ensures PairedFrom(s, i) <==> DecodedFrom(before + EncodedFrom(s, i), |before|) == s[i..]
    decreases |s| - i
  {
    hide ByteForm, UnitsOf, PointAt, DecodedFrom, EncodedFrom, PairedFrom, IsHigh;
    if i == |s| {
      NothingLeft(s, before);
    } else if i + Width(s[i]) <= |s| {
      RoundTripFrom(s, i + Width(s[i]), before + ByteForm(PointAt(s, i)));
      RoundTripStep(s, i, before);
    } else {
      LoneHigh(s, i, before);
    }
  }

  lemma NothingLeft(s: seq<nat>, before: seq<nat>)
    requires AreUnits(s)
    ensures PairedFrom(s, |s|) && ComesBack(s, |s|, before)
  {}

  lemma RoundTripStep(s: seq<nat>, i: nat, before: seq<nat>)
    requires AreUnits(s) && i < |s| && i + Width(s[i]) <= |s|
    requires PairedFrom(s, i + Width(s[i])) <==> ComesBack(s, i + Width(s[i]), before + ByteForm(PointAt(s, i)))
    ensures PairedFrom(s, i) <==> ComesBack(s, i, before)
  {
    hide ByteForm, UnitsOf, PointAt, DecodedFrom, EncodedFrom, PairedFrom, IsHigh;
    var p, next := PointAt(s, i), i + Width(s[i]);
    var b := DecodeFirst(s, i, before);
    FirstUnits(s, i);
    SplitEquality(UnitsOf(p), DecodedFrom(b, |before + ByteForm(p)|), s, i, next);
  }

  /** A high surrogate at the end comes back with a low one behind it. */
  lemma LoneHigh(s: seq<nat>, i: nat, before: seq<nat>)
    requires AreUnits(s) && i < |s| < i + Width(s[i])
    ensures !PairedFrom(s, i) && !ComesBack(s, i, before)
  {
    hide ByteForm, UnitsOf, PointAt, DecodedFrom, EncodedFrom;
    var b := DecodeFirst(s, i, before);
    UnitsRead(s, i);
  }

  lemma DecodeFirst(s: seq<nat>, i: nat, before: seq<nat>) returns (b: seq<nat>)
    requires AreUnits(s) && i < |s|
    ensures b == before + EncodedFrom(s, i)
    ensures b == (before + ByteForm(PointAt(s, i))) + EncodedFrom(s, i + Width(s[i]))
    ensures DecodedFrom(b, |before|)
         == UnitsOf(PointAt(s, i)) + DecodedFrom(b, |before + ByteForm(PointAt(s, i))|)
  {
    var p, next := PointAt(s, i), i + Width(s[i]);
    assert EncodedFrom(s, i) == ByteForm(p) + EncodedFrom(s, next);
    b := DecodeInside(before, p, EncodedFrom(s, next));
  }

  lemma DecodeInside(before: seq<nat>, p: nat, rest: seq<nat>) returns (b: seq<nat>)
    requires p < 0x110000
    ensures b == before + (ByteForm(p) + rest)
    ensures b == (before + ByteForm(p)) + rest
    ensures DecodedFrom(b, |before|) == UnitsOf(p) + DecodedFrom(b, |before + ByteForm(p)|)
  {
    hide ByteForm, UnitsOf, DecodedFrom;
    Associative(before, ByteForm(p), rest);
    b := (before + ByteForm(p)) + rest;
    DecodeForm(b, |before|, p);
  }

  /** The first character comes back, and the rest is paired, exactly when all is paired. */
  lemma FirstUnits(s: seq<nat>, i: nat)
    requires AreUnits(s) && i < |s| && i + Width(s[i]) <= |s|
    ensures |UnitsOf(PointAt(s, i))| == Width(s[i])
    ensures PairedFrom(s, i) <==>
              UnitsOf(PointAt(s, i)) == s[i..i + Width(s[i])] && PairedFrom(s, i + Width(s[i]))
  {
    UnitsRead(s, i);
    if IsHigh(s[i]) {
      assert s[i..i + 2] == [s[i], s[i + 1]];
      assert IsLow(s[i + 1]) <==> 0xdc00 + s[i + 1] % 1024 == s[i + 1];
    } else {
      assert s[i..i + 1] == [s[i]];
    }
  }

  lemma SplitEquality(x: seq<int>, y: seq<int>, s: seq<nat>, i: nat, j: nat)
    requires i <= j <= |s| && |x| == j - i
    ensures x + y == s[i..] <==> x == s[i..j] && y == s[j..]
  {
    assert s[i..] == s[i..j] + s[j..];
    if x + y == s[i..] {
      assert x == (x + y)[..|x|] && y == (x + y)[|x|..];
    }
  }

  /** Decoding undoes encoding exactly when every high surrogate has its low one. */
  lemma Utf8RoundTrip(s: seq<nat>)
    requires AreUnits(s)
    ensures HighsPaired(s) <==> DecodedFrom(EncodedFrom(s, 0), 0) == s
  {
    assert HighsPaired(s) <==> PairedFrom(s, 0);
    hide *;
    RoundTripFrom(s, 0, []);
    assert [] + EncodedFrom(s, 0) == EncodedFrom(s, 0) && s[0..] == s;
  }
}
