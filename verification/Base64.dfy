/** The hand-written base64 helpers of the mobile client, and the format they
    implement: section 4 of RFC 4648. */
module Base64 {
  import opened JsNumber
  import opened Numerals

  /** A text is what a JavaScript string is: any sequence of UTF-16 code units. */
  type Unit = nat
  type Text = seq<Unit>

  const PAD: Unit := '=' as nat
  const PLUS: Unit := '+' as nat
  const SLASH: Unit := '/' as nat

  function Ascii(s: string): Text {
    seq(|s|, i requires 0 <= i < |s| => s[i] as nat)
  }

  const UPPER: Text := Ascii("ABCDEFGHIJKLMNOPQRSTUVWXYZ")
  const LOWER: Text := Ascii("abcdefghijklmnopqrstuvwxyz")
  const OTHER: Text := Ascii("0123456789+/")
  const ALPHABET: Text := UPPER + LOWER + OTHER

  // --- the alphabet (table 1 of RFC 4648) and its lookup table ---

  /** 'A' to 'Z', 'a' to 'z', '0' to '9', as code units. */
  predicate IsAlphanumeric(c: Unit) { 65 <= c <= 90 || 97 <= c <= 122 || 48 <= c <= 57 }

  predicate IsBase64Char(c: Unit) {
    IsAlphanumeric(c) || c == PLUS || c == SLASH
  }

  /** The character of a sextet. */
  function CharOf(i: nat): (c: Unit)
    requires i < 64
    ensures IsBase64Char(c) && SextetOf(c) == i
  {
    if i < 26 then 65 + i
    else if i < 52 then 71 + i
    else if i < 62 then i - 4
    else if i == 62 then PLUS
    else SLASH
  }

  /** The sextet of a character; any other character counts as 0, because `undefined`
      does in a bitwise operation. */
  function SextetOf(c: Unit): (v: nat)
    ensures v < 64
  {
    if 65 <= c <= 90 then c - 65
    else if 97 <= c <= 122 then c - 71
    else if 48 <= c <= 57 then c + 4
    else if c == PLUS then 62
    else if c == SLASH then 63
    else 0
  }

  lemma UpperAt(i: nat)
    requires i < 26
    ensures |UPPER| == 26 && UPPER[i] == 65 + i
  {}

  lemma LowerAt(i: nat)
    requires i < 26
    ensures |LOWER| == 26 && LOWER[i] == 97 + i
  {}

  lemma OtherAt(i: nat)
    requires i < 12
    ensures |OTHER| == 12 && OTHER[i] == CharOf(52 + i)
  {}

  lemma AlphabetIsTable(i: nat)
    requires i < 64
    ensures |ALPHABET| == 64 && ALPHABET[i] == CharOf(i)
  {
    hide Ascii;
    UpperAt(if i < 26 then i else 0);
    LowerAt(if 26 <= i < 52 then i - 26 else 0);
    OtherAt(if i >= 52 then i - 52 else 0);
  }

  /** Looking up a character that the table lacks gives `undefined`. */
  function Lookup(table: map<Unit, nat>, c: Unit): nat {
    if c in table then table[c] else 0
  }

  method BuildLookup() returns (m: map<Unit, nat>)
    ensures forall c :: c in m <==> IsBase64Char(c)
    ensures forall c :: Lookup(m, c) == SextetOf(c)
  {
    m := map[];
    var i := 0;
    while i < |ALPHABET|
      invariant 0 <= i <= |ALPHABET| == 64
      invariant forall c :: c in m <==> IsBase64Char(c) && SextetOf(c) < i
      invariant forall c :: c in m ==> m[c] == SextetOf(c)
    {
      AlphabetIsTable(i);
      forall c | IsBase64Char(c) && SextetOf(c) == i
        ensures c == CharOf(i)
      {}
      m := m[ALPHABET[i] := i];
      i := i + 1;
    }
  }

  function Indices(s: Text): (r: seq<nat>)
    ensures |r| == |s|
    ensures forall k :: 0 <= k < |s| ==> r[k] == SextetOf(s[k])
  {
    seq(|s|, k requires 0 <= k < |s| => SextetOf(s[k]))
  }

  // --- the format (section 4 of RFC 4648) ---

  /** The number that a text without padding spells. */
  function TextValue(s: Text): nat { Value(Indices(s), 64) }

  /** How many alphabet characters carry n bytes: 8n bits in groups of six, rounded up. */
  function CharCount(n: nat): nat { (8 * n + 5) / 6 }

  /** The bit counts that can separate a run of sextets from a run of bytes. */
  predicate IsLeftover(bits: int) { bits == 0 || bits == 2 || bits == 4 || bits == 6 }

  /** v times 2^bits. */
  function ShiftUp(v: nat, bits: nat): nat {
    if bits == 0 then v else if bits == 2 then v * 4 else if bits == 4 then v * 16 else v * 64
  }

  /** v divided by 2^bits, rounded down. */
  function ShiftDown(v: nat, bits: nat): nat {
    if bits == 0 then v else if bits == 2 then v / 4 else if bits == 4 then v / 16 else v / 64
  }

  /** The remainder of v modulo 2^bits. */
  function LowPart(v: nat, bits: nat): nat {
    if bits == 0 then 0 else if bits == 2 then v % 4 else if bits == 4 then v % 16 else v % 64
  }

  /** How far the last character's bits reach past the last of n bytes. */
  function FillBits(n: nat): (bits: nat)
    ensures IsLeftover(bits)
  {
    if n % 3 == 0 then 0 else if n % 3 == 1 then 4 else 2
  }

  ghost predicate CharsThenPadding(s: Text, m: nat) {
    && m <= |s|
    && (forall k :: 0 <= k < m ==> IsBase64Char(s[k]))
    && (forall k :: m <= k < |s| ==> s[k] == PAD)
  }

  /** s is the base64 text of b: its characters regroup the bits of b, zero bits fill
      up the last character, and '=' fills up the last group of four characters. */
  ghost predicate IsBase64(s: Text, b: seq<nat>) {
    var m := CharCount(|b|);
    && |s| == 4 * ((|b| + 2) / 3)
    && CharsThenPadding(s, m)
    && TextValue(s[..m]) == ShiftUp(Value(b, 256), FillBits(|b|))
  }

  /** The text is determined by the bytes. */
  lemma Base64Unique(s: Text, t: Text, b: seq<nat>)
    requires IsBase64(s, b) && IsBase64(t, b)
    ensures s == t
  {
    var m := CharCount(|b|);
    ValueInjective(Indices(s[..m]), Indices(t[..m]), 64);
    forall k | 0 <= k < |s|
      ensures s[k] == t[k]
    {
      if k < m {
        assert s[..m][k] == s[k] && t[..m][k] == t[k];
        assert Indices(s[..m])[k] == Indices(t[..m])[k];
        assert SextetOf(s[k]) == SextetOf(t[k]);
      }
    }
  }

  // --- bytesToBase64 ---

  /** The shifts and masks of the encoder pick the four sextets of a group. */
  lemma SextetOps(b0: nat, b1: nat, b2: nat)
    requires b0 < 256 && b1 < 256 && b2 < 256
    ensures Shr(b0, 2) == b0 / 4
    ensures Or(Shl(And(b0, 0x03), 4), Shr(b1, 4)) == b0 % 4 * 16 + b1 / 16
    ensures Or(Shl(And(b1, 0x0f), 2), Shr(b2, 6)) == b1 % 16 * 4 + b2 / 64
    ensures And(b2, 0x3f) == b2 % 64
  {
    hide And, Or, Shl, Shr;
    MaskValues();
    HalvedValues(b0);
    HalvedValues(b1);
    HalvedValues(b2);
    DoubledValues(b0 % 4);
    DoubledValues(b1 % 16);
    ShrSmall(b0, 2);
    AndField(b0, 2, 0x03, 4);
    ShlSmall(b0 % 4, 4);
    ShrSmall(b1, 4);
    OrField(b0 % 4, 4, b0 % 4 * 16, b1 / 16);
    AndField(b1, 4, 0x0f, 16);
    ShlSmall(b1 % 16, 2);
    ShrSmall(b2, 6);
    OrField(b1 % 16, 2, b1 % 16 * 4, b2 / 64);
    AndField(b2, 6, 0x3f, 64);
  }

  lemma TextAppend(s: Text, c: Unit)
    ensures TextValue(s + [c]) == TextValue(s) * 64 + SextetOf(c)
  {
    assert Indices(s + [c]) == Indices(s) + [SextetOf(c)];
    ValueAppend(Indices(s), SextetOf(c), 64);
  }

  /** The four characters written for a group of one, two or three bytes. */
  function GroupText(g: seq<nat>): (c: Text)
    requires 1 <= |g| <= 3 && AreBytes(g)
    ensures |c| == 4
  {
    var b1, b2 := if |g| >= 2 then g[1] else 0, if |g| == 3 then g[2] else 0;
    [CharOf(g[0] / 4), CharOf(g[0] % 4 * 16 + b1 / 16),
     if |g| >= 2 then CharOf(b1 % 16 * 4 + b2 / 64) else PAD,
     if |g| == 3 then CharOf(b2 % 64) else PAD]
  }

  /** The first one to four characters of c, read after the text out. */
  lemma TextValues(out: Text, c: Text)
    requires |c| == 4
    ensures TextValue(out + c[..2]) == TextValue(out) * 4096 + SextetOf(c[0]) * 64 + SextetOf(c[1])
    ensures TextValue(out + c[..3]) == TextValue(out + c[..2]) * 64 + SextetOf(c[2])
    ensures TextValue(out + c[..4]) == TextValue(out + c[..3]) * 64 + SextetOf(c[3])
  {
    assert out + c[..2] == out + [c[0]] + [c[1]];
    assert out + c[..3] == out + c[..2] + [c[2]];
    assert out + c[..4] == out + c[..3] + [c[3]];
    TextAppend(out, c[0]);
    TextAppend(out + [c[0]], c[1]);
    TextAppend(out + c[..2], c[2]);
    TextAppend(out + c[..3], c[3]);
  }

  lemma ByteValues(b: seq<nat>, g: seq<nat>)
    requires 1 <= |g| <= 3
    ensures |g| == 1 ==> Value(b + g, 256) == Value(b, 256) * 256 + g[0]
    ensures |g| == 2 ==> Value(b + g, 256) == (Value(b, 256) * 256 + g[0]) * 256 + g[1]
    ensures |g| == 3 ==> Value(b + g, 256) == ((Value(b, 256) * 256 + g[0]) * 256 + g[1]) * 256 + g[2]
  {
    ValueAppend(b, g[0], 256);
    if |g| == 1 {
      assert b + g == b + [g[0]];
    } else {
      ValueAppend(b + [g[0]], g[1], 256);
      if |g| == 2 {
        assert b + g == b + [g[0]] + [g[1]];
      } else {
        ValueAppend(b + [g[0]] + [g[1]], g[2], 256);
        assert b + g == b + [g[0]] + [g[1]] + [g[2]];
      }
    }
  }

  lemma Counts(q: nat, r: nat)
    requires 1 <= r <= 3
    ensures CharCount(3 * q) == 4 * q && CharCount(3 * q + r) == 4 * q + r + 1
    ensures 4 * ((3 * q + 2) / 3) == 4 * q && 4 * ((3 * q + r + 2) / 3) == 4 * q + 4
    ensures FillBits(3 * q) == 0 && FillBits(3 * q + r) == (if r == 1 then 4 else if r == 2 then 2 else 0)
  {}

  lemma GroupValue(out: Text, b: seq<nat>, g: seq<nat>)
    requires 1 <= |g| <= 3 && AreBytes(g) && TextValue(out) == Value(b, 256)
    ensures TextValue(out + GroupText(g)[..|g| + 1])
         == ShiftUp(Value(b + g, 256), if |g| == 1 then 4 else if |g| == 2 then 2 else 0)
  {
    TextValues(out, GroupText(g));
    ByteValues(b, g);
    var x, y, z := g[0], if |g| >= 2 then g[1] else 0, if |g| == 3 then g[2] else 0;
    var t := Value(b, 256);
    assert t * 4096 + x / 4 * 64 + (x % 4 * 16 + y / 16) == (t * 256 + x) * 16 + y / 16;
    assert ((t * 256 + x) * 16 + y / 16) * 64 + (y % 16 * 4 + z / 64) == ((t * 256 + x) * 256 + y) * 4 + z / 64;
    assert (((t * 256 + x) * 256 + y) * 4 + z / 64) * 64 + z % 64 == ((t * 256 + x) * 256 + y) * 256 + z;
  }

  /** Only the last group may stand for fewer than three bytes. */
  lemma AppendGroup(out: Text, b: seq<nat>, q: nat, g: seq<nat>)
    requires |b| == 3 * q && IsBase64(out, b) && 1 <= |g| <= 3 && AreBytes(g)
    ensures IsBase64(out + GroupText(g), b + g)
  {
    hide TextValue, Value;
    Counts(q, |g|);
    var c := GroupText(g);
    var m := 4 * q + |g| + 1;
    TakeAppend(out, c, |g| + 1);
    assert m == |out| + |g| + 1 && out[..|out|] == out;
    GroupValue(out, b, g);
    GroupChars(out, g);
  }

  lemma TakeAppend(s: Text, t: Text, n: nat)
    requires n <= |t|
    ensures (s + t)[..|s| + n] == s + t[..n]
  {}

  lemma GroupChars(out: Text, g: seq<nat>)
    requires 1 <= |g| <= 3 && AreBytes(g) && CharsThenPadding(out, |out|)
    ensures CharsThenPadding(out + GroupText(g), |out| + |g| + 1)
  {
    var c := GroupText(g);
    assert forall k :: 0 <= k < |g| + 1 ==> IsBase64Char(c[k]);
    assert forall k :: |g| + 1 <= k < 4 ==> c[k] == PAD;
  }

  /** The characters that the encoder's table lookups give. */
  lemma GroupTextOps(b0: nat, b1: nat, b2: nat)
    requires b0 < 256 && b1 < 256 && b2 < 256
    ensures 0 <= Shr(b0, 2) < |ALPHABET| && ALPHABET[Shr(b0, 2)] == CharOf(b0 / 4)
    ensures var i := Or(Shl(And(b0, 0x03), 4), Shr(b1, 4));
            0 <= i < |ALPHABET| && ALPHABET[i] == CharOf(b0 % 4 * 16 + b1 / 16)
    ensures var i := Or(Shl(And(b1, 0x0f), 2), Shr(b2, 6));
            0 <= i < |ALPHABET| && ALPHABET[i] == CharOf(b1 % 16 * 4 + b2 / 64)
    ensures 0 <= And(b2, 0x3f) < |ALPHABET| && ALPHABET[And(b2, 0x3f)] == CharOf(b2 % 64)
  {
    hide And, Or, Shl, Shr;
    SextetOps(b0, b1, b2);
    AlphabetIsTable(b0 / 4);
    AlphabetIsTable(b0 % 4 * 16 + b1 / 16);
    AlphabetIsTable(b1 % 16 * 4 + b2 / 64);
    AlphabetIsTable(b2 % 64);
  }

  /** The up to three bytes at position i. */
  function GroupAt(bytes: seq<nat>, i: nat): (g: seq<nat>)
    requires i < |bytes|
    ensures 1 <= |g| <= 3 && i + |g| <= |bytes| && bytes[..i] + g == bytes[..i + |g|]
    ensures |g| < 3 ==> i + |g| == |bytes|
  {
    bytes[i..if i + 3 <= |bytes| then i + 3 else |bytes|]
  }

  lemma GroupTextAt(bytes: seq<nat>, i: nat, b1: nat, b2: nat)
    requires i < |bytes| && AreBytes(bytes)
    requires b1 == if i + 1 < |bytes| then bytes[i + 1] else 0
    requires b2 == if i + 2 < |bytes| then bytes[i + 2] else 0
    ensures AreBytes(GroupAt(bytes, i))
    ensures GroupText(GroupAt(bytes, i))
         == [CharOf(bytes[i] / 4)] + [CharOf(bytes[i] % 4 * 16 + b1 / 16)]
            + [if i + 1 < |bytes| then CharOf(b1 % 16 * 4 + b2 / 64) else PAD]
            + [if i + 2 < |bytes| then CharOf(b2 % 64) else PAD]
  {
    var g := GroupAt(bytes, i);
    assert g[0] == bytes[i];
    if |g| >= 2 {
      assert g[1] == bytes[i + 1];
    }
    if |g| == 3 {
      assert g[2] == bytes[i + 2];
    }
  }

  lemma AppendGroupAt(out: Text, bytes: seq<nat>, i: nat, q: nat)
    requires i == 3 * q && i < |bytes| && AreBytes(bytes) && IsBase64(out, bytes[..i])
    ensures AreBytes(GroupAt(bytes, i))
    ensures IsBase64(out + GroupText(GroupAt(bytes, i)), bytes[..if i + 3 <= |bytes| then i + 3 else |bytes|])
  {
    AppendGroup(out, bytes[..i], q, GroupAt(bytes, i));
  }

  lemma EmptyText(bytes: seq<nat>)
    ensures bytes[..0] == [] && IsBase64([], bytes[..0])
  {}

  lemma ByteAt(bytes: seq<nat>, i: nat)
    requires AreBytes(bytes) && i < |bytes|
    ensures bytes[i] < 256
  {}

  method BytesToBase64(bytes: seq<nat>) returns (out: Text)
    requires AreBytes(bytes)
    ensures IsBase64(out, bytes)
  {
    EmptyText(bytes);
    hide *;
    out := [];
    var i := 0;
    ghost var q, done := 0, 0;
    while i < |bytes|
      invariant i == 3 * q && done == if i <= |bytes| then i else |bytes|
      invariant IsBase64(out, bytes[..done])
    {
      var b0 := bytes[i];
      var b1 := if i + 1 < |bytes| then bytes[i + 1] else 0;
      var b2 := if i + 2 < |bytes| then bytes[i + 2] else 0;
      ByteAt(bytes, i);
      if i + 1 < |bytes| {
        ByteAt(bytes, i + 1);
      }
      if i + 2 < |bytes| {
        ByteAt(bytes, i + 2);
      }
      GroupTextOps(b0, b1, b2);
      var c0 := ALPHABET[Shr(b0, 2)];
      var c1 := ALPHABET[Or(Shl(And(b0, 0x03), 4), Shr(b1, 4))];
      var c2 := if i + 1 < |bytes| then ALPHABET[Or(Shl(And(b1, 0x0f), 2), Shr(b2, 6))] else PAD;
      var c3 := if i + 2 < |bytes| then ALPHABET[And(b2, 0x3f)] else PAD;
      GroupTextAt(bytes, i, b1, b2);
      AppendGroupAt(out, bytes, i, q);
      done := if i + 3 <= |bytes| then i + 3 else |bytes|;
      out := out + ([c0] + [c1] + [c2] + [c3]);
      i := i + 3;
      q := q + 1;
    }
    assert bytes[..|bytes|] == bytes;
  }

  /** `replace(/=+$/, '')`: the trailing '=' characters go. */
  function Strip(s: Text): (r: Text)
    ensures r <= s && (r == [] || r[|r| - 1] != PAD)
    ensures forall k :: |r| <= k < |s| ==> s[k] == PAD
  {
    if s != [] && s[|s| - 1] == PAD then Strip(s[..|s| - 1]) else s
  }

  /** b is what any text s decodes to: as many whole bytes as its characters carry,
      taken from the front of their bits; the left-over low bits are dropped. */
  ghost predicate IsDecoding(s: Text, b: seq<nat>) {
    var n := |Strip(s)|;
    && |b| == 6 * n / 8
    && AreBytes(b)
    && Value(b, 256) == ShiftDown(TextValue(Strip(s)), 6 * n % 8)
  }

  lemma DecodingUnique(s: Text, b: seq<nat>, c: seq<nat>)
    requires IsDecoding(s, b) && IsDecoding(s, c)
    ensures b == c
  {
    ValueInjective(b, c, 256);
  }

  /** The accumulator after one more sextet. It is never masked: the left shift lets
      its high bits fall off the 32-bit word, and only its low bits are ever used. */
  lemma Accumulate(acc: int, v: nat, k: nat)
    requires v < 64 && k == ToUint32(acc) / 0x400_0000
    ensures ToUint32(Or(Shl(acc, 6), v)) == ToUint32(acc) * 64 - k * TWO32 + v
  {
    var low := ToUint32(acc) - k * 0x400_0000;
    MaskValues();
    DoubledValues(ToUint32(acc));
    DoubledValues(low);
    ShlUnsigned(acc, 6);
    ShiftedOut(ToUint32(acc), k, low);
    Reduced(v);
    OrUnsigned(Shl(acc, 6), v);
    OrDisjoint(low, 6, v);
  }

  lemma ShiftedOut(u: nat, k: nat, low: nat)
    requires u < TWO32 && k == u / 0x400_0000 && low == u - k * 0x400_0000
    ensures 0 <= low < 0x400_0000 && u * 64 % TWO32 == low * 64
  {
    DivModUnique(u * 64, TWO32, k, low * 64);
  }

  /** The byte stored: bits bits..bits+8 of the accumulator, whatever its sign. */
  lemma StoredByte(acc: int, bits: nat)
    requires -TWO31 <= acc < TWO31 && IsLeftover(bits) && bits < 6
    ensures And(Shr(acc, bits), 0xff) == ShiftDown(ToUint32(acc), bits) % 256
  {
    MaskValues();
    AndLowBits(Shr(acc, bits), 8, 0xff, 256);
    HalvedValues(acc);
    SignedWord(acc);
    SignedQuotient(acc, ToUint32(acc));
  }

  lemma SignedWord(acc: int)
    requires -TWO31 <= acc < TWO31
    ensures ToUint32(acc) == (if acc < 0 then acc + TWO32 else acc) && ToInt32(acc) == acc
  {}

  lemma SignedQuotient(a: int, u: nat)
    requires u < TWO32 && (a == u || a == u - TWO32)
    ensures a % TWO32 % 256 == u % 256
    ensures (a / 4) % TWO32 % 256 == u / 4 % 256
    ensures (a / 16) % TWO32 % 256 == u / 16 % 256
  {
    if a != u {
      DivModUnique(a, TWO32, -1, u);
    }
    SignedQuotient4(a, u);
    SignedQuotient16(a, u);
  }

  lemma SignedQuotient4(a: int, u: nat)
    requires u < TWO32 && (a == u || a == u - TWO32)
    ensures (a / 4) % TWO32 % 256 == u / 4 % 256
  {
    if a != u {
      assert a / 4 == u / 4 - 0x4000_0000;
      WrapByte(u / 4, 0x4000_0000);
    }
  }

  lemma SignedQuotient16(a: int, u: nat)
    requires u < TWO32 && (a == u || a == u - TWO32)
    ensures (a / 16) % TWO32 % 256 == u / 16 % 256
  {
    if a != u {
      assert a / 16 == u / 16 - 0x1000_0000;
      WrapByte(u / 16, 0x1000_0000);
    }
  }

  lemma WrapByte(x: nat, gap: nat)
    requires x < gap && (gap == 0x4000_0000 || gap == 0x1000_0000)
    ensures (x - gap) % TWO32 % 256 == x % 256
  {
    DivModUnique(x - gap, TWO32, -1, x + TWO32 - gap);
    DivModIdentity(x, 256);
    DivModUnique(x + TWO32 - gap, 256, x / 256 + (TWO32 - gap) / 256, x % 256);
  }

  // --- regrouping sextets into bytes, as arithmetic on natural numbers ---

  /** The whole bytes so far, and the number of bits left over with their value. */
  datatype Regrouped = Regrouped(bytes: seq<nat>, bits: nat, low: nat)

  function Feed(r: Regrouped, v: nat): Regrouped {
    var x := r.low * 64 + v;
    if r.bits < 2 then Regrouped(r.bytes, r.bits + 6, x)
    else Regrouped(r.bytes + [ShiftDown(x, r.bits - 2)], r.bits - 2, LowPart(x, r.bits - 2))
  }

  function Regroup(s: Text): Regrouped {
    if s == [] then Regrouped([], 0, 0) else Feed(Regroup(s[..|s| - 1]), SextetOf(s[|s| - 1]))
  }

  lemma RegroupAppend(s: Text, c: Unit)
    ensures Regroup(s + [c]) == Feed(Regroup(s), SextetOf(c))
  {
    assert (s + [c])[..|s|] == s;
  }

  /** Regrouping keeps the number that the bits spell. */
  lemma {:induction false} RegroupKeepsValue(s: Text)
    ensures var r := Regroup(s);
      && IsLeftover(r.bits) && 8 * |r.bytes| + r.bits == 6 * |s|
      && r.low == LowPart(r.low, r.bits)
      && AreBytes(r.bytes)
      && TextValue(s) == ShiftUp(Value(r.bytes, 256), r.bits) + r.low
  {
    if s != [] {
      var n := |s| - 1;
      RegroupKeepsValue(s[..n]);
      assert s == s[..n] + [s[n]];
      TextAppend(s[..n], s[n]);
      FeedKeepsValue(Regroup(s[..n]), SextetOf(s[n]));
    }
  }

  lemma FeedKeepsValue(r: Regrouped, v: nat)
    requires IsLeftover(r.bits) && r.low == LowPart(r.low, r.bits) && v < 64
    ensures var q := Feed(r, v);
      && IsLeftover(q.bits) && q.low == LowPart(q.low, q.bits)
      && (AreBytes(r.bytes) ==> AreBytes(q.bytes))
      && ShiftUp(Value(q.bytes, 256), q.bits) + q.low == (ShiftUp(Value(r.bytes, 256), r.bits) + r.low) * 64 + v
  {
    hide Value;
    if r.bits >= 2 {
      ValueAppend(r.bytes, ShiftDown(r.low * 64 + v, r.bits - 2), 256);
    }
  }

  // --- base64ToBytes ---

  /** The accumulator holds the left-over bits; what is above them does not matter. */
  ghost predicate Holds(acc: int, r: Regrouped) {
    && -TWO31 <= acc < TWO31
    && IsLeftover(r.bits)
    && LowPart(ToUint32(acc), r.bits) == r.low
  }

  /** One trip of the loop. */
  lemma DecodeSextet(acc: int, r: Regrouped, v: nat)
    requires Holds(acc, r) && v < 64
    ensures var acc', q := Or(Shl(acc, 6), v), Feed(r, v);
      && Holds(acc', q)
      && (r.bits >= 2 ==>
            && 0 <= And(Shr(acc', r.bits - 2), 0xff)
            && q.bytes == r.bytes + [And(Shr(acc', r.bits - 2), 0xff)])
  {
    hide And, Or, Shl, Shr;
    AccumulateWord(acc, v, Or(Shl(acc, 6), v), r.bits);
    if r.bits >= 2 {
      StoredByte(Or(Shl(acc, 6), v), r.bits - 2);
    }
  }

  lemma AccumulateWord(acc: int, v: nat, acc': int, bits: nat)
    requires v < 64 && IsLeftover(bits) && acc' == Or(Shl(acc, 6), v)
    ensures var u, w, x := ToUint32(acc), ToUint32(acc'), LowPart(ToUint32(acc), bits) * 64 + v;
      && (bits < 2 ==> LowPart(w, 6) == x)
      && (bits >= 2 ==> LowPart(w, bits - 2) == LowPart(x, bits - 2)
                        && ShiftDown(w, bits - 2) % 256 == ShiftDown(x, bits - 2))
  {
    hide And, Or, Shl, Shr;
    var k := ToUint32(acc) / 0x400_0000;
    Accumulate(acc, v, k);
    FeedWord(ToUint32(acc), v, k, ToUint32(acc'), bits);
  }

  lemma FeedWord(u: nat, v: nat, k: nat, w: nat, bits: nat)
    requires v < 64 && w == u * 64 - k * TWO32 + v && IsLeftover(bits)
    ensures var x := LowPart(u, bits) * 64 + v;
      && (bits < 2 ==> LowPart(w, 6) == x)
      && (bits >= 2 ==> LowPart(w, bits - 2) == LowPart(x, bits - 2)
                        && ShiftDown(w, bits - 2) % 256 == ShiftDown(x, bits - 2))
  {
    LowBits(u, v, k, w);
    ByteAbove(w);
  }

  /** The low bits of the accumulator: those it had, then the new sextet. */
  lemma LowBits(u: nat, v: nat, k: nat, w: nat)
    requires v < 64 && w == u * 64 - k * TWO32 + v
    ensures w % 64 == v
    ensures w % 256 == u % 4 * 64 + v
    ensures w % 1024 == u % 16 * 64 + v
    ensures w % 4096 == u % 64 * 64 + v
  {
    DivModUnique(w, 64, u - k * 0x400_0000, v);
    DivModUnique(w, 256, u / 4 - k * 0x100_0000, u % 4 * 64 + v);
    DivModUnique(w, 1024, u / 16 - k * 0x40_0000, u % 16 * 64 + v);
    DivModUnique(w, 4096, u / 64 - k * 0x10_0000, u % 64 * 64 + v);
  }

  /** The byte above b low bits, and those bits, from the 8 + b low bits alone. */
  lemma ByteAbove(w: nat)
    ensures w % 1024 / 4 == w / 4 % 256 && w % 1024 % 4 == w % 4
    ensures w % 4096 / 16 == w / 16 % 256 && w % 4096 % 16 == w % 16
  {
    DivModUnique(w, 1024, w / 4 / 256, w / 4 % 256 * 4 + w % 4);
    DivModUnique(w, 4096, w / 16 / 256, w / 16 % 256 * 16 + w % 16);
  }

  lemma DecodeAt(clean: Text, i: nat, acc: int)
    requires i < |clean| && Holds(acc, Regroup(clean[..i]))
    ensures var acc', r, q := Or(Shl(acc, 6), SextetOf(clean[i])), Regroup(clean[..i]), Regroup(clean[..i + 1]);
      && Holds(acc', q)
      && (r.bits < 2 ==> q.bits == r.bits + 6 && q.bytes == r.bytes)
      && (r.bits >= 2 ==>
            && q.bits == r.bits - 2
            && 0 <= And(Shr(acc', q.bits), 0xff)
            && q.bytes == r.bytes + [And(Shr(acc', q.bits), 0xff)])
  {
    hide And, Or, Shl, Shr;
    assert clean[..i + 1] == clean[..i] + [clean[i]];
    RegroupAppend(clean[..i], clean[i]);
    DecodeSextet(acc, Regroup(clean[..i]), SextetOf(clean[i]));
  }

  lemma NothingRegrouped(s: Text)
    ensures Holds(0, Regroup(s[..0])) && Regroup(s[..0]) == Regrouped([], 0, 0)
  {}

  method Base64ToBytes(b64: Text) returns (out: array<nat>)
    ensures IsDecoding(b64, out[..])
  {
    NothingRegrouped(Strip(b64));
    hide *;
    var table := BuildLookup();
    var clean := Strip(b64);
    out := new nat[6 * |clean| / 8](_ => 0);
    var acc, bits, p := 0, 0, 0;
    var i := 0;
    while i < |clean|
      invariant 0 <= i <= |clean| && 8 * p + bits == 6 * i && p <= out.Length
      invariant Holds(acc, Regroup(clean[..i])) && bits == Regroup(clean[..i]).bits
      invariant out[..p] == Regroup(clean[..i]).bytes
    {
      DecodeAt(clean, i, acc);
      acc := Or(Shl(acc, 6), Lookup(table, clean[i]));
      bits := bits + 6;
      if bits >= 8 {
        bits := bits - 8;
        RoomForByte(|clean|, i, p, bits);
        out[p] := And(Shr(acc, bits), 0xff);
        p := p + 1;
      }
      i := i + 1;
    }
    assert clean[..i] == clean;
    RegroupDecodes(b64);
    assert out[..p] == out[..];
  }

  /** The write position stays inside the array: 8 bits per byte, 6 per character. */
  lemma RoomForByte(n: nat, i: nat, p: nat, bits: nat)
    requires i < n && 8 * (p + 1) + bits == 6 * (i + 1)
    ensures p < 6 * n / 8
  {}

  lemma RegroupDecodes(s: Text)
    ensures IsDecoding(s, Regroup(Strip(s)).bytes)
    ensures |Regroup(Strip(s)).bytes| == 6 * |Strip(s)| / 8
  {
    RegroupKeepsValue(Strip(s));
  }

  lemma {:induction false} StripText(s: Text, m: nat)
    requires CharsThenPadding(s, m)
    ensures Strip(s) == s[..m]
  {
    if |s| > m {
      StripText(s[..|s| - 1], m);
      assert s[..|s| - 1][..m] == s[..m];
    } else if m > 0 {
      assert IsBase64Char(s[m - 1]);
    }
  }

  lemma CountBack(q: nat, r: nat)
    requires r < 3
    ensures 6 * CharCount(3 * q + r) / 8 == 3 * q + r
    ensures 6 * CharCount(3 * q + r) % 8 == FillBits(3 * q + r)
  {
    if r > 0 {
      Counts(q, r);
    } else {
      Counts(q, 1);
    }
    hide CharCount, FillBits;
    DivModUnique(6 * CharCount(3 * q + r), 8, 3 * q + r, FillBits(3 * q + r));
  }

  /** Decoding the text of b gives b back. */
  lemma DecodeText(s: Text, b: seq<nat>, c: seq<nat>)
    requires AreBytes(b) && IsBase64(s, b) && IsDecoding(s, c)
    ensures c == b
  {
    StripText(s, CharCount(|b|));
    DivModIdentity(|b|, 3);
    CountBack(|b| / 3, |b| % 3);
    ValueInjective(b, c, 256);
  }
}
