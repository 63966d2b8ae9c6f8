/** Routing keys and envelope ids: decimal numerals of 64-bit integers, printed backwards
    into a 20-byte buffer. */
module Envelope {
  import opened Options

  const TWO63 := 0x8000_0000_0000_0000
  const TWO64 := 0x1_0000_0000_0000_0000

  /** Go's int on a 64-bit platform. */
  type Int64 = x: int | -TWO63 <= x < TWO63
  type UInt64 = x: int | 0 <= x < TWO64

  /** Arithmetic and conversions keep the low 64 bits. */
  function Wrapped(x: int): (r: Int64)
    ensures -TWO63 <= x < TWO63 ==> r == x
  {
    (x + TWO63) % TWO64 - TWO63
  }

  // --- numerals ---

  function Digit(d: nat): char
    requires d < 10
  {
    '0' + d as char
  }

  /** The digits of n, none for zero. */
  function Digits(n: nat): string {
    if n == 0 then "" else Digits(n / 10) + [Digit(n % 10)]
  }

  /** What the printer yields. Negating the least integer leaves it negative, so its digit
      loop does not run. */
  function Decimal(n: Int64): string {
    if n == 0 then "0"
    else if n > 0 then Digits(n)
    else if n == -TWO63 then "-"
    else "-" + Digits(-(n as int))
  }

  function DigitValue(c: char): nat
    requires '0' <= c <= '9'
  {
    c as int - 48
  }

  /** The number that a string of decimal digits spells. */
  function Spelled(s: string): Option<nat> {
    if s == "" then Some(0)
    else
      var (rest, c) := (Spelled(s[..|s| - 1]), s[|s| - 1]);
      if rest.Some? && '0' <= c <= '9' then Some(rest.value * 10 + DigitValue(c)) else None
  }

  /** Reads an optional minus sign and at least one digit. */
  function Parse(s: string): Option<int> {
    var digits := if s != "" && s[0] == '-' then s[1..] else s;
    var v := Spelled(digits);
    if digits == "" || v.None? then None else Some(if s[0] == '-' then -(v.value as int) else v.value)
  }

  lemma {:induction false} DigitsSpell(n: nat)
    ensures Spelled(Digits(n)) == Some(n)
    ensures forall k :: 0 <= k < |Digits(n)| ==> '0' <= Digits(n)[k] <= '9'
  {
    if n > 0 {
      DigitsSpell(n / 10);
      var s := Digits(n);
      assert s[..|s| - 1] == Digits(n / 10);
    }
  }

  function Pow10(k: nat): nat { if k == 0 then 1 else 10 * Pow10(k - 1) }

  lemma {:induction false} DigitCount(n: nat, k: nat)
    requires n < Pow10(k)
    ensures |Digits(n)| <= k
    decreases k
  {
    if n > 0 {
      DigitCount(n / 10, k - 1);
    }
  }

  /** Reading the numeral back gives the number, except for the least integer. */
  lemma DecimalParses(n: Int64)
    ensures Parse(Decimal(n)) == Some(n) <==> n != -TWO63
    ensures n == -TWO63 ==> Parse(Decimal(n)) == None
  {
    hide Parse, Digits;
    if n > 0 {
      NumeralParses(n);
    } else if n < 0 {
      NumeralParses(-(n as int));
    }
    SpecialNumerals();
  }

  lemma NumeralParses(n: nat)
    requires n > 0
    ensures Parse(Digits(n)) == Some(n) && Parse("-" + Digits(n)) == Some(-(n as int))
  {
    hide Spelled;
    DigitsSpell(n);
    assert ("-" + Digits(n))[1..] == Digits(n);
  }

  lemma SpecialNumerals()
    ensures Parse("0") == Some(0) && Parse("-") == None
  {
    assert Spelled("0"[..0]) == Some(0);
    assert "-"[1..] == "";
  }

  /** Distinct integers print differently, the least one included. */
  lemma DecimalInjective(m: Int64, n: Int64)
    requires Decimal(m) == Decimal(n)
    ensures m == n
  {
    hide Decimal, Parse;
    DecimalParses(m);
    DecimalParses(n);
  }

  lemma DecimalHasNoColon(n: Int64)
    ensures ':' !in Decimal(n)
  {
    if n > 0 {
      DigitsSpell(n);
    } else if n < 0 {
      DigitsSpell(-(n as int));
    }
  }

  // --- the printer ---

  method Itoa(n: Int64) returns (s: string)
    ensures s == Decimal(n)
  {
    hide Wrapped;
    if n == 0 {
      return "0";
    }
    var neg := n < 0;
    var m: Int64 := n;
    if neg {
      Negated(n);
      m := Wrapped(-(m as int));
    }
    var buf := new char[20](_ => '\0');
    var i := PutDigits(m, buf);
    if neg {
      i := i - 1;
      buf[i] := '-';
    }
    s := buf[i..];
  }

  lemma Negated(n: Int64)
    ensures Wrapped(-(n as int)) == if n == -TWO63 then n else -(n as int)
  {}

  function Positive(m: int): nat { if m > 0 then m else 0 }

  /** The digit loop: fills buf from its end, and leaves room for a sign. */
  method PutDigits(n: Int64, buf: array<char>) returns (i: nat)
    requires buf.Length == 20
    modifies buf
    ensures 1 <= i <= 20 && buf[i..] == Digits(Positive(n))
  {
    Below20Digits(Positive(n));
    var m := n;
    i := 20;
    while m > 0
      invariant 0 <= i <= 20
      invariant Digits(Positive(m)) + buf[i..] == Digits(Positive(n))
    {
      i := i - 1;
      buf[i] := Digit(m % 10);
      m := m / 10;
    }
  }

  lemma Below20Digits(n: nat)
    requires n < TWO63
    ensures |Digits(n)| <= 19
  {
    assert Pow10(6) == 1_000_000 && Pow10(12) == 1_000_000_000_000;
    assert TWO63 < Pow10(19);
    DigitCount(n, 19);
  }

  // --- keys and ids ---

  function RouteKey(userID: string, deviceID: Int64): string {
    userID + ":" + Decimal(deviceID)
  }

  /** No two devices share a key, whatever characters the user ids contain. */
  lemma RouteKeyInjective(u: string, d: Int64, v: string, e: Int64)
    requires RouteKey(u, d) == RouteKey(v, e)
    ensures u == v && d == e
  {
    hide Decimal;
    DecimalHasNoColon(d);
    DecimalHasNoColon(e);
    LastColon(u, Decimal(d), v, Decimal(e));
    DecimalInjective(d, e);
  }

  lemma LastColon(u: string, s: string, v: string, t: string)
    requires ':' !in s && ':' !in t && u + ":" + s == v + ":" + t
    ensures u == v && s == t
  {
    var k := u + ":" + s;
    if |u| < |v| {
      LaterColon(u, s, v, t);
    } else if |v| < |u| {
      LaterColon(v, t, u, s);
    } else {
      assert u == k[..|u|] && s == k[|u| + 1..] && t == k[|v| + 1..];
    }
  }

  lemma LaterColon(u: string, s: string, v: string, t: string)
    requires |u| < |v| && u + ":" + s == v + ":" + t
    ensures ':' in s
  {
    assert (u + ":" + s)[|v|] == s[|v| - |u| - 1];
  }

  /** The id of the envelope that the counter value c is given to. */
  function EnvelopeId(c: UInt64): string {
    "env-" + Decimal(Wrapped(c))
  }

  /** Ids differ for all 2^64 counter values, beyond those that print as a positive number. */
  lemma EnvelopeIdInjective(b: UInt64, c: UInt64)
    requires EnvelopeId(b) == EnvelopeId(c)
    ensures b == c
  {
    hide Decimal;
    var x, y := Decimal(Wrapped(b)), Decimal(Wrapped(c));
    assert x == ("env-" + x)[4..] && y == ("env-" + y)[4..];
    DecimalInjective(Wrapped(b), Wrapped(c));
  }
}
