/** Digit strings as numbers: the base-64 and base-256 readings of a bit stream. */
module Numerals {

  /** The number that the digits s spell in the given base, most significant first. */
  function Value(s: seq<nat>, base: nat): (v: nat) {
    Prefix(s, |s|, base)
  }

  /** The number that the first n digits of s spell. */
  function Prefix(s: seq<nat>, n: nat, base: nat): (v: nat)
    requires n <= |s|
  {
    if n == 0 then 0 else Prefix(s, n - 1, base) * base + s[n - 1]
  }

  ghost predicate AreDigits(s: seq<nat>, base: nat) {
    forall k :: 0 <= k < |s| ==> s[k] < base
  }

  ghost predicate AreBytes(b: seq<nat>) {
    AreDigits(b, 256)
  }

  lemma {:induction false} PrefixAgrees(s: seq<nat>, t: seq<nat>, n: nat, base: nat)
    requires n <= |s| && n <= |t| && forall k :: 0 <= k < n ==> s[k] == t[k]
    ensures Prefix(s, n, base) == Prefix(t, n, base)
  {
    if n > 0 {
      PrefixAgrees(s, t, n - 1, base);
    }
  }

  lemma ValueAppend(s: seq<nat>, x: nat, base: nat)
    ensures Value(s + [x], base) == Value(s, base) * base + x
  {
    PrefixAgrees(s + [x], s, |s|, base);
  }

  /** Equally long digit strings that spell the same number are the same. */
  lemma ValueInjective(s: seq<nat>, t: seq<nat>, base: nat)
    requires |s| == |t| && AreDigits(s, base) && AreDigits(t, base)
    requires Value(s, base) == Value(t, base)
    ensures s == t
  {
    PrefixInjective(s, t, |s|, base);
  }

  lemma {:induction false} PrefixInjective(s: seq<nat>, t: seq<nat>, n: nat, base: nat)
    requires n <= |s| == |t| && AreDigits(s, base) && AreDigits(t, base)
    requires Prefix(s, n, base) == Prefix(t, n, base)
    ensures forall k :: 0 <= k < n ==> s[k] == t[k]
  {
    if n > 0 {
      LastDigit(Prefix(s, n - 1, base), s[n - 1], Prefix(t, n - 1, base), t[n - 1], base);
      PrefixInjective(s, t, n - 1, base);
    }
  }

  lemma LastDigit(q: nat, r: nat, q': nat, r': nat, base: nat)
    requires r < base && r' < base && q * base + r == q' * base + r'
    ensures q == q' && r == r'
  {
    assert (q - q') * base == r' - r && (q' - q) * base == r - r';
    if q > q' {
      AtLeast(q - q', base);
    } else if q' > q {
      AtLeast(q' - q, base);
    }
  }

  lemma AtLeast(a: nat, b: nat)
    requires a >= 1
    ensures a * b >= b
  {}
}
