/** The device-link code: the unpadded URL-safe base64 (section 5 of RFC 4648) of a
    string's UTF-8 bytes. The platform's `btoa` and `atob` are written out as the WHATWG
    Infra standard defines them (sections "forgiving-base64 encode" and "... decode"); what
    they do with well-formed data is left to the base64 helpers of the mobile client. */
module LinkCode {
  import opened Base64
  import opened Options
  import opened Utf8

  function Replaced(s: Text, from: Unit, to: Unit): (r: Text)
    ensures |r| == |s|
    ensures forall k :: 0 <= k < |s| ==> r[k] == if s[k] == from then to else s[k]
  {
    seq(|s|, k requires 0 <= k < |s| => if s[k] == from then to else s[k])
  }

  const DASH: Unit := '-' as nat
  const UNDERSCORE: Unit := '_' as nat

  predicate IsUrlChar(c: Unit) { IsAlphanumeric(c) || c == DASH || c == UNDERSCORE }

  /** The standard text of a code: the two URL characters put back, and the padding. */
  function Standard(code: Text): Text {
    Padded(Replaced(Replaced(code, DASH, PLUS), UNDERSCORE, SLASH))
  }

  /** Filled up with '=' to whole groups of four. */
  function Padded(s: Text): Text
    decreases (4 - |s| % 4) % 4
  {
    if |s| % 4 == 0 then s else Padded(s + [PAD])
  }

  ghost predicate IsLinkCode(code: Text, bytes: seq<nat>) {
    (forall k :: 0 <= k < |code| ==> IsUrlChar(code[k])) && IsBase64(Standard(code), bytes)
  }

  method Base64UrlEncode(s: seq<nat>) returns (code: Text)
    requires AreUnits(s)
    ensures IsLinkCode(code, EncodedFrom(s, 0))
  {
    var bytes := Utf8Encode(s);
    var text := BytesToBase64(bytes);
    code := Strip(Replaced(Replaced(text, PLUS, DASH), SLASH, UNDERSCORE));
    LinkCodeOf(text, bytes);
  }

  // --- atob ---

  predicate IsSpace(c: Unit) { c == 9 || c == 10 || c == 12 || c == 13 || c == 32 }

  function WithoutSpace(s: Text): Text {
    if s == [] then []
    else WithoutSpace(s[..|s| - 1]) + if IsSpace(s[|s| - 1]) then [] else [s[|s| - 1]]
  }

  /** One or two '=' at the end of whole groups of four go. */
  function Unpadded(s: Text): (r: Text)
    ensures r <= s && forall k :: |r| <= k < |s| ==> s[k] == PAD
  {
    var n := |s|;
    if n % 4 != 0 || n == 0 || s[n - 1] != PAD then s
    else if s[n - 2] != PAD then s[..n - 1]
    else s[..n - 2]
  }

  /** What makes `atob` throw. */
  predicate Malformed(s: Text) { |s| % 4 == 1 || exists k :: 0 <= k < |s| && !IsBase64Char(s[k]) }

  /** What is left of the data to be decoded. */
  function Data(s: Text): Text { Unpadded(WithoutSpace(s)) }

  /** Yields nothing where the platform throws. */
  method Atob(data: Text) returns (r: Option<seq<nat>>)
    ensures r.None? <==> Malformed(Data(data))
    ensures r.Some? ==> IsDecoding(Data(data), r.value)
  {
    var s := Data(data);
    if Malformed(s) {
      return None;
    }
    var bytes := Base64ToBytes(s);
    r := Some(bytes[..]);
  }

  /** Decoding throws exactly for codes that are malformed once padded. */
  method Base64UrlDecode(code: Text) returns (r: Option<seq<int>>)
    ensures r.None? <==> Malformed(Data(Standard(code)))
    ensures r.Some? ==> exists bytes :: IsDecoding(Data(Standard(code)), bytes) && r.value == DecodedFrom(bytes, 0)
  {
    var b64 := Replaced(Replaced(code, DASH, PLUS), UNDERSCORE, SLASH);
    assert Padded(b64) == Standard(code);
    hide *;
    while |b64| % 4 != 0
      invariant Padded(b64) == Standard(code)
      decreases (4 - |b64| % 4) % 4
    {
      PadOnce(b64);
      b64 := b64 + [PAD];
    }
    PadOnce(b64);
    var bytes := Atob(b64);
    if bytes.None? {
      return None;
    }
    var s := Utf8Decode(bytes.value);
    assert IsDecoding(Data(Standard(code)), bytes.value);
    r := Some(s);
  }

  lemma PadOnce(s: Text)
    ensures |s| % 4 == 0 ==> Padded(s) == s
    ensures |s| % 4 != 0 ==> Padded(s) == Padded(s + [PAD]) && (4 - |s + [PAD]| % 4) % 4 < (4 - |s| % 4) % 4
  {
    NextRemainder(|s|);
  }

  lemma NextRemainder(n: nat)
    ensures (n + 1) % 4 == if n % 4 == 3 then 0 else n % 4 + 1
  {}

  lemma {:induction false} NoSpace(s: Text)
    requires forall k :: 0 <= k < |s| ==> !IsSpace(s[k])
    ensures WithoutSpace(s) == s
  {
    if s != [] {
      NoSpace(s[..|s| - 1]);
    }
  }

  lemma CharsAreNoSpace(s: Text, m: nat)
    requires CharsThenPadding(s, m)
    ensures forall k :: 0 <= k < |s| ==> !IsSpace(s[k])
  {
    forall k | 0 <= k < |s| ensures !IsSpace(s[k]) {
      assert k < m ==> IsBase64Char(s[k]);
    }
  }

  lemma WellFormed(s: Text, m: nat)
    requires CharsThenPadding(s, m) && m % 4 != 1
    ensures !Malformed(s[..m])
  {
    hide IsBase64Char;
    var r := s[..m];
    forall k | 0 <= k < |r| ensures IsBase64Char(r[k]) {
      assert r[k] == s[k];
    }
  }

  lemma WellFormedText(text: Text, m: nat)
    requires CharsThenPadding(text, m) && |text| % 4 == 0 && |text| <= m + 2 && m % 4 != 1
    ensures Data(text) == text[..m] == Strip(text) && !Malformed(text[..m])
  {
    hide Strip, Unpadded, WithoutSpace, Malformed;
    CharsAreNoSpace(text, m);
    NoSpace(text);
    StripText(text, m);
    UnpaddedText(text, m);
    WellFormed(text, m);
  }

  lemma CharCounts(n: nat)
    ensures var m := CharCount(n); m % 4 != 1 && m <= 4 * ((n + 2) / 3) <= m + 2
  {}

  lemma TextSize(text: Text, bytes: seq<nat>)
    requires IsBase64(text, bytes)
    ensures var m := CharCount(|bytes|);
            CharsThenPadding(text, m) && |text| % 4 == 0 && |text| <= m + 2 && m % 4 != 1
  {
    hide *;
    TextLength(text, bytes);
    WholeGroups((|bytes| + 2) / 3);
    CharCounts(|bytes|);
  }

  lemma TextLength(text: Text, bytes: seq<nat>)
    requires IsBase64(text, bytes)
    ensures CharsThenPadding(text, CharCount(|bytes|)) && |text| == 4 * ((|bytes| + 2) / 3)
  {
    hide CharCount, TextValue, CharsThenPadding, FillBits, ShiftUp;
  }

  lemma WholeGroups(n: nat)
    ensures 4 * n % 4 == 0
  {}

  /** The base64 text of any bytes is well formed, and its data are its characters. */
  lemma TextIsWellFormed(text: Text, bytes: seq<nat>)
    requires IsBase64(text, bytes)
    ensures Data(text) == Strip(text) && !Malformed(Data(text))
  {
    hide *;
    TextSize(text, bytes);
    WellFormedText(text, CharCount(|bytes|));
  }

  lemma UnpaddedText(text: Text, m: nat)
    requires CharsThenPadding(text, m) && |text| % 4 == 0 && |text| <= m + 2
    ensures Unpadded(text) == text[..m]
  {
    if m > 0 {
      assert IsBase64Char(text[m - 1]);
    }
    assert text[..|text|] == text;
  }

  /** Reading a code written for s gives s back exactly when s is properly paired. */
  lemma LinkCodeRoundTrip(s: seq<nat>, code: Text, bytes: seq<nat>)
    requires AreUnits(s) && IsLinkCode(code, EncodedFrom(s, 0)) && IsDecoding(Data(Standard(code)), bytes)
    ensures DecodedFrom(bytes, 0) == s <==> HighsPaired(s)
  {
    EncodedBytes(s, 0);
    TextIsWellFormed(Standard(code), EncodedFrom(s, 0));
    StripTwice(Standard(code));
    DecodeText(Standard(code), EncodedFrom(s, 0), bytes);
    Utf8RoundTrip(s);
  }

  lemma StripTwice(s: Text)
    ensures Strip(Strip(s)) == Strip(s)
  {}

  /** A code written on one device and read on another: reading never throws. */
  method ThereAndBack(s: seq<nat>) returns (r: Option<seq<int>>)
    requires AreUnits(s)
    ensures r.Some? && (r.value == s <==> HighsPaired(s))
  {
    var code := Base64UrlEncode(s);
    r := Base64UrlDecode(code);
    TextIsWellFormed(Standard(code), EncodedFrom(s, 0));
    ghost var bytes :| IsDecoding(Data(Standard(code)), bytes) && r.value == DecodedFrom(bytes, 0);
    LinkCodeRoundTrip(s, code, bytes);
  }

  lemma LinkCodeOf(text: Text, bytes: seq<nat>)
    requires IsBase64(text, bytes)
    ensures IsLinkCode(Strip(Replaced(Replaced(text, PLUS, DASH), SLASH, UNDERSCORE)), bytes)
  {
    hide CharCount, IsBase64, CharsThenPadding, Strip, Padded, IsUrlChar;
    var m := CharCount(|bytes|);
    TextSize(text, bytes);
    PaddedEnd(text, m);
    UrlText(text, m);
    PadBack(text, m);
  }

  lemma PaddedEnd(text: Text, m: nat)
    requires CharsThenPadding(text, m)
    ensures m <= |text| && forall k :: m <= k < |text| ==> text[k] == PAD
  {}

  lemma UrlText(text: Text, m: nat)
    requires CharsThenPadding(text, m)
    ensures var code := Strip(Replaced(Replaced(text, PLUS, DASH), SLASH, UNDERSCORE));
      && |code| == m
      && (forall k :: 0 <= k < m ==> IsUrlChar(code[k]))
      && Replaced(Replaced(code, DASH, PLUS), UNDERSCORE, SLASH) == text[..m]
  {
    var url := Replaced(Replaced(text, PLUS, DASH), SLASH, UNDERSCORE);
    assert forall k :: 0 <= k < m ==> IsBase64Char(text[k]) && IsUrlChar(url[k]);
    StripUrl(url, m);
  }

  lemma {:induction false} StripUrl(s: Text, m: nat)
    requires m <= |s| && (forall k :: 0 <= k < m ==> s[k] != PAD) && forall k :: m <= k < |s| ==> s[k] == PAD
    ensures Strip(s) == s[..m]
  {
    if |s| > m {
      StripUrl(s[..|s| - 1], m);
      assert s[..|s| - 1][..m] == s[..m];
    } else {
      assert s[..m] == s;
    }
  }

  lemma {:induction false} PadBack(text: Text, m: nat)
    requires m <= |text| < m + 4 && |text| % 4 == 0 && forall k :: m <= k < |text| ==> text[k] == PAD
    ensures Padded(text[..m]) == text
    decreases |text| - m
  {
    if m < |text| {
      assert text[..m] + [PAD] == text[..m + 1];
      PadBack(text, m + 1);
    } else {
      assert text[..m] == text;
    }
  }
}
