/** Signed bearer tokens. The MAC is an uninterpreted function of secret and payload; the
    payload codec (JSON, then unpadded URL-safe base64) is an abstract injection into strings
    without a '.'. Times are nanoseconds. */
module Token {
  import opened Options

  datatype Result<T> = Ok(value: T) | Error(message: string)

  datatype Kind = Access | Refresh | OtherKind(name: string)

  datatype Claims = Claims(uid: string, kind: Kind, exp: int)

  datatype Crypto = Crypto(encode: Claims -> string, decode: string -> Option<Claims>, tag: (string, string) -> string)
  {
    ghost predicate Valid() {
      forall c: Claims :: decode(encode(c)) == Some(c) && '.' !in encode(c)
    }
  }

  const SECOND: nat := 1_000_000_000
  const MINUTE: nat := 60 * SECOND

  /** The Unix time of an instant, in whole seconds rounded down. */
  function Unix(t: int): int { t / SECOND }

  function Sign(x: Crypto, secret: string, uid: string, kind: Kind, now: int, ttl: int): string {
    var p := x.encode(Claims(uid, kind, Unix(now + ttl)));
    p + "." + x.tag(secret, p)
  }

  /** The position of the first '.', or the length. */
  function FirstDot(s: string): (i: nat)
    ensures i <= |s| && '.' !in s[..i] && (i < |s| ==> s[i] == '.')
  {
    if s == "" || s[0] == '.' then 0
    else
      var i := 1 + FirstDot(s[1..]);
      assert s[..i] == [s[0]] + s[1..][..i - 1];
      i
  }

  function Parse(x: Crypto, secret: string, token: string, now: int): Option<Claims> {
    var i := FirstDot(token);
    if i == |token| then None
    else
      var (p, signature) := (token[..i], token[i + 1..]);
      if x.tag(secret, p) != signature then None
      else
        var c := x.decode(p);
        if c.None? || Unix(now) >= c.value.exp then None else c
  }

  function Verify(x: Crypto, secret: string, token: string, now: int): Option<(string, Kind)> {
    var c := Parse(x, secret, token, now);
    if c.None? then None else Some((c.value.uid, c.value.kind))
  }

  function VerifyAccess(x: Crypto, secret: string, token: string, now: int): Option<(string, int)> {
    var c := Parse(x, secret, token, now);
    if c.None? || c.value.kind != Access then None else Some((c.value.uid, c.value.exp))
  }

  // --- a signed token, read back ---

  lemma {:induction false} FirstDotIs(p: string, rest: string)
    requires '.' !in p
    ensures FirstDot(p + "." + rest) == |p|
  {
    var s := p + "." + rest;
    if p != "" {
      assert s[0] == p[0] && s[1..] == p[1..] + "." + rest;
      FirstDotIs(p[1..], rest);
    }
  }

  /** A token reads back as what was signed exactly until its last whole second is over. */
  lemma SignedParses(x: Crypto, secret: string, uid: string, kind: Kind, now: int, ttl: int, t: int)
    requires x.Valid()
    ensures Parse(x, secret, Sign(x, secret, uid, kind, now, ttl), t)
         == if Unix(t) < Unix(now + ttl) then Some(Claims(uid, kind, Unix(now + ttl))) else None
  {
    hide FirstDot;
    var c := Claims(uid, kind, Unix(now + ttl));
    var p := x.encode(c);
    var token := Sign(x, secret, uid, kind, now, ttl);
    FirstDotIs(p, x.tag(secret, p));
    assert token[..|p|] == p && token[|p| + 1..] == x.tag(secret, p);
    assert x.decode(p) == Some(c);
  }

  /** Cutting the expiry to whole seconds never extends it, and shortens it by less than one
      second. */
  lemma Truncation(now: int, ttl: int, t: int)
    ensures t >= now + ttl ==> Unix(t) >= Unix(now + ttl)
    ensures t <= now + ttl - SECOND ==> Unix(t) < Unix(now + ttl)
  {}

  lemma SignedVerifies(x: Crypto, secret: string, uid: string, kind: Kind, now: int, ttl: int, t: int)
    requires x.Valid()
    ensures var token := Sign(x, secret, uid, kind, now, ttl);
            && (Verify(x, secret, token, t) == Some((uid, kind)) <==> Unix(t) < Unix(now + ttl))
            && (Verify(x, secret, token, t) == None <==> Unix(t) >= Unix(now + ttl))
            && (VerifyAccess(x, secret, token, t).Some? <==> kind == Access && Unix(t) < Unix(now + ttl))
            && (t >= now + ttl ==> Verify(x, secret, token, t) == None && VerifyAccess(x, secret, token, t) == None)
  {
    hide Sign, Parse, Unix;
    SignedParses(x, secret, uid, kind, now, ttl, t);
    Truncation(now, ttl, t);
  }

  /** Whatever verifies carries the right tag over its payload and has not expired. */
  lemma VerifiedIsSigned(x: Crypto, secret: string, token: string, now: int)
    ensures Parse(x, secret, token, now).Some? <==>
              exists p, c :: '.' !in p && token == p + "." + x.tag(secret, p) && x.decode(p) == Some(c) && Unix(now) < c.exp
  {
    hide FirstDot, Unix;
    var i := FirstDot(token);
    if Parse(x, secret, token, now).Some? {
      var p := token[..i];
      assert token == p + "." + token[i + 1..];
      assert x.decode(p) == Some(x.decode(p).value);
    }
    forall p, c | '.' !in p && token == p + "." + x.tag(secret, p) && x.decode(p) == Some(c) && Unix(now) < c.exp
      ensures Parse(x, secret, token, now).Some?
    {
      FirstDotIs(p, x.tag(secret, p));
      assert token[..|p|] == p && token[|p| + 1..] == x.tag(secret, p);
    }
  }

  // --- the shared secret ---

  const DEV_SECRET := "hwfa-dev-insecure-shared-secret-change-me"

  /** In production the development secret is never chosen in place of a missing one. */
  function ResolveSecret(env: string, prod: bool): (r: Result<string>)
    ensures r.Ok? <==> env != "" || !prod
    ensures r.Ok? && prod ==> r.value == env
  {
    if env != "" then Ok(env)
    else if prod then Error("HWFA_TOKEN_SECRET must be set in production")
    else Ok(DEV_SECRET)
  }
}
