/** The discovery service's locked sections as functions on a value state. Random values
    (user ids, codes, link tokens) and clock readings are parameters. */
module DiscoveryState {
  import opened Options
  import opened Token

  const ACCESS_TTL := 15 * MINUTE
  const REFRESH_TTL := 30 * 24 * 60 * MINUTE
  const LINK_TTL := 5 * MINUTE
  const OTP_TTL := 10 * MINUTE
  const MAX_OTP_ATTEMPTS := 5
  const REGISTER_COOLDOWN := 30 * SECOND
  const INTERSECT_WINDOW := 60 * MINUTE
  const INTERSECT_BUDGET := 5000

  datatype PreKey = PreKey(id: int, publicKey: string)

  /** The reusable part of a published key bundle. */
  datatype Keys = Keys(
    registrationID: int, identityKey: string,
    signedPreKeyID: int, signedPreKeyPublic: string, signedPreKeySignature: string,
    kyberPreKeyID: int, kyberPreKeyPublic: string, kyberPreKeySignature: string)

  datatype Request = Request(deviceID: int, keys: Keys, oneTime: seq<PreKey>)

  /** One device. A primary device's accountID is its own userID. */
  datatype Account = Account(userID: string, accountID: string, phoneHash: string, deviceID: int,
                             keys: Keys, oneTime: seq<PreKey>, verified: bool)

  datatype Otp = Otp(code: string, expiresAt: int, attempts: nat)

  datatype Link = Link(accountID: string, expiresAt: int)

  datatype Window = Window(start: int, used: nat)

  type Accounts = map<string, Account>

  datatype State = State(accounts: Accounts, pending: map<string, Otp>, lastRegister: map<string, int>,
                         windows: map<string, Window>, links: map<string, Link>)

  const EMPTY := State(map[], map[], map[], map[], map[])

  // --- tokens ---

  function AccessToken(x: Crypto, secret: string, uid: string, now: int): string {
    Sign(x, secret, uid, Access, now, ACCESS_TTL)
  }

  function RefreshToken(x: Crypto, secret: string, uid: string, now: int): string {
    Sign(x, secret, uid, Refresh, now, REFRESH_TTL)
  }

  /** What the three issuing calls return. */
  function Tokens(x: Crypto, secret: string, uid: string, now: int): (string, string) {
    (AccessToken(x, secret, uid, now), RefreshToken(x, secret, uid, now))
  }

  /** What the issuing calls return: an access token that verifies for 15 minutes and a refresh
      token that verifies for 30 days, both cut to whole seconds, neither in the other's place. */
  lemma TokensExactly(x: Crypto, secret: string, uid: string, at: int, t: int)
    requires x.Valid()
    ensures var (access, refresh) := Tokens(x, secret, uid, at);
            && (VerifyAccess(x, secret, access, t).Some? <==> Unix(t) < Unix(at + 15 * MINUTE))
            && (VerifyAccess(x, secret, access, t).Some? ==> VerifyAccess(x, secret, access, t).value.0 == uid)
            && VerifyAccess(x, secret, refresh, t) == None
            && (Verify(x, secret, access, t) == Some((uid, Access)) <==> Unix(t) < Unix(at + 15 * MINUTE))
            && (Verify(x, secret, refresh, t) == Some((uid, Refresh)) <==> Unix(t) < Unix(at + 30 * 24 * 60 * MINUTE))
            && (Verify(x, secret, refresh, t) == None <==> Unix(t) >= Unix(at + 30 * 24 * 60 * MINUTE))
  {
    SignedParses(x, secret, uid, Access, at, 15 * MINUTE, t);
    SignedParses(x, secret, uid, Refresh, at, 30 * 24 * 60 * MINUTE, t);
    hide Sign, Parse, Unix, Crypto.Valid;
  }

  // --- registration and verification ---

  function Registered(s: State, phoneHash: string, req: Request, uid: string, otp: string, now: int): (r: (State, bool))
    ensures r.0.windows == s.windows && r.0.links == s.links
  {
    if phoneHash in s.lastRegister && now - s.lastRegister[phoneHash] < REGISTER_COOLDOWN then (s, false)
    else
      (s.(lastRegister := s.lastRegister[phoneHash := now],
          accounts := s.accounts[uid := Account(uid, uid, phoneHash, req.deviceID, req.keys, req.oneTime, false)],
          pending := s.pending[uid := Otp(otp, now + OTP_TTL, 0)]), true)
  }

  datatype Check = NoCode | ExpiredCode | WrongGuess | NoAccount | Correct

  /** What comparing a code finds; only the last case succeeds. */
  function CheckCode(s: State, uid: string, code: string, now: int): Check {
    if uid !in s.pending then NoCode
    else if now > s.pending[uid].expiresAt then ExpiredCode
    else if s.pending[uid].code != code then WrongGuess
    else if uid !in s.accounts then NoAccount
    else Correct
  }

  function Verified(s: State, uid: string, code: string, now: int): (r: (State, bool))
    ensures r.0.windows == s.windows && r.0.links == s.links && r.0.lastRegister == s.lastRegister
    ensures r.1 ==> uid in s.accounts && r.0.accounts == s.accounts[uid := s.accounts[uid].(verified := true)]
    ensures !r.1 ==> r.0.accounts == s.accounts
  {
    match CheckCode(s, uid, code, now)
    case NoCode => (s, false)
    case ExpiredCode => (s.(pending := s.pending - {uid}), false)
    case WrongGuess =>
      var attempts := s.pending[uid].attempts + 1;
      (s.(pending := if attempts >= MAX_OTP_ATTEMPTS then s.pending - {uid}
                     else s.pending[uid := s.pending[uid].(attempts := attempts)]), false)
    case NoAccount => (s, false)
    case Correct =>
      (s.(accounts := s.accounts[uid := s.accounts[uid].(verified := true)], pending := s.pending - {uid}), true)
  }

  // --- refresh and linked devices ---

  predicate IsVerified(s: State, uid: string) { uid in s.accounts && s.accounts[uid].verified }

  function LinkCreated(s: State, token: string, accountID: string, now: int): State {
    s.(links := s.links[token := Link(accountID, now + LINK_TTL)])
  }

  function NewDeviceID(req: Request): int { if req.deviceID == 0 then 1 else req.deviceID }

  function Linked(s: State, token: string, req: Request, uid: string, now: int): (r: (State, Option<string>))
    ensures r.0.windows == s.windows && r.0.lastRegister == s.lastRegister
  {
    if token !in s.links || now > s.links[token].expiresAt then (s.(links := s.links - {token}), None)
    else
      var accountID := s.links[token].accountID;
      if accountID !in s.accounts then (s, None)
      else
        var device := Account(uid, accountID, "", NewDeviceID(req), req.keys, req.oneTime, true);
        (s.(accounts := s.accounts[uid := device], links := s.links - {token}), Some(accountID))
  }

  function AccountIDFor(s: State, uid: string): Option<string> {
    if IsVerified(s, uid) then Some(s.accounts[uid].accountID) else None
  }

  // --- removal ---

  function Family(accounts: Accounts, accountID: string): set<string> {
    set id | id in accounts && accounts[id].accountID == accountID
  }

  function PhoneHashes(accounts: Accounts, ids: set<string>): set<string>
    requires ids <= accounts.Keys
  {
    set id | id in ids :: accounts[id].phoneHash
  }

  /** The devices gone, with their codes and the cooldowns of their numbers. */
  function Without(s: State, ids: set<string>): State
    requires ids <= s.accounts.Keys
  {
    s.(accounts := s.accounts - ids, pending := s.pending - ids,
       lastRegister := s.lastRegister - PhoneHashes(s.accounts, ids))
  }

  function Deleted(s: State, uid: string): (r: (State, bool))
    ensures r.0.windows == s.windows && r.0.links == s.links
  {
    if uid in s.accounts then (Without(s, Family(s.accounts, s.accounts[uid].accountID)), true) else (s, false)
  }

  predicate Removable(s: State, caller: string, target: string) {
    caller in s.accounts && target in s.accounts && s.accounts[target].accountID == s.accounts[caller].accountID
    && target != s.accounts[target].accountID
  }

  function Removed(s: State, caller: string, target: string): (r: (State, bool))
    ensures r.0.windows == s.windows && r.0.links == s.links && r.0.lastRegister == s.lastRegister
  {
    if Removable(s, caller, target)
    then (s.(accounts := s.accounts - {target}, pending := s.pending - {target}), true)
    else (s, false)
  }

  // --- key bundles ---

  datatype Bundle = Bundle(deviceID: int, keys: Keys, oneTime: Option<PreKey>)

  function Fetched(s: State, uid: string): (r: (State, Option<Bundle>))
    ensures r.0.windows == s.windows && r.0.links == s.links && r.0.lastRegister == s.lastRegister
  {
    if !IsVerified(s, uid) then (s, None)
    else
      var a := s.accounts[uid];
      if a.oneTime == [] then (s, Some(Bundle(a.deviceID, a.keys, None)))
      else (s.(accounts := s.accounts[uid := a.(oneTime := a.oneTime[1..])]),
            Some(Bundle(a.deviceID, a.keys, Some(a.oneTime[0]))))
  }

  function Uploaded(s: State, uid: string, keys: seq<PreKey>): (r: (State, Option<nat>))
    ensures r.0.windows == s.windows && r.0.links == s.links && r.0.lastRegister == s.lastRegister
  {
    if uid !in s.accounts then (s, None)
    else
      var a := s.accounts[uid];
      (s.(accounts := s.accounts[uid := a.(oneTime := a.oneTime + keys)]), Some(|a.oneTime + keys|))
  }

  // --- the contact-discovery budget ---

  /** The window that a charge at this time is counted in. */
  function CurrentWindow(s: State, uid: string, now: int): Window {
    if uid !in s.windows || now - s.windows[uid].start >= INTERSECT_WINDOW then Window(now, 0) else s.windows[uid]
  }

  function Charged(s: State, uid: string, n: nat, now: int): (State, bool) {
    var w := CurrentWindow(s, uid, now);
    if w.used + n > INTERSECT_BUDGET then (s.(windows := s.windows[uid := w]), false)
    else (s.(windows := s.windows[uid := w.(used := w.used + n)]), true)
  }

  // --- contact intersection ---

  datatype Match = Match(phoneHash: string, userID: string)

  predicate Holds(accounts: Accounts, h: string, uid: string) {
    uid in accounts && accounts[uid].verified && accounts[uid].phoneHash == h
  }

  ghost predicate Known(accounts: Accounts, h: string) {
    exists uid :: Holds(accounts, h, uid)
  }

  /** The naive scan: of the first n hashes, each known one at its first occurrence. */
  ghost function Scan(accounts: Accounts, hashes: seq<string>, n: nat): seq<string>
    requires n <= |hashes|
  {
    if n == 0 then []
    else Scan(accounts, hashes, n - 1) + if hashes[n - 1] !in hashes[..n - 1] && Known(accounts, hashes[n - 1])
                                         then [hashes[n - 1]] else []
  }

  /** The scan invents nothing and misses nothing. */
  lemma {:induction false} ScanMembers(accounts: Accounts, hashes: seq<string>, n: nat, h: string)
    requires n <= |hashes|
    ensures h in Scan(accounts, hashes, n) <==> h in hashes[..n] && Known(accounts, h)
  {
    hide Known;
    if n > 0 {
      ScanMembers(accounts, hashes, n - 1, h);
      assert hashes[..n] == hashes[..n - 1] + [hashes[n - 1]];
    }
  }

  /** The scan repeats nothing. */
  lemma {:induction false} ScanOnce(accounts: Accounts, hashes: seq<string>, n: nat)
    requires n <= |hashes|
    ensures forall i, j :: 0 <= i < j < |Scan(accounts, hashes, n)| ==>
              Scan(accounts, hashes, n)[i] != Scan(accounts, hashes, n)[j]
  {
    hide Known;
    if n > 0 {
      ScanOnce(accounts, hashes, n - 1);
      ScanMembers(accounts, hashes, n - 1, hashes[n - 1]);
    }
  }

  function FirstAt(hashes: seq<string>, h: string): (i: nat)
    ensures i <= |hashes| && (i < |hashes| ==> hashes[i] == h) && forall k :: 0 <= k < i ==> hashes[k] != h
  {
    if hashes == [] || hashes[0] == h then 0 else 1 + FirstAt(hashes[1..], h)
  }

  /** The scan goes by where a hash was submitted first. */
  lemma {:induction false} ScanInOrder(accounts: Accounts, hashes: seq<string>, n: nat)
    requires n <= |hashes|
    ensures forall i, j :: 0 <= i < j < |Scan(accounts, hashes, n)| ==>
              FirstAt(hashes, Scan(accounts, hashes, n)[i]) < FirstAt(hashes, Scan(accounts, hashes, n)[j])
    ensures forall i :: 0 <= i < |Scan(accounts, hashes, n)| ==> FirstAt(hashes, Scan(accounts, hashes, n)[i]) < n
  {
    hide Known, FirstAt;
    if n > 0 {
      ScanInOrder(accounts, hashes, n - 1);
    }
  }

  function HashesOf(matches: seq<Match>): (r: seq<string>)
    ensures |r| == |matches|
  {
    seq(|matches|, i requires 0 <= i < |matches| => matches[i].phoneHash)
  }

  // --- persistence ---

  /** The file lists the accounts in no particular order. */
  ghost predicate Lists(file: seq<Account>, accounts: Accounts) {
    && (forall i :: 0 <= i < |file| ==> file[i].userID in accounts && accounts[file[i].userID] == file[i])
    && (forall id :: id in accounts ==> exists i :: 0 <= i < |file| && file[i].userID == id)
    && (forall i, j :: 0 <= i < j < |file| ==> file[i].userID != file[j].userID)
  }

  /** Records from before devices could be linked have no account id: such a device is its
      own account. */
  function Restored(a: Account): Account {
    if a.accountID == "" then a.(accountID := a.userID) else a
  }

  function Loaded(file: seq<Account>): Accounts {
    if file == [] then map[]
    else
      var n := |file| - 1;
      Loaded(file[..n])[file[n].userID := Restored(file[n])]
  }

  ghost predicate WellKeyed(accounts: Accounts) {
    forall id :: id in accounts ==> accounts[id].userID == id && accounts[id].accountID != ""
  }

  lemma {:induction false} LoadedAt(file: seq<Account>, id: string)
    requires forall i, j :: 0 <= i < j < |file| ==> file[i].userID != file[j].userID
    ensures id in Loaded(file) <==> exists i :: 0 <= i < |file| && file[i].userID == id
    ensures forall i :: 0 <= i < |file| && file[i].userID == id ==> Loaded(file)[id] == Restored(file[i])
  {
    if file != [] {
      var n := |file| - 1;
      LoadedAt(file[..n], id);
      assert forall i :: 0 <= i < n ==> file[..n][i] == file[i];
    }
  }

  /** Every record of a file is loaded as it is, but one without an account id becomes its own
      account. */
  lemma LoadedExactly(file: seq<Account>, i: nat)
    requires i < |file| && forall j, k :: 0 <= j < k < |file| ==> file[j].userID != file[k].userID
    ensures var a := file[i];
            a.userID in Loaded(file)
            && Loaded(file)[a.userID] == if a.accountID == "" then a.(accountID := a.userID) else a
  {
    LoadedAt(file, file[i].userID);
    hide Loaded;
  }

  /** Whatever order the accounts were written in, loading gives them back. */
  lemma LoadAfterPersist(file: seq<Account>, accounts: Accounts)
    requires Lists(file, accounts) && WellKeyed(accounts)
    ensures Loaded(file) == accounts
  {
    forall id ensures (id in Loaded(file) <==> id in accounts) && (id in accounts ==> Loaded(file)[id] == accounts[id]) {
      LoadedAt(file, id);
      if id in accounts {
        var i :| 0 <= i < |file| && file[i].userID == id;
      }
    }
  }
}
