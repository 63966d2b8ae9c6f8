/** The discovery store: maps of records that its methods change in place. Every method is
    tied to the function of DiscoveryState that says what it does to the store's value. */
module DiscoveryStore {
  import opened Options
  import opened Token
  import opened DiscoveryState

  class Device {
    const userID: string
    const accountID: string
    const phoneHash: string
    const deviceID: int
    const keys: Keys
    var oneTime: seq<PreKey>
    var verified: bool

    constructor (a: Account)
      ensures View() == a
    {
      userID, accountID, phoneHash, deviceID := a.userID, a.accountID, a.phoneHash, a.deviceID;
      keys, oneTime, verified := a.keys, a.oneTime, a.verified;
    }

    function View(): Account
      reads this
    {
      Account(userID, accountID, phoneHash, deviceID, keys, oneTime, verified)
    }
  }

  class PendingOtp {
    /** The key that this record is stored under. */
    ghost const key: string
    const code: string
    const expiresAt: int
    var attempts: nat

    constructor (ghost key: string, code: string, expiresAt: int)
      ensures View() == Otp(code, expiresAt, 0) && this.key == key
    {
      this.key, this.code, this.expiresAt, attempts := key, code, expiresAt, 0;
    }

    function View(): Otp
      reads this
    {
      Otp(code, expiresAt, attempts)
    }
  }

  class RateWindow {
    ghost const key: string
    const start: int
    var used: nat

    constructor (ghost key: string, start: int)
      ensures View() == Window(start, 0) && this.key == key
    {
      this.key, this.start, used := key, start, 0;
    }

    function View(): Window
      reads this
    {
      Window(start, used)
    }
  }

  lemma LoadedNone(file: seq<Account>)
    ensures Loaded(file[..0]) == map[]
  {}

  lemma LoadedOneMore(file: seq<Account>, i: nat)
    requires i < |file|
    ensures Loaded(file[..i + 1]) == Loaded(file[..i])[file[i].userID := Restored(file[i])]
    ensures Restored(file[i]).userID == file[i].userID
  {
    assert file[..i + 1][..i] == file[..i];
  }

  lemma InFamily(accounts: Accounts, accountID: string)
    ensures forall id :: id in Family(accounts, accountID) <==> id in accounts && accounts[id].accountID == accountID
  {}

  lemma WithoutNone(s: State)
    ensures Without(s, {}) == s
  {
    assert PhoneHashes(s.accounts, {}) == {};
  }

  lemma WithoutOneMore(s: State, ids: set<string>, id: string)
    requires ids <= s.accounts.Keys && id in s.accounts
    ensures var w := Without(s, ids);
            Without(s, ids + {id}) == w.(accounts := w.accounts - {id}, pending := w.pending - {id},
                                         lastRegister := w.lastRegister - {s.accounts[id].phoneHash})
  {
    assert PhoneHashes(s.accounts, ids + {id}) == PhoneHashes(s.accounts, ids) + {s.accounts[id].phoneHash};
  }

  lemma InWithout(s: State, ids: set<string>)
    requires ids <= s.accounts.Keys
    ensures forall id :: id in Without(s, ids).accounts <==> id in s.accounts && id !in ids
    ensures forall id :: id in Without(s, ids).accounts ==> Without(s, ids).accounts[id] == s.accounts[id]
  {}

  /** The accounts outside rest are listed, once each. */
  ghost predicate ListsAllBut(out: seq<Account>, accounts: Accounts, rest: set<string>) {
    && (forall i :: 0 <= i < |out| ==> out[i].userID in accounts && accounts[out[i].userID] == out[i] && out[i].userID !in rest)
    && (forall id :: id in accounts && id !in rest ==> exists i :: 0 <= i < |out| && out[i].userID == id)
    && (forall i, j :: 0 <= i < j < |out| ==> out[i].userID != out[j].userID)
  }

  lemma ListsNone(accounts: Accounts)
    ensures ListsAllBut([], accounts, accounts.Keys)
  {}

  lemma ListsOneMore(out: seq<Account>, accounts: Accounts, rest: set<string>, id: string)
    requires ListsAllBut(out, accounts, rest) && id in rest && id in accounts && accounts[id].userID == id
    ensures ListsAllBut(out + [accounts[id]], accounts, rest - {id})
  {
    var r := out + [accounts[id]];
    forall k | k in accounts && k !in rest - {id} ensures exists i :: 0 <= i < |r| && r[i].userID == k {
      if k == id {
        assert r[|out|].userID == k;
      } else {
        var i :| 0 <= i < |out| && out[i].userID == k;
        assert r[i].userID == k;
      }
    }
  }

  lemma ListsEverything(out: seq<Account>, accounts: Accounts)
    requires ListsAllBut(out, accounts, {})
    ensures Lists(out, accounts)
  {}

  class Store {
    const persistent: bool
    const crypto: Crypto
    const secret: string
    /** The salted phone hash. */
    const hashPhone: string -> string
    var accounts: map<string, Device>
    var pending: map<string, PendingOtp>
    var lastRegister: map<string, int>
    var windows: map<string, RateWindow>
    var links: map<string, Link>
    /** The file, as this process last found or left it. */
    var file: seq<Account>

    /** The values of the records above. */
    ghost var accountsView: Accounts
    ghost var pendingView: map<string, Otp>
    ghost var windowsView: map<string, Window>

    ghost function View(): State
      reads this`accountsView, this`pendingView, this`lastRegister, this`windowsView, this`links
    {
      State(accountsView, pendingView, lastRegister, windowsView, links)
    }

    /** Every record is stored under its own key only, and the views are what the records hold. */
    ghost predicate Valid()
      reads this`accounts, this`accountsView, this`pending, this`pendingView, this`windows, this`windowsView
      reads accounts.Values, pending.Values, windows.Values
    {
      ValidAccounts() && ValidPending() && ValidWindows()
    }

    ghost predicate ValidAccounts()
      reads this`accounts, this`accountsView, accounts.Values
    {
      && (forall a :: a in accountsView <==> a in accounts)
      && forall a :: a in accounts ==> accounts[a].userID == a && accountsView[a] == accounts[a].View()
    }

    ghost predicate ValidPending()
      reads this`pending, this`pendingView, pending.Values
    {
      && (forall a :: a in pendingView <==> a in pending)
      && forall a :: a in pending ==>
           pending[a].key == a && pendingView[a] == Otp(pending[a].code, pending[a].expiresAt, pending[a].attempts)
    }

    ghost predicate ValidWindows()
      reads this`windows, this`windowsView, windows.Values
    {
      && (forall a :: a in windowsView <==> a in windows)
      && forall a :: a in windows ==> windows[a].key == a && windowsView[a] == Window(windows[a].start, windows[a].used)
    }

    /** What the file holds after a write. */
    ghost predicate Written(before: seq<Account>)
      reads this`file, this`accountsView
    {
      if persistent then Lists(file, accountsView) else file == before
    }

    constructor InMemory(crypto: Crypto, secret: string, hashPhone: string -> string)
      ensures Valid() && View() == EMPTY && !persistent && file == []
    {
      persistent := false;
      this.crypto, this.secret, this.hashPhone := crypto, secret, hashPhone;
      accounts, pending, lastRegister, windows, links, file := map[], map[], map[], map[], map[], [];
      accountsView, pendingView, windowsView := map[], map[], map[];
    }

    /** Only accounts survive a restart. */
    constructor Persistent(crypto: Crypto, secret: string, hashPhone: string -> string, file: seq<Account>)
      ensures Valid() && View() == EMPTY.(accounts := Loaded(file)) && persistent && this.file == file
    {
      persistent := true;
      this.crypto, this.secret, this.hashPhone := crypto, secret, hashPhone;
      accounts, pending, lastRegister, windows, links := map[], map[], map[], map[], map[];
      this.file := file;
      accountsView, pendingView, windowsView := map[], map[], map[];
      new;
      Load();
    }

    method Load()
      requires Valid() && accountsView == map[]
      modifies this`accounts, this`accountsView
      ensures Valid() && accountsView == Loaded(file)
    {
      hide Valid, Loaded, Restored;
      LoadedNone(file);
      var i := 0;
      while i < |file|
        invariant 0 <= i <= |file|
        invariant Valid() && accountsView == Loaded(file[..i])
      {
        LoadedOneMore(file, i);
        PutAccount(file[i].userID, Restored(file[i]));
        i := i + 1;
      }
      assert file[..i] == file;
    }

    lemma Agrees(uid: string)
      requires Valid()
      ensures accounts.Keys == accountsView.Keys
      ensures uid in accounts <==> uid in accountsView
      ensures uid in accounts ==> accounts[uid].View() == accountsView[uid] && accountsView[uid].userID == uid
      ensures uid in pending <==> uid in pendingView
      ensures uid in pending ==> pending[uid].View() == pendingView[uid]
      ensures uid in windows <==> uid in windowsView
      ensures uid in windows ==> windows[uid].View() == windowsView[uid]
    {}

    // --- single changes to one map ---

    method PutAccount(uid: string, a: Account)
      requires Valid() && a.userID == uid
      modifies this`accounts, this`accountsView
      ensures Valid() && accountsView == old(accountsView)[uid := a]
      ensures fresh(accounts.Values - old(accounts.Values))
    {
      var d := new Device(a);
      accounts := accounts[uid := d];
      accountsView := accountsView[uid := a];
    }

    method PutOtp(uid: string, code: string, expiresAt: int)
      requires Valid()
      modifies this`pending, this`pendingView
      ensures Valid() && pendingView == old(pendingView)[uid := Otp(code, expiresAt, 0)]
    {
      var p := new PendingOtp(uid, code, expiresAt);
      pending := pending[uid := p];
      pendingView := pendingView[uid := p.View()];
    }

    method DropOtp(uid: string)
      requires Valid()
      modifies this`pending, this`pendingView
      ensures Valid() && pendingView == old(pendingView) - {uid}
    {
      pending := pending - {uid};
      pendingView := pendingView - {uid};
    }

    method DropAccount(uid: string)
      requires Valid()
      modifies this`accounts, this`accountsView
      ensures Valid() && accountsView == old(accountsView) - {uid}
      ensures accounts == old(accounts) - {uid}
    {
      accounts := accounts - {uid};
      accountsView := accountsView - {uid};
    }

    method CountAttempt(uid: string)
      requires Valid() && uid in pending
      modifies this`pendingView, pending[uid]
      ensures Valid()
      ensures pendingView == old(pendingView)[uid := old(pendingView)[uid].(attempts := old(pendingView)[uid].attempts + 1)]
      ensures uid in pending && pending[uid].attempts == old(pending[uid].attempts) + 1
    {
      pending[uid].attempts := pending[uid].attempts + 1;
      pendingView := pendingView[uid := pending[uid].View()];
    }

    /** A wrong guess: counted, and the last one allowed burns the code. */
    method CountWrongGuess(uid: string)
      requires Valid() && uid in pending
      modifies this`pending, this`pendingView, pending[uid]
      ensures Valid()
      ensures var p := old(pendingView)[uid].(attempts := old(pendingView)[uid].attempts + 1);
              pendingView == if p.attempts >= MAX_OTP_ATTEMPTS then old(pendingView) - {uid} else old(pendingView)[uid := p]
    {
      hide Valid;
      Agrees(uid);
      CountAttempt(uid);
      if pending[uid].attempts >= MAX_OTP_ATTEMPTS {
        DropOtp(uid);
        assert pendingView == old(pendingView) - {uid};
      }
    }

    /** Writing to a device touches no code and no window. */
    method WriteDevice(d: Device, oneTime: seq<PreKey>, verified: bool)
      requires ValidPending() && ValidWindows()
      modifies d
      ensures ValidPending() && ValidWindows()
      ensures d.View() == old(d.View()).(oneTime := oneTime, verified := verified)
    {
      d.oneTime := oneTime;
      d.verified := verified;
    }

    /** Nor does bringing the devices' view up to date. */
    ghost method SetAccountsView(v: Accounts)
      requires ValidPending() && ValidWindows()
      modifies this`accountsView
      ensures ValidPending() && ValidWindows() && accountsView == v
    {
      accountsView := v;
    }

    method Rewrite(uid: string, oneTime: seq<PreKey>, verified: bool)
      requires Valid() && uid in accounts
      modifies this`accountsView, accounts[uid]
      ensures Valid()
      ensures accountsView == old(accountsView)[uid := old(accountsView)[uid].(oneTime := oneTime, verified := verified)]
    {
      var d := accounts[uid];
      ghost var a := accountsView[uid].(oneTime := oneTime, verified := verified);
      assert d.userID == uid && accountsView[uid] == d.View();
      hide ValidPending, ValidWindows;
      SetAccountsView(accountsView[uid := a]);
      WriteDevice(d, oneTime, verified);
    }

    method SetVerified(uid: string)
      requires Valid() && uid in accounts
      modifies this`accountsView, accounts[uid]
      ensures Valid() && accountsView == old(accountsView)[uid := old(accountsView)[uid].(verified := true)]
    {
      Agrees(uid);
      hide Valid;
      Rewrite(uid, accounts[uid].oneTime, true);
    }

    method SetPool(uid: string, pool: seq<PreKey>)
      requires Valid() && uid in accounts
      modifies this`accountsView, accounts[uid]
      ensures Valid() && accountsView == old(accountsView)[uid := old(accountsView)[uid].(oneTime := pool)]
    {
      Agrees(uid);
      hide Valid;
      Rewrite(uid, pool, accounts[uid].verified);
    }

    /** The records of all accounts, in whatever order the map is walked. */
    method Records() returns (out: seq<Account>)
      requires Valid()
      ensures Lists(out, accountsView)
    {
      hide Valid, ListsAllBut;
      Agrees("");
      out := [];
      var rest := accounts.Keys;
      ListsNone(accountsView);
      while rest != {}
        invariant rest <= accounts.Keys
        invariant ListsAllBut(out, accountsView, rest)
      {
        var id :| id in rest;
        Agrees(id);
        ListsOneMore(out, accountsView, rest, id);
        out := out + [accounts[id].View()];
        rest := rest - {id};
      }
      ListsEverything(out, accountsView);
    }

    method PersistLocked()
      requires Valid()
      modifies this`file
      ensures Written(old(file)) && Valid()
      ensures View() == old(View())
    {
      hide Valid, Lists;
      if !persistent {
        return;
      }
      file := Records();
    }

    // --- the operations ---

    method Register(phone: string, req: Request, uid: string, otp: string, now: int) returns (ok: bool)
      requires Valid()
      modifies this
      ensures Valid()
      ensures View() == Registered(old(View()), hashPhone(phone), req, uid, otp, now).0
      ensures ok == Registered(old(View()), hashPhone(phone), req, uid, otp, now).1
      ensures if ok then Written(old(file)) else file == old(file)
    {
      hide Valid, Written;
      var phoneHash := hashPhone(phone);
      if phoneHash in lastRegister && now - lastRegister[phoneHash] < REGISTER_COOLDOWN {
        return false;
      }
      lastRegister := lastRegister[phoneHash := now];
      PutAccount(uid, Account(uid, uid, phoneHash, req.deviceID, req.keys, req.oneTime, false));
      PutOtp(uid, otp, now + OTP_TTL);
      PersistLocked();
      ok := true;
    }

    method Verify(uid: string, code: string, now: int) returns (tokens: Option<(string, string)>)
      requires Valid()
      modifies this, accounts.Values, pending.Values
      ensures Valid()
      ensures var (s, ok) := Verified(old(View()), uid, code, now);
              View() == s && tokens == if ok then Some(Tokens(crypto, secret, uid, now)) else None
      ensures if tokens.Some? then Written(old(file)) else file == old(file)
    {
      hide Valid, Written;
      Agrees(uid);
      if uid !in pending {
        return None;
      }
      var p := pending[uid];
      if now > p.expiresAt {
        DropOtp(uid);
        return None;
      }
      if p.code != code {
        CountWrongGuess(uid);
        return None;
      }
      if uid !in accounts {
        return None;
      }
      SetVerified(uid);
      DropOtp(uid);
      PersistLocked();
      tokens := Some(Tokens(crypto, secret, uid, now));
    }

    /** The token is checked before the store is locked. */
    method RefreshTokens(refreshToken: string, checkedAt: int, now: int) returns (tokens: Option<(string, string)>)
      requires Valid()
      ensures var v := Token.Verify(crypto, secret, refreshToken, checkedAt);
              tokens == if v.Some? && v.value.1 == Refresh && IsVerified(View(), v.value.0)
                        then Some(Tokens(crypto, secret, v.value.0, now)) else None
    {
      var v := Token.Verify(crypto, secret, refreshToken, checkedAt);
      if v.None? || v.value.1 != Refresh {
        return None;
      }
      var uid := v.value.0;
      if uid !in accounts || !accounts[uid].verified {
        return None;
      }
      tokens := Some(Tokens(crypto, secret, uid, now));
    }

    method CreateLinkToken(accountID: string, token: string, now: int)
      requires Valid()
      modifies this`links
      ensures Valid() && View() == LinkCreated(old(View()), token, accountID, now)
    {
      links := links[token := Link(accountID, now + LINK_TTL)];
    }

    method LinkDevice(token: string, req: Request, uid: string, now: int)
      returns (accountID: Option<string>, tokens: Option<(string, string)>)
      requires Valid()
      modifies this
      ensures Valid()
      ensures View() == Linked(old(View()), token, req, uid, now).0
      ensures accountID == Linked(old(View()), token, req, uid, now).1
      ensures tokens == if accountID.Some? then Some(Tokens(crypto, secret, uid, now)) else None
      ensures if accountID.Some? then Written(old(file)) else file == old(file)
    {
      hide Written, Valid;
      if token !in links || now > links[token].expiresAt {
        links := links - {token};
        return None, None;
      }
      var id := links[token].accountID;
      Agrees(id);
      if id !in accounts {
        return None, None;
      }
      var deviceID := if req.deviceID == 0 then 1 else req.deviceID;
      PutAccount(uid, Account(uid, id, "", deviceID, req.keys, req.oneTime, true));
      links := links - {token};
      PersistLocked();
      return Some(id), Some(Tokens(crypto, secret, uid, now));
    }

    /** Every verified device of the account, once each, in no particular order. */
    method DevicesFor(accountID: string) returns (out: seq<string>)
      requires Valid()
      ensures forall id :: id in out <==> IsVerified(View(), id) && accounts[id].accountID == accountID
      ensures forall i, j :: 0 <= i < j < |out| ==> out[i] != out[j]
    {
      out := [];
      var rest := accounts.Keys;
      while rest != {}
        invariant rest <= accounts.Keys
        invariant forall id :: id in out <==>
                    id in accounts && id !in rest && accounts[id].verified && accounts[id].accountID == accountID
        invariant forall i, j :: 0 <= i < j < |out| ==> out[i] != out[j]
      {
        var id :| id in rest;
        rest := rest - {id};
        var a := accounts[id];
        if a.verified && a.accountID == accountID {
          out := out + [a.userID];
        }
      }
    }

    method AccountIDOf(uid: string) returns (accountID: Option<string>)
      requires Valid()
      ensures accountID == AccountIDFor(View(), uid)
    {
      if uid !in accounts || !accounts[uid].verified {
        return None;
      }
      accountID := Some(accounts[uid].accountID);
    }

    /** One turn of the deletion loop. */
    method DropIfOn(accountID: string, id: string) returns (dropped: bool)
      requires Valid() && id in accounts
      modifies this`accounts, this`accountsView, this`pending, this`pendingView, this`lastRegister
      ensures Valid() && dropped == (old(accountsView)[id].accountID == accountID)
      ensures var w := old(View());
              View() == if dropped then w.(accounts := w.accounts - {id}, pending := w.pending - {id},
                                           lastRegister := w.lastRegister - {w.accounts[id].phoneHash}) else w
    {
      hide Valid;
      Agrees(id);
      if accounts[id].accountID == accountID {
        lastRegister := lastRegister - {accounts[id].phoneHash};
        DropOtp(id);
        DropAccount(id);
        return true;
      }
      dropped := false;
    }

    /** Visits every account once, in any order. */
    method DropFamily(accountID: string)
      requires Valid()
      modifies this`accounts, this`accountsView, this`pending, this`pendingView, this`lastRegister
      ensures Valid() && View() == Without(old(View()), Family(old(accountsView), accountID))
    {
      hide Valid, Without, Family;
      ghost var s := View();
      ghost var ids, done := Family(s.accounts, accountID), {};
      InFamily(s.accounts, accountID);
      WithoutNone(s);
      Agrees("");
      var rest := accounts.Keys;
      while rest != {}
        invariant rest <= s.accounts.Keys && done <= ids <= rest + done && done !! rest
        invariant Valid() && View() == Without(s, done)
      {
        var id :| id in rest;
        Agrees(id);
        InWithout(s, done);
        WithoutOneMore(s, done, id);
        rest := rest - {id};
        var dropped := DropIfOn(accountID, id);
        if dropped {
          done := done + {id};
        }
      }
      assert done == ids;
    }

    method DeleteAccount(uid: string) returns (ok: bool)
      requires Valid()
      modifies this
      ensures Valid() && View() == Deleted(old(View()), uid).0
      ensures ok == Deleted(old(View()), uid).1
      ensures if ok then Written(old(file)) else file == old(file)
    {
      hide Valid, Written, Family, Without;
      Agrees(uid);
      if uid !in accounts {
        return false;
      }
      DropFamily(accounts[uid].accountID);
      PersistLocked();
      ok := true;
    }

    method RemoveDevice(caller: string, target: string) returns (ok: bool)
      requires Valid()
      modifies this
      ensures Valid() && View() == Removed(old(View()), caller, target).0
      ensures ok == Removed(old(View()), caller, target).1
      ensures if ok then Written(old(file)) else file == old(file)
    {
      hide Valid, Written;
      Agrees(caller);
      Agrees(target);
      if caller !in accounts {
        return false;
      }
      if target !in accounts || accounts[target].accountID != accounts[caller].accountID {
        return false;
      }
      if target == accounts[target].accountID {
        return false;
      }
      DropOtp(target);
      DropAccount(target);
      PersistLocked();
      ok := true;
    }

    /** The pool is written back only when a key was taken from it. */
    method BundleFor(uid: string) returns (bundle: Option<Bundle>)
      requires Valid()
      modifies this`file, this`accountsView, accounts.Values
      ensures Valid() && View() == Fetched(old(View()), uid).0
      ensures bundle == Fetched(old(View()), uid).1
      ensures if bundle.Some? && bundle.value.oneTime.Some? then Written(old(file)) else file == old(file)
    {
      hide Valid, Written;
      Agrees(uid);
      if uid !in accounts || !accounts[uid].verified {
        return None;
      }
      var a := accounts[uid];
      var b := Bundle(a.deviceID, a.keys, None);
      if |a.oneTime| > 0 {
        var otk := a.oneTime[0];
        SetPool(uid, a.oneTime[1..]);
        b := b.(oneTime := Some(otk));
        PersistLocked();
      }
      bundle := Some(b);
    }

    method PoolSize(uid: string) returns (size: Option<nat>)
      requires Valid()
      ensures size == if uid in accounts then Some(|accountsView[uid].oneTime|) else None
    {
      if uid !in accounts {
        return None;
      }
      size := Some(|accounts[uid].oneTime|);
    }

    method AddOneTime(uid: string, keys: seq<PreKey>) returns (size: Option<nat>)
      requires Valid()
      modifies this`file, this`accountsView, accounts.Values
      ensures Valid() && View() == Uploaded(old(View()), uid, keys).0
      ensures size == Uploaded(old(View()), uid, keys).1
      ensures if size.Some? then Written(old(file)) else file == old(file)
    {
      hide Valid, Written;
      Agrees(uid);
      if uid !in accounts {
        return None;
      }
      var a := accounts[uid];
      SetPool(uid, a.oneTime + keys);
      PersistLocked();
      Agrees(uid);
      size := Some(|a.oneTime|);
    }

    method NewWindow(uid: string, now: int)
      requires Valid()
      modifies this`windows, this`windowsView
      ensures Valid() && windowsView == old(windowsView)[uid := Window(now, 0)]
      ensures uid in windows && fresh(windows[uid])
    {
      var w := new RateWindow(uid, now);
      windows := windows[uid := w];
      windowsView := windowsView[uid := w.View()];
    }

    method Spend(uid: string, n: nat)
      requires Valid() && uid in windows
      modifies this`windowsView, windows[uid]
      ensures Valid() && windowsView == old(windowsView)[uid := old(windowsView)[uid].(used := old(windowsView)[uid].used + n)]
    {
      windows[uid].used := windows[uid].used + n;
      windowsView := windowsView[uid := windows[uid].View()];
    }

    /** The window that is past is replaced even when the charge is then refused. */
    method AllowIntersect(uid: string, n: nat, now: int) returns (ok: bool)
      requires Valid()
      modifies this`windows, this`windowsView, windows.Values
      ensures Valid() && View() == Charged(old(View()), uid, n, now).0
      ensures ok == Charged(old(View()), uid, n, now).1
    {
      hide Valid;
      Agrees(uid);
      if uid !in windows || now - windows[uid].start >= INTERSECT_WINDOW {
        NewWindow(uid, now);
      }
      Agrees(uid);
      assert windowsView == old(windowsView)[uid := CurrentWindow(old(View()), uid, now)];
      if windows[uid].used + n > INTERSECT_BUDGET {
        return false;
      }
      Spend(uid, n);
      ok := true;
    }

    /** Later accounts overwrite earlier ones with the same hash, in whatever order the map
        is walked. */
    method ByHash() returns (byHash: map<string, string>)
      requires Valid()
      ensures forall h :: h in byHash ==> Holds(accountsView, h, byHash[h])
      ensures forall uid :: uid in accountsView && accountsView[uid].verified ==> accountsView[uid].phoneHash in byHash
    {
      hide Valid;
      byHash := map[];
      Agrees("");
      var rest := accounts.Keys;
      while rest != {}
        invariant rest <= accountsView.Keys
        invariant forall h :: h in byHash ==> Holds(accountsView, h, byHash[h])
        invariant forall uid :: uid in accountsView && uid !in rest && accountsView[uid].verified
                                ==> accountsView[uid].phoneHash in byHash
      {
        var id :| id in rest;
        Agrees(id);
        var a := accounts[id];
        if a.verified {
          byHash := byHash[a.phoneHash := a.userID];
        }
        rest := rest - {id};
      }
    }

    method Intersect(hashes: seq<string>) returns (matches: seq<Match>)
      requires Valid()
      ensures HashesOf(matches) == Scan(accountsView, hashes, |hashes|)
      ensures forall i :: 0 <= i < |matches| ==> Holds(accountsView, matches[i].phoneHash, matches[i].userID)
    {
      hide Valid;
      var byHash := ByHash();
      matches := [];
      var seen := {};
      var i := 0;
      while i < |hashes|
        invariant 0 <= i <= |hashes|
        invariant forall h :: h in seen <==> h in hashes[..i]
        invariant HashesOf(matches) == Scan(accountsView, hashes, i)
        invariant forall k :: 0 <= k < |matches| ==> Holds(accountsView, matches[k].phoneHash, matches[k].userID)
      {
        var h := hashes[i];
        assert hashes[..i + 1] == hashes[..i] + [h];
        i := i + 1;
        if h in seen {
          continue;
        }
        seen := seen + {h};
        if h in byHash {
          ghost var before := matches;
          assert Holds(accountsView, h, byHash[h]);
          matches := matches + [Match(h, byHash[h])];
          assert HashesOf(matches) == HashesOf(before) + [h];
        }
      }
    }
  }
}
