/** Whole runs of a persistent discovery store. Each locked section is a step; a restart
    keeps the file and loses everything else. User ids are fresh random values, and a link
    token is minted for an account id that an earlier step resolved from a verified device. */
module DiscoveryRuns {
  import opened DiscoveryState

  /** A pair of tokens issued to a device. */
  datatype Issue = Issue(uid: string, at: int)

  datatype Fate = Waiting | Expired | Burned | Used | Cancelled | Lost

  /** What has become of the one code a registration was given, and the wrong guesses it was
      compared with. */
  datatype OtpLog = OtpLog(wrong: nat, fate: Fate)

  /** Hashes that were allowed, and the start of the window they were counted in. */
  datatype Spent = Spent(uid: string, at: int, n: nat, start: int)

  /** spent goes back to the last restart, everything else to the beginning. */
  datatype World = World(
    s: State, disk: Accounts, now: int,
    used: set<string>, resolved: set<string>, removedAt: map<string, int>, issued: seq<Issue>,
    otps: map<string, OtpLog>, served: map<string, seq<PreKey>>, uploaded: map<string, seq<PreKey>>,
    spent: seq<Spent>)

  datatype Event =
    | Register(phoneHash: string, req: Request, uid: string, otp: string, now: int)
    | Verify(uid: string, code: string, now: int)
    | Refresh(uid: string, now: int)
    | Resolve(uid: string)
    | CreateLink(token: string, accountID: string, now: int)
    | LinkDevice(token: string, req: Request, uid: string, now: int)
    | Remove(caller: string, target: string, now: int)
    | Delete(uid: string, now: int)
    | Fetch(uid: string)
    | Upload(uid: string, keys: seq<PreKey>)
    | Charge(uid: string, n: nat, now: int)
    | Restart(file: seq<Account>, now: int)

  function Init(now: int): World {
    World(EMPTY, map[], now, {}, {}, map[], [], map[], map[], map[], [])
  }

  function TimeOf(w: World, e: Event): int {
    if e.Resolve? || e.Fetch? || e.Upload? then w.now else e.now
  }

  /** A salted hash is never the empty string, and the empty string is not a user id. */
  ghost predicate Enabled(w: World, e: Event) {
    && w.now <= TimeOf(w, e)
    && (e.Register? || e.LinkDevice? ==> e.uid !in w.used && e.uid != "")
    && (e.Register? ==> e.phoneHash != "")
    && (e.CreateLink? ==> e.accountID in w.resolved)
    && (e.Restart? ==> Lists(e.file, w.disk))
  }

  function Apply(w: World, e: Event): World {
    match e
    case Register(h, req, uid, otp, now) => ApplyRegister(w, h, req, uid, otp, now)
    case Verify(uid, code, now) => ApplyVerify(w, uid, code, now)
    case Refresh(uid, now) => ApplyRefresh(w, uid, now)
    case Resolve(uid) => ApplyResolve(w, uid)
    case CreateLink(token, accountID, now) => ApplyCreate(w, token, accountID, now)
    case LinkDevice(token, req, uid, now) => ApplyLink(w, token, req, uid, now)
    case Remove(caller, target, now) => ApplyRemove(w, caller, target, now)
    case Delete(uid, now) => ApplyDelete(w, uid, now)
    case Fetch(uid) => ApplyFetch(w, uid)
    case Upload(uid, keys) => ApplyUpload(w, uid, keys)
    case Charge(uid, n, now) => ApplyCharge(w, uid, n, now)
    case Restart(file, now) => ApplyRestart(w, file, now)
  }

  function ApplyRegister(w: World, h: string, req: Request, uid: string, otp: string, now: int): World {
    var (s, ok) := Registered(w.s, h, req, uid, otp, now);
    if ok then
      w.(s := s, disk := s.accounts, now := now, used := w.used + {uid}, otps := w.otps[uid := OtpLog(0, Waiting)],
         served := w.served[uid := []], uploaded := w.uploaded[uid := req.oneTime])
    else w.(now := now)
  }

  function ApplyVerify(w: World, uid: string, code: string, now: int): World {
    var (s, ok) := Verified(w.s, uid, code, now);
    w.(s := s, now := now, disk := if ok then s.accounts else w.disk,
       issued := if ok then w.issued + [Issue(uid, now)] else w.issued,
       otps := if uid in w.otps then w.otps[uid := AfterCheck(w.otps[uid], CheckCode(w.s, uid, code, now))] else w.otps)
  }

  function AfterCheck(o: OtpLog, c: Check): OtpLog {
    match c
    case ExpiredCode => o.(fate := Expired)
    case WrongGuess => OtpLog(o.wrong + 1, if o.wrong + 1 >= MAX_OTP_ATTEMPTS then Burned else o.fate)
    case Correct => o.(fate := Used)
    case _ => o
  }

  function ApplyRefresh(w: World, uid: string, now: int): World {
    w.(now := now, issued := if IsVerified(w.s, uid) then w.issued + [Issue(uid, now)] else w.issued)
  }

  function ApplyResolve(w: World, uid: string): World {
    var a := AccountIDFor(w.s, uid);
    w.(resolved := if a.Some? then w.resolved + {a.value} else w.resolved)
  }

  function ApplyCreate(w: World, token: string, accountID: string, now: int): World {
    w.(s := LinkCreated(w.s, token, accountID, now), now := now)
  }

  function ApplyLink(w: World, token: string, req: Request, uid: string, now: int): World {
    var (s, accountID) := Linked(w.s, token, req, uid, now);
    if accountID.Some? then
      w.(s := s, disk := s.accounts, now := now, used := w.used + {uid}, issued := w.issued + [Issue(uid, now)],
         served := w.served[uid := []], uploaded := w.uploaded[uid := req.oneTime])
    else w.(s := s, now := now)
  }

  /** The codes among ids that were still waiting end this way. */
  function Settled(otps: map<string, OtpLog>, ids: set<string>, fate: Fate): map<string, OtpLog> {
    map k | k in otps :: if k in ids && otps[k].fate == Waiting then otps[k].(fate := fate) else otps[k]
  }

  function Removing(w: World, s: State, ids: set<string>, now: int): World {
    w.(s := s, disk := s.accounts, now := now, removedAt := w.removedAt + (map id | id in ids :: now),
       otps := Settled(w.otps, ids, Cancelled))
  }

  function ApplyRemove(w: World, caller: string, target: string, now: int): World {
    if Removable(w.s, caller, target) then Removing(w, Removed(w.s, caller, target).0, {target}, now) else w.(now := now)
  }

  function ApplyDelete(w: World, uid: string, now: int): World {
    if uid in w.s.accounts
    then Removing(w, Deleted(w.s, uid).0, Family(w.s.accounts, w.s.accounts[uid].accountID), now) else w.(now := now)
  }

  function ApplyFetch(w: World, uid: string): World {
    var (s, b) := Fetched(w.s, uid);
    if b.Some? && b.value.oneTime.Some? then
      w.(s := s, disk := s.accounts,
         served := w.served[uid := (if uid in w.served then w.served[uid] else []) + [b.value.oneTime.value]])
    else w.(s := s)
  }

  function ApplyUpload(w: World, uid: string, keys: seq<PreKey>): World {
    var (s, size) := Uploaded(w.s, uid, keys);
    if size.Some? then
      w.(s := s, disk := s.accounts,
         uploaded := w.uploaded[uid := (if uid in w.uploaded then w.uploaded[uid] else []) + keys])
    else w
  }

  function ApplyCharge(w: World, uid: string, n: nat, now: int): World {
    var (s, ok) := Charged(w.s, uid, n, now);
    w.(s := s, now := now, spent := if ok then w.spent + [Spent(uid, now, n, s.windows[uid].start)] else w.spent)
  }

  function ApplyRestart(w: World, file: seq<Account>, now: int): World {
    w.(s := EMPTY.(accounts := Loaded(file)), now := now, otps := Settled(w.otps, w.otps.Keys, Lost), spent := [])
  }

  // --- what every step keeps ---

  /** Depth one: a device's account is itself or a stored verified device that is its own
      account; only such a primary has a phone hash. */
  ghost predicate Placed(accounts: Accounts, id: string)
    requires id in accounts
  {
    var a := accounts[id];
    && a.userID == id && id != ""
    && a.accountID in accounts && accounts[a.accountID].accountID == a.accountID
    && (a.accountID != id ==> a.verified && accounts[a.accountID].verified && a.phoneHash == "")
    && (a.accountID == id ==> a.phoneHash != "")
  }

  ghost predicate Forest(accounts: Accounts) {
    forall id :: id in accounts ==> Placed(accounts, id)
  }

  ghost predicate IdsInv(w: World) {
    && w.disk == w.s.accounts
    && (forall id :: id in w.s.accounts ==> id in w.used && id !in w.removedAt)
    && (forall id :: id in w.resolved || id in w.removedAt ==> id in w.used)
    && (forall t :: t in w.s.links ==> w.s.links[t].accountID in w.resolved)
  }

  ghost predicate ResolvedInv(accounts: Accounts, resolved: set<string>) {
    forall a :: a in resolved && a in accounts ==> accounts[a].accountID == a && accounts[a].verified
  }

  ghost predicate IssuedInv(w: World) {
    forall i :: 0 <= i < |w.issued| ==>
      && w.issued[i].at <= w.now && w.issued[i].uid in w.used
      && (w.issued[i].uid in w.removedAt ==> w.issued[i].at <= w.removedAt[w.issued[i].uid])
  }

  ghost predicate LogInv(w: World, id: string, o: OtpLog) {
    && id in w.used
    && (id in w.s.pending <==> o.fate == Waiting)
    && (id in w.s.pending ==> w.s.pending[id].attempts == o.wrong < MAX_OTP_ATTEMPTS)
    && o.wrong <= MAX_OTP_ATTEMPTS && (o.wrong == MAX_OTP_ATTEMPTS <==> o.fate == Burned)
    && (id in w.s.accounts ==> (w.s.accounts[id].verified <==> o.fate == Used))
  }

  /** One registration's code. */
  ghost predicate OtpInv(w: World, id: string) {
    && (id in w.s.pending ==> id in w.otps && id in w.s.accounts)
    && (id in w.otps ==> LogInv(w, id, w.otps[id]))
    && (id in w.s.accounts && id !in w.otps ==> w.s.accounts[id].verified)
  }

  /** One device's one-time keys: those handed out, then those still there, are those that
      came with the registration and the uploads. */
  ghost predicate PoolInv(w: World, id: string) {
    id in w.s.accounts ==>
      id in w.served && id in w.uploaded && w.served[id] + w.s.accounts[id].oneTime == w.uploaded[id]
  }

  ghost predicate DeviceInv(w: World, id: string) { OtpInv(w, id) && PoolInv(w, id) }

  ghost predicate StoreInv(w: World) {
    Forest(w.s.accounts) && IdsInv(w) && ResolvedInv(w.s.accounts, w.resolved) && IssuedInv(w)
  }

  ghost predicate Inv(w: World) {
    StoreInv(w) && forall id :: DeviceInv(w, id)
  }

  // --- the forest under each kind of change ---

  lemma NewPrimary(accounts: Accounts, a: Account)
    requires Forest(accounts) && a.userID !in accounts && a.accountID == a.userID != "" && a.phoneHash != ""
    ensures Forest(accounts[a.userID := a])
  {}

  lemma NewLinked(accounts: Accounts, a: Account)
    requires Forest(accounts) && a.userID !in accounts && a.userID != "" && a.verified && a.phoneHash == ""
    requires a.accountID in accounts && accounts[a.accountID].accountID == a.accountID && accounts[a.accountID].verified
    ensures Forest(accounts[a.userID := a])
  {}

  lemma SamePlace(accounts: Accounts, id: string, oneTime: seq<PreKey>, verified: bool)
    requires Forest(accounts) && id in accounts && (accounts[id].verified ==> verified)
    ensures Forest(accounts[id := accounts[id].(oneTime := oneTime, verified := verified)])
  {}

  lemma Pruned(accounts: Accounts, ids: set<string>)
    requires Forest(accounts)
    requires forall id :: id in accounts && id !in ids ==> accounts[id].accountID !in ids
    ensures Forest(accounts - ids)
  {}

  /** Removing one linked device leaves no device without its account: nothing hangs below
      a linked device. */
  lemma LinkedIsLeaf(accounts: Accounts, target: string)
    requires Forest(accounts) && target in accounts && accounts[target].accountID != target
    ensures forall id :: id in accounts && id != target ==> accounts[id].accountID != target
  {
    forall id | id in accounts && id != target ensures accounts[id].accountID != target {
      assert Placed(accounts, id);
    }
  }

  lemma FamilyIsClosed(accounts: Accounts, root: string)
    requires Forest(accounts) && root in accounts && accounts[root].accountID == root
    ensures forall id :: id in accounts && id !in Family(accounts, root) ==> accounts[id].accountID !in Family(accounts, root)
  {
    forall id | id in accounts && id !in Family(accounts, root) ensures accounts[id].accountID !in Family(accounts, root) {
      assert Placed(accounts, id);
    }
  }

  // --- the store under each kind of change ---

  /** One device is new, or takes another pool of keys, or becomes verified; it may be
      issued tokens. */
  ghost predicate Puts(w: World, w': World, a: Account) {
    && (a.userID !in w.used
        || (a.userID in w.s.accounts && a.accountID == w.s.accounts[a.userID].accountID
            && (w.s.accounts[a.userID].verified ==> a.verified)))
    && w'.s.accounts == w'.disk == w.s.accounts[a.userID := a] && w'.used == w.used + {a.userID}
    && w'.resolved == w.resolved && w'.removedAt == w.removedAt && w.now <= w'.now
    && (w'.issued == w.issued || w'.issued == w.issued + [Issue(a.userID, w'.now)])
    && (forall t :: t in w'.s.links ==> t in w.s.links && w'.s.links[t] == w.s.links[t])
  }

  lemma PutStore(w: World, w': World, a: Account)
    requires StoreInv(w) && Puts(w, w', a) && Forest(w'.s.accounts)
    ensures StoreInv(w')
  {
    hide Forest, Placed;
    PutIssued(w, w', a);
    hide IssuedInv;
  }

  /** Nothing about devices, ids or issued tokens changes, and no link token appears. */
  ghost predicate Rests(w: World, w': World) {
    && w'.s.accounts == w.s.accounts && w'.disk == w.disk && w'.used == w.used
    && w'.resolved == w.resolved && w'.removedAt == w.removedAt && w.now <= w'.now && w'.issued == w.issued
    && (forall t :: t in w'.s.links ==> t in w.s.links && w'.s.links[t] == w.s.links[t])
  }

  lemma RestStore(w: World, w': World)
    requires StoreInv(w) && Rests(w, w')
    ensures StoreInv(w')
  {
    hide Forest;
  }

  lemma PutIssued(w: World, w': World, a: Account)
    requires IdsInv(w) && IssuedInv(w) && Puts(w, w', a)
    ensures IssuedInv(w')
  {}

  // --- the steps ---

  /** A step that leaves accounts, codes and keys alone. */
  lemma QuietKeeps(w: World, w': World)
    requires Inv(w) && StoreInv(w')
    requires w'.s.accounts == w.s.accounts && w'.s.pending == w.s.pending && w'.otps == w.otps && w'.used == w.used
    requires w'.served == w.served && w'.uploaded == w.uploaded
    ensures Inv(w')
  {
    hide StoreInv, DeviceInv;
    forall id ensures DeviceInv(w', id) {
      SameDevice(w, w', id);
    }
  }

  lemma SameDevice(w: World, w': World, id: string)
    requires DeviceInv(w, id)
    requires AlikeAt(w, w', id)
    ensures DeviceInv(w', id)
  {
    if id in w.otps {
      assert LogInv(w', id, w'.otps[id]);
    }
  }

  ghost predicate AlikeAt(w: World, w': World, id: string) {
    && (id in w.used ==> id in w'.used)
    && (id in w'.s.accounts <==> id in w.s.accounts) && (id in w.s.accounts ==> w'.s.accounts[id] == w.s.accounts[id])
    && (id in w'.s.pending <==> id in w.s.pending) && (id in w.s.pending ==> w'.s.pending[id] == w.s.pending[id])
    && (id in w'.otps <==> id in w.otps) && (id in w.otps ==> w'.otps[id] == w.otps[id])
    && (id in w'.served <==> id in w.served) && (id in w.served ==> w'.served[id] == w.served[id])
    && (id in w'.uploaded <==> id in w.uploaded) && (id in w.uploaded ==> w'.uploaded[id] == w.uploaded[id])
  }

  lemma LaterKeeps(w: World, now: int)
    requires Inv(w) && w.now <= now
    ensures Inv(w.(now := now))
  {
    hide Forest, DeviceInv;
    QuietKeeps(w, w.(now := now));
  }

  lemma RegisterKeeps(w: World, h: string, req: Request, uid: string, otp: string, now: int)
    requires Inv(w) && w.now <= now && uid !in w.used && uid != "" && h != ""
    ensures Inv(ApplyRegister(w, h, req, uid, otp, now))
  {
    RegisterStore(w, h, req, uid, otp, now);
    assert IdsInv(w);
    hide StoreInv, IdsInv, DeviceInv, ApplyRegister;
    forall id ensures DeviceInv(ApplyRegister(w, h, req, uid, otp, now), id) {
      RegisterDevice(w, h, req, uid, otp, now, id);
    }
  }

  lemma RegisterStore(w: World, h: string, req: Request, uid: string, otp: string, now: int)
    requires StoreInv(w) && w.now <= now && uid !in w.used && uid != "" && h != ""
    ensures StoreInv(ApplyRegister(w, h, req, uid, otp, now))
  {
    RegisterForest(w, h, req, uid, otp, now);
    RegisterPuts(w, h, req, uid, otp, now);
    hide ApplyRegister, Registered, Forest, Placed, Puts, Rests;
    if Registered(w.s, h, req, uid, otp, now).1 {
      PutStore(w, ApplyRegister(w, h, req, uid, otp, now),
               Account(uid, uid, h, req.deviceID, req.keys, req.oneTime, false));
    } else {
      RestStore(w, ApplyRegister(w, h, req, uid, otp, now));
    }
  }

  lemma RegisterPuts(w: World, h: string, req: Request, uid: string, otp: string, now: int)
    requires w.disk == w.s.accounts && w.now <= now && uid !in w.used
    ensures var w' := ApplyRegister(w, h, req, uid, otp, now);
            if Registered(w.s, h, req, uid, otp, now).1
            then Puts(w, w', Account(uid, uid, h, req.deviceID, req.keys, req.oneTime, false)) else Rests(w, w')
  {}

  lemma RegisterForest(w: World, h: string, req: Request, uid: string, otp: string, now: int)
    requires Forest(w.s.accounts) && uid !in w.s.accounts && uid != "" && h != ""
    ensures Forest(ApplyRegister(w, h, req, uid, otp, now).s.accounts)
  {
    hide Forest;
    if Registered(w.s, h, req, uid, otp, now).1 {
      NewPrimary(w.s.accounts, Account(uid, uid, h, req.deviceID, req.keys, req.oneTime, false));
    }
  }

  lemma RegisterDevice(w: World, h: string, req: Request, uid: string, otp: string, now: int, id: string)
    requires IdsInv(w) && DeviceInv(w, id) && uid !in w.used
    ensures DeviceInv(ApplyRegister(w, h, req, uid, otp, now), id)
  {
    RegisterAt(w, h, req, uid, otp, now, id);
    hide *;
    if id != uid || !Registered(w.s, h, req, uid, otp, now).1 {
      SameDevice(w, ApplyRegister(w, h, req, uid, otp, now), id);
    }
  }

  lemma RegisterAt(w: World, h: string, req: Request, uid: string, otp: string, now: int, id: string)
    ensures var w' := ApplyRegister(w, h, req, uid, otp, now);
            if id == uid && Registered(w.s, h, req, uid, otp, now).1 then DeviceInv(w', id) else AlikeAt(w, w', id)
  {}

  lemma VerifyKeeps(w: World, uid: string, code: string, now: int)
    requires Inv(w) && w.now <= now
    ensures Inv(ApplyVerify(w, uid, code, now))
  {
    VerifyStore(w, uid, code, now);
    hide StoreInv, DeviceInv, ApplyVerify;
    forall id ensures DeviceInv(ApplyVerify(w, uid, code, now), id) {
      VerifyDevice(w, uid, code, now, id);
    }
  }

  lemma VerifyStore(w: World, uid: string, code: string, now: int)
    requires StoreInv(w) && w.now <= now
    ensures StoreInv(ApplyVerify(w, uid, code, now))
  {
    VerifyForest(w, uid, code, now);
    VerifyPuts(w, uid, code, now);
    hide ApplyVerify, Verified, Forest, Placed, Puts, Rests;
    if Verified(w.s, uid, code, now).1 {
      PutStore(w, ApplyVerify(w, uid, code, now), w.s.accounts[uid].(verified := true));
    } else {
      RestStore(w, ApplyVerify(w, uid, code, now));
    }
  }

  lemma VerifyPuts(w: World, uid: string, code: string, now: int)
    requires Forest(w.s.accounts) && IdsInv(w) && w.now <= now
    ensures var w' := ApplyVerify(w, uid, code, now);
            if Verified(w.s, uid, code, now).1 then Puts(w, w', w.s.accounts[uid].(verified := true)) else Rests(w, w')
  {
    if uid in w.s.accounts {
      assert Placed(w.s.accounts, uid);
    }
    hide Forest, Placed, AfterCheck, Verified, CheckCode;
  }

  lemma VerifyForest(w: World, uid: string, code: string, now: int)
    requires Forest(w.s.accounts)
    ensures Forest(ApplyVerify(w, uid, code, now).s.accounts)
  {
    hide AfterCheck, Verified, CheckCode, Forest;
    if Verified(w.s, uid, code, now).1 {
      SamePlace(w.s.accounts, uid, w.s.accounts[uid].oneTime, true);
    }
  }

  lemma VerifyDevice(w: World, uid: string, code: string, now: int, id: string)
    requires DeviceInv(w, id) && DeviceInv(w, uid)
    ensures DeviceInv(ApplyVerify(w, uid, code, now), id)
  {
    var w' := ApplyVerify(w, uid, code, now);
    if id in w.otps {
      assert LogInv(w, id, w.otps[id]);
      assert LogInv(w', id, w'.otps[id]);
    }
  }

  lemma LinkKeeps(w: World, token: string, req: Request, uid: string, now: int)
    requires Inv(w) && w.now <= now && uid !in w.used && uid != ""
    ensures Inv(ApplyLink(w, token, req, uid, now))
  {
    LinkStore(w, token, req, uid, now);
    assert IdsInv(w);
    hide StoreInv, IdsInv, DeviceInv, ApplyLink;
    forall id ensures DeviceInv(ApplyLink(w, token, req, uid, now), id) {
      LinkDeviceKept(w, token, req, uid, now, id);
    }
  }

  /** A link attempt adds one verified device below a stored account, or no device at all. */
  lemma LinkEffect(w: World, token: string, req: Request, uid: string, now: int)
    requires IdsInv(w) && ResolvedInv(w.s.accounts, w.resolved)
    ensures var s' := Linked(w.s, token, req, uid, now).0;
            var r := Linked(w.s, token, req, uid, now).1;
            && s'.pending == w.s.pending && s'.lastRegister == w.s.lastRegister && s'.windows == w.s.windows
            && (forall t :: t in s'.links ==> t in w.s.links && s'.links[t] == w.s.links[t])
            && (!r.Some? ==> s'.accounts == w.s.accounts)
            && (r.Some? ==>
                 && r.value in w.resolved && r.value in w.s.accounts
                 && w.s.accounts[r.value].accountID == r.value && w.s.accounts[r.value].verified
                 && s'.accounts
                    == w.s.accounts[uid := Account(uid, r.value, "", NewDeviceID(req), req.keys, req.oneTime, true)])
  {}

  lemma LinkStore(w: World, token: string, req: Request, uid: string, now: int)
    requires StoreInv(w) && w.now <= now && uid !in w.used && uid != ""
    ensures StoreInv(ApplyLink(w, token, req, uid, now))
  {
    LinkForest(w, token, req, uid, now);
    LinkPuts(w, token, req, uid, now);
    hide ApplyLink, Linked, NewDeviceID, Forest, Placed, Puts, Rests;
    var r := Linked(w.s, token, req, uid, now).1;
    if r.Some? {
      PutStore(w, ApplyLink(w, token, req, uid, now),
               Account(uid, r.value, "", NewDeviceID(req), req.keys, req.oneTime, true));
    } else {
      RestStore(w, ApplyLink(w, token, req, uid, now));
    }
  }

  lemma LinkPuts(w: World, token: string, req: Request, uid: string, now: int)
    requires IdsInv(w) && ResolvedInv(w.s.accounts, w.resolved) && w.now <= now && uid !in w.used
    ensures var w' := ApplyLink(w, token, req, uid, now);
            var r := Linked(w.s, token, req, uid, now).1;
            if r.Some? then Puts(w, w', Account(uid, r.value, "", NewDeviceID(req), req.keys, req.oneTime, true))
            else Rests(w, w')
  {
    LinkEffect(w, token, req, uid, now);
    hide Linked, NewDeviceID, ResolvedInv;
  }

  lemma LinkForest(w: World, token: string, req: Request, uid: string, now: int)
    requires StoreInv(w) && uid !in w.used && uid != ""
    ensures Forest(ApplyLink(w, token, req, uid, now).s.accounts)
  {
    LinkEffect(w, token, req, uid, now);
    hide Linked, NewDeviceID, Forest;
    var r := Linked(w.s, token, req, uid, now).1;
    if r.Some? {
      NewLinked(w.s.accounts, Account(uid, r.value, "", NewDeviceID(req), req.keys, req.oneTime, true));
    }
  }

  lemma LinkDeviceKept(w: World, token: string, req: Request, uid: string, now: int, id: string)
    requires IdsInv(w) && DeviceInv(w, id) && uid !in w.used
    ensures DeviceInv(ApplyLink(w, token, req, uid, now), id)
  {
    if id == uid && Linked(w.s, token, req, uid, now).1.Some? {
      LinkNew(w, token, req, uid, now);
    } else {
      LinkOthers(w, token, req, uid, now, id);
      hide *;
      SameDevice(w, ApplyLink(w, token, req, uid, now), id);
    }
  }

  lemma LinkNew(w: World, token: string, req: Request, uid: string, now: int)
    requires IdsInv(w) && DeviceInv(w, uid) && uid !in w.used && Linked(w.s, token, req, uid, now).1.Some?
    ensures DeviceInv(ApplyLink(w, token, req, uid, now), uid)
  {}

  lemma LinkOthers(w: World, token: string, req: Request, uid: string, now: int, id: string)
    requires id != uid || !Linked(w.s, token, req, uid, now).1.Some?
    ensures AlikeAt(w, ApplyLink(w, token, req, uid, now), id)
  {}

  lemma RemovingKeeps(w: World, s: State, ids: set<string>, now: int)
    requires Inv(w) && w.now <= now && ids <= w.s.accounts.Keys
    requires forall id :: id in w.s.accounts && id !in ids ==> w.s.accounts[id].accountID !in ids
    requires s == w.s.(accounts := w.s.accounts - ids, pending := w.s.pending - ids, lastRegister := s.lastRegister)
    ensures Inv(Removing(w, s, ids, now))
  {
    RemovingStore(w, s, ids, now);
    hide StoreInv, DeviceInv, Removing;
    forall id ensures DeviceInv(Removing(w, s, ids, now), id) {
      RemovingDevice(w, s, ids, now, id);
    }
  }

  lemma RemovingStore(w: World, s: State, ids: set<string>, now: int)
    requires StoreInv(w) && w.now <= now && ids <= w.s.accounts.Keys
    requires forall id :: id in w.s.accounts && id !in ids ==> w.s.accounts[id].accountID !in ids
    requires s == w.s.(accounts := w.s.accounts - ids, pending := w.s.pending - ids, lastRegister := s.lastRegister)
    ensures StoreInv(Removing(w, s, ids, now))
  {
    Pruned(w.s.accounts, ids);
    RemovingIds(w, s, ids, now);
    hide Settled, Forest, Placed, IdsInv;
  }

  lemma RemovingIds(w: World, s: State, ids: set<string>, now: int)
    requires IdsInv(w) && IssuedInv(w) && w.now <= now && ids <= w.s.accounts.Keys
    requires s.accounts == w.s.accounts - ids && s.links == w.s.links
    ensures IdsInv(Removing(w, s, ids, now)) && IssuedInv(Removing(w, s, ids, now))
  {
    hide Settled;
  }

  lemma RemovingDevice(w: World, s: State, ids: set<string>, now: int, id: string)
    requires DeviceInv(w, id)
    requires s == w.s.(accounts := w.s.accounts - ids, pending := w.s.pending - ids, lastRegister := s.lastRegister)
    ensures DeviceInv(Removing(w, s, ids, now), id)
  {}

  lemma RemoveKeeps(w: World, caller: string, target: string, now: int)
    requires Inv(w) && w.now <= now
    ensures Inv(ApplyRemove(w, caller, target, now))
  {
    if Removable(w.s, caller, target) {
      LinkedIsLeaf(w.s.accounts, target);
      hide Inv, Removing;
      RemovingKeeps(w, Removed(w.s, caller, target).0, {target}, now);
    } else {
      hide Inv;
      LaterKeeps(w, now);
    }
  }

  lemma DeleteKeeps(w: World, uid: string, now: int)
    requires Inv(w) && w.now <= now
    ensures Inv(ApplyDelete(w, uid, now))
  {
    if uid in w.s.accounts {
      assert Placed(w.s.accounts, uid);
      FamilyIsClosed(w.s.accounts, w.s.accounts[uid].accountID);
      hide Inv, Removing;
      RemovingKeeps(w, Deleted(w.s, uid).0, Family(w.s.accounts, w.s.accounts[uid].accountID), now);
    } else {
      hide Inv;
      LaterKeeps(w, now);
    }
  }

  lemma FetchKeeps(w: World, uid: string)
    requires Inv(w)
    ensures Inv(ApplyFetch(w, uid))
  {
    FetchStore(w, uid);
    hide StoreInv, DeviceInv, ApplyFetch;
    forall id ensures DeviceInv(ApplyFetch(w, uid), id) {
      FetchDevice(w, uid, id);
    }
  }

  lemma FetchStore(w: World, uid: string)
    requires StoreInv(w)
    ensures StoreInv(ApplyFetch(w, uid))
  {
    FetchForest(w, uid);
    FetchPuts(w, uid);
    hide ApplyFetch, Forest, Placed, Puts, Rests;
    if HasPool(w.s, uid) {
      PutStore(w, ApplyFetch(w, uid), w.s.accounts[uid].(oneTime := w.s.accounts[uid].oneTime[1..]));
    } else {
      RestStore(w, ApplyFetch(w, uid));
    }
  }

  predicate HasPool(s: State, uid: string) { IsVerified(s, uid) && s.accounts[uid].oneTime != [] }

  /** What a fetch comes to: the first one-time key moves from the pool to the log. */
  lemma FetchIs(w: World, uid: string)
    ensures if HasPool(w.s, uid)
            then var a := w.s.accounts[uid];
                 var accounts := w.s.accounts[uid := a.(oneTime := a.oneTime[1..])];
                 ApplyFetch(w, uid) == w.(s := w.s.(accounts := accounts), disk := accounts,
                   served := w.served[uid := (if uid in w.served then w.served[uid] else []) + [a.oneTime[0]]])
            else ApplyFetch(w, uid) == w
  {}

  lemma FetchPuts(w: World, uid: string)
    requires Forest(w.s.accounts) && IdsInv(w)
    ensures var w' := ApplyFetch(w, uid);
            if HasPool(w.s, uid)
            then Puts(w, w', w.s.accounts[uid].(oneTime := w.s.accounts[uid].oneTime[1..])) else Rests(w, w')
  {
    FetchIs(w, uid);
    if HasPool(w.s, uid) {
      assert Placed(w.s.accounts, uid) && uid in w.used;
    }
    hide ApplyFetch, Forest, Placed, IdsInv;
  }

  lemma FetchForest(w: World, uid: string)
    requires Forest(w.s.accounts)
    ensures Forest(ApplyFetch(w, uid).s.accounts)
  {
    FetchIs(w, uid);
    hide ApplyFetch, Forest;
    if HasPool(w.s, uid) {
      SamePlace(w.s.accounts, uid, w.s.accounts[uid].oneTime[1..], true);
    }
  }

  lemma FetchDevice(w: World, uid: string, id: string)
    requires DeviceInv(w, id)
    ensures DeviceInv(ApplyFetch(w, uid), id)
  {
    if id == uid && HasPool(w.s, uid) {
      FetchSelf(w, uid);
    } else {
      FetchOthers(w, uid, id);
      hide *;
      SameDevice(w, ApplyFetch(w, uid), id);
    }
  }

  lemma FetchSelf(w: World, uid: string)
    requires DeviceInv(w, uid) && HasPool(w.s, uid)
    ensures DeviceInv(ApplyFetch(w, uid), uid)
  {
    FetchPool(w, uid);
    FetchIs(w, uid);
    hide ApplyFetch, PoolInv;
  }

  lemma FetchPool(w: World, uid: string)
    requires PoolInv(w, uid) && HasPool(w.s, uid)
    ensures PoolInv(ApplyFetch(w, uid), uid)
  {
    FetchIs(w, uid);
    hide ApplyFetch;
  }

  lemma FetchOthers(w: World, uid: string, id: string)
    requires id != uid || !HasPool(w.s, uid)
    ensures AlikeAt(w, ApplyFetch(w, uid), id)
  {
    FetchIs(w, uid);
    hide ApplyFetch, HasPool;
  }

  lemma UploadKeeps(w: World, uid: string, keys: seq<PreKey>)
    requires Inv(w)
    ensures Inv(ApplyUpload(w, uid, keys))
  {
    UploadStore(w, uid, keys);
    hide StoreInv, DeviceInv, ApplyUpload;
    forall id ensures DeviceInv(ApplyUpload(w, uid, keys), id) {
      UploadDevice(w, uid, keys, id);
    }
  }

  lemma UploadStore(w: World, uid: string, keys: seq<PreKey>)
    requires StoreInv(w)
    ensures StoreInv(ApplyUpload(w, uid, keys))
  {
    UploadForest(w, uid, keys);
    UploadPuts(w, uid, keys);
    hide ApplyUpload, Forest, Placed, Puts, Rests;
    if uid in w.s.accounts {
      PutStore(w, ApplyUpload(w, uid, keys), w.s.accounts[uid].(oneTime := w.s.accounts[uid].oneTime + keys));
    } else {
      RestStore(w, ApplyUpload(w, uid, keys));
    }
  }

  lemma UploadPuts(w: World, uid: string, keys: seq<PreKey>)
    requires Forest(w.s.accounts) && IdsInv(w)
    ensures var w' := ApplyUpload(w, uid, keys);
            if uid in w.s.accounts
            then Puts(w, w', w.s.accounts[uid].(oneTime := w.s.accounts[uid].oneTime + keys)) else Rests(w, w')
  {
    if uid in w.s.accounts {
      assert Placed(w.s.accounts, uid) && uid in w.used;
    }
    hide Forest, Placed;
  }

  lemma UploadForest(w: World, uid: string, keys: seq<PreKey>)
    requires Forest(w.s.accounts)
    ensures Forest(ApplyUpload(w, uid, keys).s.accounts)
  {
    hide Forest;
    if uid in w.s.accounts {
      SamePlace(w.s.accounts, uid, w.s.accounts[uid].oneTime + keys, w.s.accounts[uid].verified);
    }
  }

  lemma UploadDevice(w: World, uid: string, keys: seq<PreKey>, id: string)
    requires DeviceInv(w, id)
    ensures DeviceInv(ApplyUpload(w, uid, keys), id)
  {}

  lemma RefreshKeeps(w: World, uid: string, now: int)
    requires Inv(w) && w.now <= now
    ensures Inv(ApplyRefresh(w, uid, now))
  {
    hide Forest, DeviceInv;
    QuietKeeps(w, ApplyRefresh(w, uid, now));
  }

  lemma ResolveKeeps(w: World, uid: string)
    requires Inv(w)
    ensures Inv(ApplyResolve(w, uid))
  {
    if IsVerified(w.s, uid) {
      assert Placed(w.s.accounts, uid);
    }
    hide Forest, DeviceInv;
    QuietKeeps(w, ApplyResolve(w, uid));
  }

  lemma CreateKeeps(w: World, token: string, accountID: string, now: int)
    requires Inv(w) && w.now <= now && accountID in w.resolved
    ensures Inv(ApplyCreate(w, token, accountID, now))
  {
    hide Forest, DeviceInv;
    QuietKeeps(w, ApplyCreate(w, token, accountID, now));
  }

  lemma ChargeLeavesDevices(w: World, uid: string, n: nat, now: int)
    requires Inv(w) && w.now <= now
    ensures Inv(ApplyCharge(w, uid, n, now))
  {
    hide Forest, DeviceInv;
    QuietKeeps(w, ApplyCharge(w, uid, n, now));
  }

  lemma ForestIsWellKeyed(accounts: Accounts)
    requires Forest(accounts)
    ensures WellKeyed(accounts)
  {
    forall id | id in accounts ensures accounts[id].userID == id && accounts[id].accountID != "" {
      assert Placed(accounts, id) && Placed(accounts, accounts[id].accountID);
    }
  }

  /** What a restart comes to: only the accounts survive. */
  function Restarted(w: World, now: int): World {
    w.(s := EMPTY.(accounts := w.s.accounts), now := now, otps := Settled(w.otps, w.otps.Keys, Lost), spent := [])
  }

  lemma RestartIs(w: World, file: seq<Account>, now: int)
    requires StoreInv(w) && Lists(file, w.disk)
    ensures ApplyRestart(w, file, now) == Restarted(w, now)
  {
    ForestIsWellKeyed(w.disk);
    LoadAfterPersist(file, w.disk);
    hide Forest, Loaded, Lists, WellKeyed;
  }

  lemma RestartKeeps(w: World, file: seq<Account>, now: int)
    requires Inv(w) && w.now <= now && Lists(file, w.disk)
    ensures Inv(ApplyRestart(w, file, now))
  {
    RestartIs(w, file, now);
    hide Forest, DeviceInv, Loaded, Lists, Settled, ApplyRestart;
    assert StoreInv(Restarted(w, now));
    hide StoreInv, Restarted;
    forall id ensures DeviceInv(Restarted(w, now), id) {
      RestartDevice(w, now, id);
    }
  }

  lemma RestartDevice(w: World, now: int, id: string)
    requires DeviceInv(w, id)
    ensures DeviceInv(Restarted(w, now), id)
  {
    var w' := Restarted(w, now);
    if id in w.otps {
      assert LogInv(w, id, w.otps[id]);
      assert LogInv(w', id, w'.otps[id]);
    }
  }

  lemma StepKeeps(w: World, e: Event)
    requires Inv(w) && Enabled(w, e)
    ensures Inv(Apply(w, e))
  {
    hide Inv, Lists;
    hide ApplyRegister, ApplyVerify, ApplyRefresh, ApplyResolve, ApplyCreate, ApplyLink;
    hide ApplyRemove, ApplyDelete, ApplyFetch, ApplyUpload, ApplyCharge, ApplyRestart;
    match e
    case Register(h, req, uid, otp, now) => RegisterKeeps(w, h, req, uid, otp, now);
    case Verify(uid, code, now) => VerifyKeeps(w, uid, code, now);
    case Refresh(uid, now) => RefreshKeeps(w, uid, now);
    case Resolve(uid) => ResolveKeeps(w, uid);
    case CreateLink(token, accountID, now) => CreateKeeps(w, token, accountID, now);
    case LinkDevice(token, req, uid, now) => LinkKeeps(w, token, req, uid, now);
    case Remove(caller, target, now) => RemoveKeeps(w, caller, target, now);
    case Delete(uid, now) => DeleteKeeps(w, uid, now);
    case Fetch(uid) => FetchKeeps(w, uid);
    case Upload(uid, keys) => UploadKeeps(w, uid, keys);
    case Charge(uid, n, now) => ChargeLeavesDevices(w, uid, n, now);
    case Restart(file, now) => RestartKeeps(w, file, now);
  }

  lemma ClockIs(w: World, e: Event)
    ensures Apply(w, e).now == TimeOf(w, e)
  {
    hide Registered, Verified, Linked, Fetched, Uploaded, Deleted, Removed;
    hide CheckCode, AfterCheck, Settled, Family, Removable, CurrentWindow, Loaded;
  }

  // --- runs ---

  lemma InitInv(now: int)
    ensures Inv(Init(now))
  {}

  ghost predicate Run(w: World, events: seq<Event>, w': World)
    decreases |events|
  {
    if events == [] then w == w' else Enabled(w, events[0]) && Run(Apply(w, events[0]), events[1..], w')
  }

  lemma {:induction false} RunKeeps(w: World, events: seq<Event>, w': World)
    requires Inv(w) && Run(w, events, w')
    ensures Inv(w')
    decreases |events|
  {
    hide Inv, Enabled, Apply;
    if events != [] {
      StepKeeps(w, events[0]);
      RunKeeps(Apply(w, events[0]), events[1..], w');
    }
  }

  ghost predicate Reachable(w: World) {
    exists now, events :: Run(Init(now), events, w)
  }

  lemma InitReachable(now: int)
    ensures Reachable(Init(now))
  {
    assert Run(Init(now), [], Init(now));
  }

  lemma ReachableInv(w: World)
    requires Reachable(w)
    ensures Inv(w)
  {
    hide Run, Inv;
    var now, events :| Run(Init(now), events, w);
    InitInv(now);
    RunKeeps(Init(now), events, w);
  }

  lemma {:induction false} RunAppend(w: World, events: seq<Event>, v: World, e: Event)
    requires Run(w, events, v) && Enabled(v, e)
    ensures Run(w, events + [e], Apply(v, e))
    decreases |events|
  {
    hide Enabled, Apply;
    if events == [] {
      assert Run(Apply(v, e), [], Apply(v, e));
      assert [e][1..] == [] && [] + [e] == [e];
    } else {
      RunAppend(Apply(w, events[0]), events[1..], v, e);
      assert (events + [e])[1..] == events[1..] + [e];
    }
  }

  lemma StepReachable(w: World, e: Event)
    requires Reachable(w) && Enabled(w, e)
    ensures Reachable(Apply(w, e))
  {
    hide Run, Enabled, Apply;
    var now, events :| Run(Init(now), events, w);
    RunAppend(Init(now), events, w, e);
  }
}
