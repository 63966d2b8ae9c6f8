/** What the store knows about its devices over whole runs: each is what it was registered or
    linked as, a code verifies exactly its own registration, and exactly the verified devices
    are found and have their keys handed out. The log kept beside a run is not part of the store. */
module Registrations {
  import opened Options
  import opened Token
  import opened DiscoveryState
  import opened DiscoveryRuns

  /** How a device came to the store: a registration and the code made for it, or a link. */
  datatype Entry = Made(phoneHash: string, req: Request, code: string, at: int) | LinkedTo(accountID: string, req: Request)

  /** Every device that ever was in the store, removed ones included. */
  type Log = map<string, Entry>

  function Noted(w: World, l: Log, e: Event): Log {
    match e
    case Register(h, req, uid, otp, now) =>
      if Registered(w.s, h, req, uid, otp, now).1 then l[uid := Made(h, req, otp, now)] else l
    case LinkDevice(token, req, uid, now) =>
      var r := Linked(w.s, token, req, uid, now).1;
      if r.Some? then l[uid := LinkedTo(r.value, req)] else l
    case _ => l
  }

  ghost predicate LoggedRun(w: World, l: Log, events: seq<Event>, w': World, l': Log)
    decreases |events|
  {
    if events == [] then w == w' && l == l'
    else Enabled(w, events[0]) && LoggedRun(Apply(w, events[0]), Noted(w, l, events[0]), events[1..], w', l')
  }

  ghost predicate Logged(w: World, l: Log) {
    exists now, events :: LoggedRun(Init(now), map[], events, w, l)
  }

  // --- what every step keeps ---

  /** The record of a device that came to the store this way. */
  ghost predicate StoredAs(a: Account, id: string, e: Entry) {
    && a.userID == id && a.keys == e.req.keys
    && match e
       case Made(h, req, _, _) => a.accountID == id && a.phoneHash == h && a.deviceID == req.deviceID
       case LinkedTo(accountID, req) =>
         a.accountID == accountID && a.phoneHash == "" && a.deviceID == (if req.deviceID == 0 then 1 else req.deviceID)
  }

  ghost predicate EntryInv(w: World, l: Log, id: string) {
    && (id in w.s.accounts ==> id in l && StoredAs(w.s.accounts[id], id, l[id]))
    && (id in l ==> id in w.used && (id in w.s.accounts || id in w.removedAt) && (l[id].Made? <==> id in w.otps))
    && (id in w.s.pending ==>
          && id in l && l[id].Made?
          && w.s.pending[id].code == l[id].code && w.s.pending[id].expiresAt == l[id].at + 10 * MINUTE)
  }

  ghost predicate EntriesInv(w: World, l: Log) {
    forall id :: EntryInv(w, l, id)
  }

  /** Nothing about this device is new: its record keeps all but keys in the pool and being
      verified, and its code, if still there, is the same. */
  ghost predicate OldAt(w: World, w': World, id: string) {
    && (id in w'.s.accounts ==>
          && id in w.s.accounts
          && w'.s.accounts[id]
             == w.s.accounts[id].(oneTime := w'.s.accounts[id].oneTime, verified := w'.s.accounts[id].verified))
    && (id in w.s.accounts || id in w.removedAt ==> id in w'.s.accounts || id in w'.removedAt)
    && (id in w'.s.pending ==>
          && id in w.s.pending
          && w'.s.pending[id].code == w.s.pending[id].code && w'.s.pending[id].expiresAt == w.s.pending[id].expiresAt)
    && (id in w.used ==> id in w'.used) && (id in w'.otps <==> id in w.otps)
  }

  lemma OldKeeps(w: World, w': World, l: Log, l': Log, id: string)
    requires EntryInv(w, l, id) && OldAt(w, w', id)
    requires (id in l' <==> id in l) && (id in l ==> l'[id] == l[id])
    ensures EntryInv(w', l', id)
  {}

  // --- the steps ---

  lemma RegisterAdds(w: World, l: Log, h: string, req: Request, uid: string, otp: string, now: int)
    requires Registered(w.s, h, req, uid, otp, now).1
    ensures EntryInv(ApplyRegister(w, h, req, uid, otp, now), l[uid := Made(h, req, otp, now)], uid)
  {}

  lemma RegisterOthers(w: World, h: string, req: Request, uid: string, otp: string, now: int, id: string)
    requires id != uid || !Registered(w.s, h, req, uid, otp, now).1
    ensures OldAt(w, ApplyRegister(w, h, req, uid, otp, now), id)
  {}

  lemma RegisterEntry(w: World, l: Log, h: string, req: Request, uid: string, otp: string, now: int, id: string)
    requires EntryInv(w, l, id)
    ensures EntryInv(ApplyRegister(w, h, req, uid, otp, now), Noted(w, l, Register(h, req, uid, otp, now)), id)
  {
    hide EntryInv, OldAt, Registered, ApplyRegister;
    if id == uid && Registered(w.s, h, req, uid, otp, now).1 {
      RegisterAdds(w, l, h, req, uid, otp, now);
    } else {
      RegisterOthers(w, h, req, uid, otp, now, id);
      OldKeeps(w, ApplyRegister(w, h, req, uid, otp, now), l, Noted(w, l, Register(h, req, uid, otp, now)), id);
    }
  }

  lemma LinkAdds(w: World, l: Log, token: string, req: Request, uid: string, now: int)
    requires Linked(w.s, token, req, uid, now).1.Some? && uid !in w.otps && uid !in w.s.pending
    ensures var accountID := Linked(w.s, token, req, uid, now).1.value;
            EntryInv(ApplyLink(w, token, req, uid, now), l[uid := LinkedTo(accountID, req)], uid)
  {}

  lemma LinkLeaves(w: World, token: string, req: Request, uid: string, now: int, id: string)
    requires id != uid || !Linked(w.s, token, req, uid, now).1.Some?
    ensures OldAt(w, ApplyLink(w, token, req, uid, now), id)
  {}

  lemma LinkEntry(w: World, l: Log, token: string, req: Request, uid: string, now: int, id: string)
    requires EntryInv(w, l, id) && uid !in w.otps && uid !in w.s.pending
    ensures EntryInv(ApplyLink(w, token, req, uid, now), Noted(w, l, LinkDevice(token, req, uid, now)), id)
  {
    hide EntryInv, OldAt, Linked, ApplyLink;
    if id == uid && Linked(w.s, token, req, uid, now).1.Some? {
      LinkAdds(w, l, token, req, uid, now);
    } else {
      LinkLeaves(w, token, req, uid, now, id);
      OldKeeps(w, ApplyLink(w, token, req, uid, now), l, Noted(w, l, LinkDevice(token, req, uid, now)), id);
    }
  }

  lemma VerifyOld(w: World, uid: string, code: string, now: int, id: string)
    ensures OldAt(w, ApplyVerify(w, uid, code, now), id)
  {
    hide AfterCheck;
  }

  lemma RemovingOld(w: World, s: State, ids: set<string>, now: int, id: string)
    requires s.accounts == w.s.accounts - ids && s.pending == w.s.pending - ids
    ensures OldAt(w, Removing(w, s, ids, now), id)
  {}

  lemma RemoveOld(w: World, e: Event, id: string)
    requires e.Remove? || e.Delete?
    ensures OldAt(w, Apply(w, e), id)
  {
    hide OldAt, Removing;
    if e.Remove? && Removable(w.s, e.caller, e.target) {
      RemovingOld(w, Removed(w.s, e.caller, e.target).0, {e.target}, e.now, id);
    } else if e.Delete? && e.uid in w.s.accounts {
      RemovingOld(w, Deleted(w.s, e.uid).0, Family(w.s.accounts, w.s.accounts[e.uid].accountID), e.now, id);
    } else {
      LaterOld(w, e.now, id);
    }
  }

  lemma LaterOld(w: World, now: int, id: string)
    ensures OldAt(w, w.(now := now), id)
  {}

  lemma FetchOld(w: World, uid: string, id: string)
    ensures OldAt(w, ApplyFetch(w, uid), id)
  {
    FetchIs(w, uid);
    hide ApplyFetch;
  }

  lemma UploadOld(w: World, uid: string, keys: seq<PreKey>, id: string)
    ensures OldAt(w, ApplyUpload(w, uid, keys), id)
  {}

  lemma QuietOld(w: World, e: Event, id: string)
    requires e.Refresh? || e.Resolve? || e.CreateLink? || e.Charge?
    ensures OldAt(w, Apply(w, e), id)
  {
    hide IsVerified, CurrentWindow;
  }

  lemma RestartOld(w: World, file: seq<Account>, now: int, id: string)
    requires StoreInv(w) && Lists(file, w.disk)
    ensures OldAt(w, ApplyRestart(w, file, now), id)
  {
    RestartIs(w, file, now);
    hide ApplyRestart, StoreInv, Lists;
  }

  lemma OldStep(w: World, e: Event, id: string)
    requires StoreInv(w) && Enabled(w, e) && !e.Register? && !e.LinkDevice?
    ensures OldAt(w, Apply(w, e), id)
  {
    hide OldAt, StoreInv, Lists;
    hide ApplyVerify, ApplyFetch, ApplyUpload, ApplyRestart;
    match e
    case Verify(uid, code, now) => VerifyOld(w, uid, code, now, id);
    case Fetch(uid) => FetchOld(w, uid, id);
    case Upload(uid, keys) => UploadOld(w, uid, keys, id);
    case Restart(file, now) => RestartOld(w, file, now, id);
    case Remove(_, _, _) => hide Apply; RemoveOld(w, e, id);
    case Delete(_, _) => hide Apply; RemoveOld(w, e, id);
    case _ => hide Apply; QuietOld(w, e, id);
  }

  lemma EntryStep(w: World, l: Log, e: Event, id: string)
    requires Inv(w) && EntryInv(w, l, id) && Enabled(w, e)
    ensures EntryInv(Apply(w, e), Noted(w, l, e), id)
  {
    hide EntryInv, StoreInv, DeviceInv, ApplyRegister, ApplyLink;
    match e
    case Register(h, req, uid, otp, now) =>
      hide Noted;
      RegisterEntry(w, l, h, req, uid, otp, now, id);
    case LinkDevice(token, req, uid, now) =>
      hide Noted;
      NewToAll(w, uid);
      LinkEntry(w, l, token, req, uid, now, id);
    case _ =>
      hide Apply, Inv, OldAt;
      assert StoreInv(w) by { hide Enabled; }
      OldStep(w, e, id);
      OldKeeps(w, Apply(w, e), l, l, id);
  }

  lemma NewToAll(w: World, uid: string)
    requires Inv(w) && uid !in w.used
    ensures uid !in w.otps && uid !in w.s.pending
  {
    assert DeviceInv(w, uid);
    hide PoolInv, StoreInv;
  }

  lemma {:induction false} EntriesInRun(w: World, l: Log, events: seq<Event>, w': World, l': Log)
    requires EntriesInv(w, l) && Inv(w) && LoggedRun(w, l, events, w', l')
    ensures EntriesInv(w', l') && Inv(w')
    decreases |events|
  {
    hide EntryInv, Inv, Enabled, Apply, Noted;
    if events != [] {
      forall id ensures EntryInv(Apply(w, events[0]), Noted(w, l, events[0]), id) {
        EntryStep(w, l, events[0], id);
      }
      StepKeeps(w, events[0]);
      EntriesInRun(Apply(w, events[0]), Noted(w, l, events[0]), events[1..], w', l');
    }
  }

  lemma LoggedInv(w: World, l: Log)
    requires Logged(w, l)
    ensures EntriesInv(w, l) && Inv(w)
  {
    var now, events :| LoggedRun(Init(now), map[], events, w, l);
    InitInv(now);
    assert EntriesInv(Init(now), map[]);
    hide EntriesInv, Inv, LoggedRun, Init;
    EntriesInRun(Init(now), map[], events, w, l);
  }

  /** Everything known about one device. */
  lemma KnownAbout(w: World, l: Log, id: string)
    requires Logged(w, l)
    ensures EntryInv(w, l, id) && DeviceInv(w, id) && IdsInv(w)
  {
    LoggedInv(w, l);
    hide Logged, EntryInv, DeviceInv, IdsInv, IssuedInv, ResolvedInv, Forest;
  }

  // --- codes ---

  /** The code made for a registration that has neither been settled nor lost. */
  ghost predicate IsOpen(w: World, l: Log, uid: string) {
    uid in w.otps && w.otps[uid].fate == Waiting && uid in l && l[uid].Made?
  }

  lemma PendingIsOpen(w: World, l: Log, uid: string)
    requires Logged(w, l)
    ensures uid in w.s.pending <==> IsOpen(w, l, uid)
    ensures uid in w.s.pending ==>
              && uid in w.s.accounts && w.s.pending[uid].code == l[uid].code
              && w.s.pending[uid].expiresAt == l[uid].at + 10 * MINUTE && w.s.pending[uid].attempts == w.otps[uid].wrong
  {
    KnownAbout(w, l, uid);
    hide Logged, IdsInv, PoolInv;
    if uid in w.otps {
      assert LogInv(w, uid, w.otps[uid]);
    }
  }

  /** A code verifies exactly the registration it was made for, within ten minutes, while it
      is neither used, burned, found expired nor gone with its account or in a restart. */
  lemma CodeExactly(w: World, l: Log, uid: string, code: string, now: int)
    requires Logged(w, l)
    ensures Verified(w.s, uid, code, now).1 <==> IsOpen(w, l, uid) && code == l[uid].code && now <= l[uid].at + 10 * MINUTE
  {
    PendingIsOpen(w, l, uid);
    hide Logged, IsOpen;
  }

  /** Trying a code verifies nothing but that one account. A wrong guess in time is counted
      and the fifth burns the code; after ten minutes the code is found expired. */
  lemma GuessExactly(w: World, l: Log, uid: string, code: string, now: int)
    requires Logged(w, l)
    ensures var w' := Apply(w, Verify(uid, code, now));
            var right, late := IsOpen(w, l, uid) && code == l[uid].code, IsOpen(w, l, uid) && now > l[uid].at + 10 * MINUTE;
            && (right ==> uid in w.s.accounts)
            && (w'.s.accounts == if right && !late then w.s.accounts[uid := w.s.accounts[uid].(verified := true)]
                                 else w.s.accounts)
            && (IsOpen(w, l, uid) ==>
                  w'.otps == w.otps[uid :=
                    if late then OtpLog(w.otps[uid].wrong, Expired)
                    else if right then OtpLog(w.otps[uid].wrong, Used)
                    else OtpLog(w.otps[uid].wrong + 1, if w.otps[uid].wrong + 1 >= 5 then Burned else Waiting)])
            && (!IsOpen(w, l, uid) ==> w'.otps == w.otps)
  {
    PendingIsOpen(w, l, uid);
    assert IsOpen(w, l, uid) ==> w.otps[uid].fate == Waiting;
    hide Logged, IsOpen;
    assert uid in w.otps ==> w.otps[uid := w.otps[uid]] == w.otps;
  }

  // --- what is stored, found and handed out ---

  /** Every stored device is what it was registered or linked as. */
  lemma StoredExactly(w: World, l: Log, id: string)
    requires Logged(w, l)
    ensures id in w.s.accounts <==> id in l && id !in w.removedAt
    ensures id in w.s.accounts ==> StoredAs(w.s.accounts[id], id, l[id])
  {
    KnownAbout(w, l, id);
    hide Logged, DeviceInv, StoredAs;
  }

  /** A device counts as verified exactly while it is stored and either was linked or its
      code was used. */
  lemma VerifiedExactly(w: World, l: Log, uid: string)
    requires Logged(w, l)
    ensures IsVerified(w.s, uid) <==>
              uid in l && uid !in w.removedAt && (l[uid].LinkedTo? || (uid in w.otps && w.otps[uid].fate == Used))
    ensures AccountIDFor(w.s, uid) == if !IsVerified(w.s, uid) then None
                                      else if l[uid].LinkedTo? then Some(l[uid].accountID) else Some(uid)
  {
    StoredExactly(w, l, uid);
    KnownAbout(w, l, uid);
    hide Logged, IdsInv, PoolInv;
    if uid in w.otps {
      assert LogInv(w, uid, w.otps[uid]);
    }
  }

  /** A bundle is handed out for every verified device and no other, with the keys and the
      device number it was registered with. */
  lemma BundleExactly(w: World, l: Log, uid: string)
    requires Logged(w, l)
    ensures var b := Fetched(w.s, uid).1;
            && (b.Some? <==> IsVerified(w.s, uid))
            && (b.Some? ==>
                 && uid in l && b.value.keys == l[uid].req.keys
                 && b.value.deviceID == if l[uid].LinkedTo? && l[uid].req.deviceID == 0 then 1 else l[uid].req.deviceID)
  {
    StoredExactly(w, l, uid);
    hide Logged;
  }

  /** Somebody registered this number, used the code, and has not been removed since. */
  ghost predicate Proved(w: World, l: Log, h: string, uid: string) {
    && uid in l && l[uid].Made? && l[uid].phoneHash == h
    && uid in w.otps && w.otps[uid].fate == Used && uid !in w.removedAt
  }

  lemma HoldsExactly(w: World, l: Log, h: string, uid: string)
    requires Logged(w, l) && h != ""
    ensures Holds(w.s.accounts, h, uid) <==> Proved(w, l, h, uid)
  {
    VerifiedExactly(w, l, uid);
    StoredExactly(w, l, uid);
    hide Logged;
  }

  /** A number is found exactly if there is such a device. */
  lemma FoundExactly(w: World, l: Log, h: string)
    requires Logged(w, l) && h != ""
    ensures Known(w.s.accounts, h) <==> exists uid :: Proved(w, l, h, uid)
  {
    hide Logged, Holds, Proved;
    forall uid ensures Holds(w.s.accounts, h, uid) <==> Proved(w, l, h, uid) {
      HoldsExactly(w, l, h, uid);
    }
  }
}
