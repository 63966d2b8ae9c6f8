/** What the discovery store guarantees in every reachable state and over every run. */
module DiscoveryGuarantees {
  import opened Options
  import opened Token
  import opened DiscoveryState
  import opened DiscoveryRuns

  // --- the device forest ---

  /** Every device hangs directly below a stored device that is its own account; if it is a
      linked device, both are verified. */
  lemma DeviceForest(w: World, id: string)
    requires Reachable(w) && id in w.s.accounts
    ensures Placed(w.s.accounts, id)
    ensures w.disk == w.s.accounts
  {
    ReachableInv(w);
  }

  /** Deleting an account removes its devices, all of them, and no others, and no device that
      stays refers to one that went. For a caller that is not stored nothing changes. */
  lemma DeletesExactlyTheAccount(w: World, uid: string, now: int, id: string)
    requires Reachable(w) && Enabled(w, Delete(uid, now))
    ensures Deleted(w.s, uid).1 <==> uid in w.s.accounts
    ensures uid !in w.s.accounts ==> Apply(w, Delete(uid, now)).s == w.s && Deleted(w.s, uid).0 == w.s
    ensures var w' := Apply(w, Delete(uid, now));
            uid in w.s.accounts ==>
              && (id in w'.s.accounts <==> id in w.s.accounts && w.s.accounts[id].accountID != w.s.accounts[uid].accountID)
              && (id in w'.s.accounts ==>
                   w'.s.accounts[id] == w.s.accounts[id] && w'.s.accounts[id].accountID in w'.s.accounts)
              && (id in w.s.accounts && id !in w'.s.accounts ==> id in w'.removedAt && w'.removedAt[id] == now)
  {
    StepKeepsPlaced(w, Delete(uid, now), id);
    hide Reachable, PhoneHashes, Settled;
  }

  /** Some device other than the primary of this account is verified for this number. */
  ghost predicate KnownElsewhere(accounts: Accounts, h: string, root: string) {
    exists other :: Holds(accounts, h, other) && other != root
  }

  /** After an account is deleted its number is free to register at once, but it resolves to
      nobody exactly if no other account was verified for it too. */
  lemma DeletedNumber(w: World, uid: string, now: int)
    requires Reachable(w) && uid in w.s.accounts && Enabled(w, Delete(uid, now))
    ensures var w' := Apply(w, Delete(uid, now));
            var root := w.s.accounts[uid].accountID;
            && root in w.s.accounts && root !in w'.s.accounts
            && w.s.accounts[root].phoneHash !in w'.s.lastRegister
            && (Known(w'.s.accounts, w.s.accounts[root].phoneHash)
                <==> KnownElsewhere(w.s.accounts, w.s.accounts[root].phoneHash, root))
  {
    ReachableInv(w);
    var root := w.s.accounts[uid].accountID;
    var h := w.s.accounts[root].phoneHash;
    assert Placed(w.s.accounts, uid);
    assert root in Family(w.s.accounts, root);
    OthersKnown(w.s.accounts, h, root);
    hide Reachable, Inv, Placed, Known, KnownElsewhere, Settled;
    assert h in PhoneHashes(w.s.accounts, Family(w.s.accounts, root));
  }

  lemma OthersKnown(accounts: Accounts, h: string, root: string)
    requires Forest(accounts) && root in accounts && accounts[root].accountID == root && accounts[root].phoneHash == h
    ensures Known(accounts - Family(accounts, root), h) <==> KnownElsewhere(accounts, h, root)
  {
    var left := accounts - Family(accounts, root);
    forall other | Holds(accounts, h, other) && other != root ensures Holds(left, h, other) {
      assert Placed(accounts, other) && Placed(accounts, root);
    }
    hide Forest;
    forall other | Holds(left, h, other) ensures Holds(accounts, h, other) && other != root {}
  }

  /** A registration and its verification, both at one moment. */
  function Joined(w: World, h: string, req: Request, uid: string, code: string, now: int): World {
    ApplyVerify(ApplyRegister(w, h, req, uid, code, now), uid, code, now)
  }

  lemma JoinedReachable(w: World, h: string, req: Request, uid: string, code: string, now: int)
    requires Reachable(w) && w.now <= now && uid !in w.used && uid != "" && h != ""
    ensures Reachable(Joined(w, h, req, uid, code, now))
  {
    var e, f := Register(h, req, uid, code, now), Verify(uid, code, now);
    var v := ApplyRegister(w, h, req, uid, code, now);
    assert v.now == now by { hide Registered, Reachable; }
    hide Reachable, ApplyRegister, ApplyVerify, Lists;
    StepReachable(w, e);
    StepReachable(v, f);
  }

  lemma JoinedHolds(w: World, h: string, req: Request, uid: string, code: string, now: int)
    requires h !in w.s.lastRegister || now - w.s.lastRegister[h] >= REGISTER_COOLDOWN
    ensures var w' := Joined(w, h, req, uid, code, now);
            && w'.now == now && w'.used == w.used + {uid} && w'.s.lastRegister == w.s.lastRegister[h := now]
            && w'.s.accounts == w.s.accounts[uid := Account(uid, uid, h, req.deviceID, req.keys, req.oneTime, true)]
  {}

  /** Two accounts verified for one number, half a minute apart. */
  lemma SharedNumber(h: string, req: Request, a: string, b: string, code: string, t: int) returns (w: World)
    requires h != "" && a != "" && b != "" && a != b
    ensures Reachable(w) && Holds(w.s.accounts, h, a) && Holds(w.s.accounts, h, b) && w.s.accounts[a].accountID == a
  {
    var u := Init(t);
    InitReachable(t);
    hide Reachable, Joined;
    JoinedReachable(u, h, req, a, code, t);
    JoinedHolds(u, h, req, a, code, t);
    var v := Joined(u, h, req, a, code, t);
    JoinedReachable(v, h, req, b, code, t + REGISTER_COOLDOWN);
    JoinedHolds(v, h, req, b, code, t + REGISTER_COOLDOWN);
    w := Joined(v, h, req, b, code, t + REGISTER_COOLDOWN);
  }

  /** Registering does not ask whether a number has an account already. So a number can
      resolve to somebody after the account verified for it first was deleted. */
  lemma DeletedNumberResolves(h: string, req: Request, a: string, b: string, code: string, t: int) returns (w: World)
    requires h != "" && a != "" && b != "" && a != b
    ensures Reachable(w) && Holds(w.s.accounts, h, a) && Known(Apply(w, Delete(a, w.now)).s.accounts, h)
  {
    w := SharedNumber(h, req, a, b, code, t);
    hide Reachable, Apply, Known;
    DeletedNumber(w, a, w.now);
  }

  /** Revoking works exactly for a linked device on the caller's own account. It removes that
      one device and no other; any other attempt changes nothing. */
  lemma RemovesExactlyTheDevice(w: World, caller: string, target: string, now: int, id: string)
    requires Reachable(w) && Enabled(w, Remove(caller, target, now))
    ensures var w' := Apply(w, Remove(caller, target, now));
            var mayRevoke := caller in w.s.accounts && target in w.s.accounts
              && w.s.accounts[caller].accountID == w.s.accounts[target].accountID && w.s.accounts[target].accountID != target;
            && (w'.s.accounts != w.s.accounts <==> mayRevoke)
            && (Removed(w.s, caller, target).1 <==> mayRevoke)
            && (mayRevoke ==> w'.s.accounts == w.s.accounts - {target} && w'.removedAt == w.removedAt[target := now])
            && (!mayRevoke ==> w'.s == w.s && w'.removedAt == w.removedAt)
            && (id in w'.s.accounts ==> w'.s.accounts[id].accountID in w'.s.accounts)
  {
    StepKeepsPlaced(w, Remove(caller, target, now), id);
    RemovalIs(w, caller, target, now);
    hide Reachable, Inv, Placed, ApplyRemove, Removed, Removable;
  }

  lemma RemovalIs(w: World, caller: string, target: string, now: int)
    ensures var w' := ApplyRemove(w, caller, target, now);
            var mayRevoke := caller in w.s.accounts && target in w.s.accounts
              && w.s.accounts[caller].accountID == w.s.accounts[target].accountID && w.s.accounts[target].accountID != target;
            && (Removed(w.s, caller, target).1 <==> mayRevoke)
            && (mayRevoke ==> w'.s.accounts == w.s.accounts - {target} && w'.removedAt == w.removedAt[target := now])
            && (!mayRevoke ==> w'.s == w.s && w'.removedAt == w.removedAt)
            && (mayRevoke ==> w'.s.accounts != w.s.accounts)
  {
    if Removable(w.s, caller, target) {
      RemovingOne(w, Removed(w.s, caller, target).0, target, now);
      assert target !in w.s.accounts - {target};
      hide Removing;
    }
  }

  lemma RemovingOne(w: World, s: State, target: string, now: int)
    ensures var w' := Removing(w, s, {target}, now);
            w'.s == s && w'.removedAt == w.removedAt[target := now]
  {
    hide Settled;
  }

  lemma StepKeepsPlaced(w: World, e: Event, id: string)
    requires Reachable(w) && Enabled(w, e)
    ensures id in Apply(w, e).s.accounts ==> Apply(w, e).s.accounts[id].accountID in Apply(w, e).s.accounts
  {
    ReachableInv(w);
    StepKeeps(w, e);
    hide Reachable, Apply, Enabled, OtpInv, PoolInv, IdsInv, IssuedInv, ResolvedInv;
    assert id in Apply(w, e).s.accounts ==> Placed(Apply(w, e).s.accounts, id);
  }

  /** A link token for an account that is gone attaches nothing, in this state and in every
      later one. */
  lemma DeadLink(w: World, events: seq<Event>, w': World, accountID: string, token: string, req: Request, uid: string, now: int)
    requires Reachable(w) && Run(w, events, w') && accountID in w.removedAt
    requires token in w'.s.links && w'.s.links[token].accountID == accountID
    ensures Linked(w'.s, token, req, uid, now).1 == None
  {
    ReachableInv(w);
    RunKeeps(w, events, w');
    hide Reachable;
    RemovedStays(w, events, w', accountID);
  }

  /** A contact match for a real number is always a primary device. */
  lemma MatchesArePrimary(w: World, h: string, uid: string)
    requires Reachable(w) && Holds(w.s.accounts, h, uid) && h != ""
    ensures w.s.accounts[uid].accountID == uid == w.s.accounts[uid].userID
  {
    ReachableInv(w);
    assert Placed(w.s.accounts, uid);
  }

  // --- revocation ---

  /** The steps that neither issue tokens nor remove a device. */
  lemma IssuesNothing(w: World, e: Event)
    requires !e.Verify? && !e.Refresh? && !e.LinkDevice? && !e.Remove? && !e.Delete?
    ensures Apply(w, e).issued == w.issued && Apply(w, e).removedAt == w.removedAt
  {
    hide Registered, AccountIDFor, LinkCreated, Fetched, Uploaded, Charged, Loaded, Settled;
  }

  /** A device that is issued tokens is stored, or new. */
  lemma IssuesToStored(w: World, e: Event)
    requires Enabled(w, e) && (e.Verify? || e.Refresh? || e.LinkDevice?)
    ensures Apply(w, e).removedAt == w.removedAt
    ensures Apply(w, e).issued == w.issued
         || (Apply(w, e).issued == w.issued + [Issue(e.uid, e.now)] && (e.uid in w.s.accounts || e.uid !in w.used))
  {
    hide Linked, AfterCheck, CheckCode, Verified;
  }

  lemma RemovesStored(w: World, e: Event)
    requires e.Remove? || e.Delete?
    ensures Apply(w, e).issued == w.issued
    ensures forall id :: id in w.removedAt && id !in w.s.accounts ==>
              id in Apply(w, e).removedAt && Apply(w, e).removedAt[id] == w.removedAt[id]
  {
    hide Settled, Deleted, Removed;
  }

  lemma RemovedStaysStep(w: World, e: Event, uid: string)
    requires Inv(w) && Enabled(w, e) && uid in w.removedAt
    ensures var w' := Apply(w, e);
            && uid in w'.removedAt && w'.removedAt[uid] == w.removedAt[uid]
            && |w.issued| <= |w'.issued| && w'.issued[..|w.issued|] == w.issued
            && forall i :: |w.issued| <= i < |w'.issued| ==> w'.issued[i].uid != uid
  {
    assert uid !in w.s.accounts && uid in w.used;
    hide Apply, Enabled, Inv;
    if e.Verify? || e.Refresh? || e.LinkDevice? {
      IssuesToStored(w, e);
    } else if e.Remove? || e.Delete? {
      RemovesStored(w, e);
    } else {
      IssuesNothing(w, e);
    }
  }

  /** Once a device is removed no later step, restarts included, issues any token for it. */
  lemma {:induction false} RemovedStays(w: World, events: seq<Event>, w': World, uid: string)
    requires Inv(w) && Run(w, events, w') && uid in w.removedAt
    ensures uid in w'.removedAt && w'.removedAt[uid] == w.removedAt[uid]
    ensures |w.issued| <= |w'.issued| && w'.issued[..|w.issued|] == w.issued
    ensures forall i :: |w.issued| <= i < |w'.issued| ==> w'.issued[i].uid != uid
    decreases |events|
  {
    hide Inv, Enabled, Apply;
    if events != [] {
      var v := Apply(w, events[0]);
      RemovedStaysStep(w, events[0], uid);
      StepKeeps(w, events[0]);
      RemovedStays(v, events[1..], w', uid);
      assert w'.issued[..|w.issued|] == w'.issued[..|v.issued|][..|w.issued|];
      forall i | |w.issued| <= i < |w'.issued| ensures w'.issued[i].uid != uid {
        assert i < |v.issued| ==> w'.issued[..|v.issued|][i] == v.issued[i];
      }
    }
  }

  /** From 15 minutes after its removal on, no access token ever issued for a device
      verifies, no refresh token ever issued for it passes for one, and whoever holds such a
      token, no stored verified device is left that it could buy a new one for. */
  lemma RevokedTokensDie(x: Crypto, secret: string, w: World, uid: string, i: nat, t: int)
    requires x.Valid() && Reachable(w) && uid in w.removedAt && i < |w.issued| && w.issued[i].uid == uid
    requires t >= w.removedAt[uid] + 15 * MINUTE
    ensures var (access, refresh) := Tokens(x, secret, uid, w.issued[i].at);
            VerifyAccess(x, secret, access, t) == None && VerifyAccess(x, secret, refresh, t) == None
    ensures !(uid in w.s.accounts && w.s.accounts[uid].verified)
  {
    ReachableInv(w);
    var at := w.issued[i].at;
    assert at <= w.removedAt[uid] && uid !in w.s.accounts;
    hide Reachable, Inv, Unix, Tokens, VerifyAccess, Crypto.Valid;
    TokensExactly(x, secret, uid, at, t);
    Truncation(at, 15 * MINUTE, t);
  }

  // --- one-time codes ---

  /** At most five wrong guesses are ever compared with a code, and a code that five have
      been compared with is burned: its account is never verified. */
  lemma FiveGuesses(w: World, uid: string)
    requires Reachable(w) && uid in w.otps
    ensures w.otps[uid].wrong <= 5
    ensures w.otps[uid].wrong == 5 <==> w.otps[uid].fate == Burned
    ensures w.otps[uid].fate != Used ==> !IsVerified(w.s, uid)
  {
    ReachableInv(w);
    assert DeviceInv(w, uid) && LogInv(w, uid, w.otps[uid]);
  }

  /** The steps that leave every code as it is. */
  lemma CodesSame(w: World, e: Event)
    requires !e.Register? && !e.Verify? && !e.Remove? && !e.Delete? && !e.Restart?
    ensures Apply(w, e).otps == w.otps
  {
    hide AccountIDFor, LinkCreated, Linked, Fetched, Uploaded, Charged;
  }

  /** The steps that end codes end only those still waiting. */
  lemma CodesSettled(w: World, e: Event, uid: string)
    requires (e.Remove? || e.Delete? || e.Restart?) && uid in w.otps && w.otps[uid].fate != Waiting
    ensures uid in Apply(w, e).otps && Apply(w, e).otps[uid] == w.otps[uid]
  {
    hide Deleted, Removed, Loaded;
  }

  lemma CodesAdded(w: World, e: Event, uid: string)
    requires e.Register? && Enabled(w, e) && uid in w.otps && uid in w.used
    ensures uid in Apply(w, e).otps && Apply(w, e).otps[uid] == w.otps[uid]
  {
    hide Registered;
  }

  /** Without a pending code a check changes nothing. */
  lemma CodesChecked(w: World, e: Event, uid: string)
    requires e.Verify? && uid in w.otps && uid !in w.s.pending
    ensures uid in Apply(w, e).otps && Apply(w, e).otps[uid] == w.otps[uid]
  {
    hide Verified;
  }

  lemma FateIsFinalStep(w: World, e: Event, uid: string)
    requires Inv(w) && Enabled(w, e) && uid in w.otps && w.otps[uid].fate != Waiting
    ensures uid in Apply(w, e).otps && Apply(w, e).otps[uid] == w.otps[uid]
  {
    assert DeviceInv(w, uid) && LogInv(w, uid, w.otps[uid]);
    hide Apply, Enabled, Inv;
    if e.Register? {
      CodesAdded(w, e, uid);
    } else if e.Verify? {
      CodesChecked(w, e, uid);
    } else if e.Remove? || e.Delete? || e.Restart? {
      CodesSettled(w, e, uid);
    } else {
      CodesSame(w, e);
    }
  }

  lemma {:induction false} FateIsFinal(w: World, events: seq<Event>, w': World, uid: string)
    requires Inv(w) && Run(w, events, w') && uid in w.otps && w.otps[uid].fate != Waiting
    ensures uid in w'.otps && w'.otps[uid] == w.otps[uid]
    decreases |events|
  {
    hide Inv, Enabled, Apply;
    if events != [] {
      FateIsFinalStep(w, events[0], uid);
      StepKeeps(w, events[0]);
      FateIsFinal(Apply(w, events[0]), events[1..], w', uid);
    }
  }

  /** A code that was burned, found expired, used, removed with its account or lost in a
      restart verifies nothing, ever again; unless it was used its account stays unverified. */
  lemma DeadCode(w: World, events: seq<Event>, w': World, uid: string, code: string, now: int)
    requires Reachable(w) && Run(w, events, w') && uid in w.otps && w.otps[uid].fate != Waiting
    ensures !Verified(w'.s, uid, code, now).1
    ensures w.otps[uid].fate != Used ==> !IsVerified(w'.s, uid)
  {
    ReachableInv(w);
    RunKeeps(w, events, w');
    FateIsFinal(w, events, w', uid);
    hide Reachable, Run, Forest, PoolInv;
    assert DeviceInv(w', uid) && LogInv(w', uid, w'.otps[uid]);
  }

  // --- one-time prekeys ---

  /** Keys handed out, then keys still in the pool, are the registered pool followed by all
      uploads, in order, so no entry is handed out twice. */
  lemma PrekeysConserved(w: World, uid: string)
    requires Reachable(w) && uid in w.s.accounts
    ensures uid in w.served && uid in w.uploaded
    ensures w.served[uid] + w.s.accounts[uid].oneTime == w.uploaded[uid]
    ensures |w.s.accounts[uid].oneTime| == |w.uploaded[uid]| - |w.served[uid]|
  {
    ReachableInv(w);
    assert DeviceInv(w, uid);
  }

  /** The next key handed out is the first uploaded one that has not been handed out. */
  lemma NextPrekey(w: World, uid: string)
    requires Reachable(w) && IsVerified(w.s, uid)
    ensures uid in w.served && uid in w.uploaded && |w.served[uid]| <= |w.uploaded[uid]|
    ensures Fetched(w.s, uid).1.value.oneTime
         == if |w.served[uid]| < |w.uploaded[uid]| then Some(w.uploaded[uid][|w.served[uid]|]) else None
  {
    PrekeysConserved(w, uid);
    hide Reachable;
  }

  /** An upload is answered with the size of the pool after it: what was there and not handed
      out, and the new keys. */
  lemma UploadSize(w: World, uid: string, keys: seq<PreKey>)
    requires Reachable(w)
    ensures Uploaded(w.s, uid, keys).1.Some? <==> uid in w.s.accounts
    ensures uid in w.s.accounts ==>
              && uid in w.served && uid in w.uploaded
              && Uploaded(w.s, uid, keys).1 == Some(|w.uploaded[uid]| - |w.served[uid]| + |keys|)
  {
    if uid in w.s.accounts {
      PrekeysConserved(w, uid);
    }
    hide Reachable;
  }
}
