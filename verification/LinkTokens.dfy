/** Link tokens over whole runs: each attaches at most one device, in the five minutes after
    it was minted and before the next restart, to the account it was minted for. The log kept
    beside a run is not part of the store. */
module LinkTokens {
  import opened Token
  import opened DiscoveryState
  import opened DiscoveryRuns

  datatype Grant = Grant(accountID: string, at: int)

  /** How a device came to be linked. */
  datatype Origin = Origin(token: string, accountID: string, at: int)

  /** Every token ever minted, those minted since the last restart, and every device ever
      linked, removed ones included. */
  datatype Log = Log(minted: map<string, Grant>, live: set<string>, linked: map<string, Origin>)

  function Noted(w: World, l: Log, e: Event): Log {
    match e
    case CreateLink(token, accountID, now) =>
      l.(minted := l.minted[token := Grant(accountID, now)], live := l.live + {token})
    case LinkDevice(token, req, uid, now) =>
      var r := Linked(w.s, token, req, uid, now).1;
      if r.Some? then l.(linked := l.linked[uid := Origin(token, r.value, now)]) else l
    case Restart(file, now) => l.(live := {})
    case _ => l
  }

  /** A token is 24 random bytes: it has not been minted before. */
  ghost predicate LoggedRun(w: World, l: Log, events: seq<Event>, w': World, l': Log)
    decreases |events|
  {
    if events == [] then w == w' && l == l'
    else
      && Enabled(w, events[0]) && (events[0].CreateLink? ==> events[0].token !in l.minted)
      && LoggedRun(Apply(w, events[0]), Noted(w, l, events[0]), events[1..], w', l')
  }

  ghost predicate Logged(w: World, l: Log) {
    exists now, events :: LoggedRun(Init(now), Log(map[], {}, map[]), events, w, l)
  }

  ghost predicate Spent(l: Log, token: string) {
    exists uid :: uid in l.linked && l.linked[uid].token == token
  }

  // --- what every step keeps ---

  ghost predicate MintedInv(w: World, l: Log) {
    && l.live <= l.minted.Keys
    && (forall t :: t in l.minted ==> l.minted[t].at <= w.now)
    && (forall t :: t in w.s.links ==> t in l.live && w.s.links[t] == Link(l.minted[t].accountID, l.minted[t].at + LINK_TTL))
  }

  /** A live token that is no longer stored was used or has expired. */
  ghost predicate GoneInv(w: World, l: Log) {
    forall t :: t in l.live && t in l.minted && t !in w.s.links ==> Spent(l, t) || w.now > l.minted[t].at + LINK_TTL
  }

  ghost predicate OriginInv(w: World, l: Log, uid: string)
    requires uid in l.linked
  {
    var o := l.linked[uid];
    && uid in w.used && o.token in l.minted && o.token !in w.s.links
    && o.accountID == l.minted[o.token].accountID && l.minted[o.token].at <= o.at <= l.minted[o.token].at + LINK_TTL
  }

  ghost predicate LinkedInv(w: World, l: Log) {
    && (forall uid :: uid in l.linked ==> OriginInv(w, l, uid))
    && (forall u, v :: u in l.linked && v in l.linked && l.linked[u].token == l.linked[v].token ==> u == v)
  }

  /** Every linked device that is stored is in the log, with its account. */
  ghost predicate StoredInv(accounts: Accounts, l: Log) {
    forall id :: id in accounts && accounts[id].accountID != id ==>
      id in l.linked && l.linked[id].accountID == accounts[id].accountID
  }

  ghost predicate TokenInv(w: World, l: Log) {
    MintedInv(w, l) && GoneInv(w, l) && LinkedInv(w, l) && StoredInv(w.s.accounts, l)
  }

  // --- the steps ---

  lemma MintKeeps(w: World, l: Log, token: string, accountID: string, now: int)
    requires TokenInv(w, l) && w.now <= now && token !in l.minted
    ensures TokenInv(ApplyCreate(w, token, accountID, now), Noted(w, l, CreateLink(token, accountID, now)))
  {}

  lemma RestartForgets(w: World, l: Log, file: seq<Account>, now: int)
    requires TokenInv(w, l) && StoreInv(w) && w.now <= now && Lists(file, w.disk)
    ensures TokenInv(ApplyRestart(w, file, now), Noted(w, l, Restart(file, now)))
  {
    RestartIs(w, file, now);
    hide Lists, StoreInv, ApplyRestart;
  }

  /** A step that mints and links nothing. */
  ghost predicate LinksRest(w: World, w': World) {
    && w'.s.links == w.s.links && w.now <= w'.now && w.used <= w'.used
    && forall id :: id in w'.s.accounts && w'.s.accounts[id].accountID != id ==>
         id in w.s.accounts && w.s.accounts[id].accountID == w'.s.accounts[id].accountID
  }

  lemma RestKeeps(w: World, w': World, l: Log)
    requires TokenInv(w, l) && LinksRest(w, w')
    ensures TokenInv(w', l)
  {}

  /** A refused attempt drops at most a token that has expired. */
  ghost predicate Refuses(w: World, w': World, token: string) {
    && w'.s.accounts == w.s.accounts && w'.used == w.used && w.now <= w'.now
    && (w'.s.links == w.s.links
        || (w'.s.links == w.s.links - {token} && (token in w.s.links ==> w'.now > w.s.links[token].expiresAt)))
  }

  lemma RefusedIs(w: World, token: string, req: Request, uid: string, now: int)
    requires w.now <= now && !Linked(w.s, token, req, uid, now).1.Some?
    ensures Refuses(w, ApplyLink(w, token, req, uid, now), token)
  {}

  lemma RefusedKeeps(w: World, w': World, l: Log, token: string)
    requires TokenInv(w, l) && Refuses(w, w', token)
    ensures TokenInv(w', l)
  {}

  /** A link that works uses up its token. */
  ghost predicate Attaches(w: World, w': World, token: string, uid: string, accountID: string) {
    && token in w.s.links && accountID == w.s.links[token].accountID && w.now <= w'.now <= w.s.links[token].expiresAt
    && w'.s.links == w.s.links - {token} && w'.used == w.used + {uid}
    && w'.s.accounts.Keys == w.s.accounts.Keys + {uid} && w'.s.accounts[uid].accountID == accountID
    && forall id :: id in w.s.accounts && id != uid ==> w'.s.accounts[id] == w.s.accounts[id]
  }

  lemma AttachIs(w: World, token: string, req: Request, uid: string, now: int)
    requires w.now <= now && Linked(w.s, token, req, uid, now).1.Some?
    ensures Attaches(w, ApplyLink(w, token, req, uid, now), token, uid, Linked(w.s, token, req, uid, now).1.value)
  {}

  lemma AttachKeeps(w: World, w': World, l: Log, token: string, uid: string, accountID: string)
    requires TokenInv(w, l) && uid !in w.used && Attaches(w, w', token, uid, accountID)
    ensures TokenInv(w', l.(linked := l.linked[uid := Origin(token, accountID, w'.now)]))
  {
    var l' := l.(linked := l.linked[uid := Origin(token, accountID, w'.now)]);
    AttachLinked(w, w', l, token, uid, accountID);
    AttachGone(w, w', l, token, uid, accountID);
    hide GoneInv, LinkedInv;
  }

  lemma AttachLinked(w: World, w': World, l: Log, token: string, uid: string, accountID: string)
    requires MintedInv(w, l) && LinkedInv(w, l) && uid !in w.used && Attaches(w, w', token, uid, accountID)
    ensures LinkedInv(w', l.(linked := l.linked[uid := Origin(token, accountID, w'.now)]))
  {}

  lemma AttachGone(w: World, w': World, l: Log, token: string, uid: string, accountID: string)
    requires LinkedInv(w, l) && GoneInv(w, l) && uid !in w.used && Attaches(w, w', token, uid, accountID)
    ensures GoneInv(w', l.(linked := l.linked[uid := Origin(token, accountID, w'.now)]))
  {
    var l' := l.(linked := l.linked[uid := Origin(token, accountID, w'.now)]);
    assert uid !in l.linked;
    hide LinkedInv;
    forall t | t in l.live && t in l.minted && t !in w'.s.links
      ensures Spent(l', t) || w'.now > l.minted[t].at + LINK_TTL
    {
      if t == token {
        assert l'.linked[uid].token == t;
      } else if Spent(l, t) {
        var u :| u in l.linked && l.linked[u].token == t;
        assert l'.linked[u].token == t;
      }
    }
  }

  lemma RestLinks(w: World, e: Event)
    requires !e.CreateLink? && !e.LinkDevice? && !e.Restart?
    ensures Apply(w, e).s.links == w.s.links
  {
    if e.Register? || e.Verify? || e.Fetch? || e.Upload? {
      hide Registered, Verified, Fetched, Uploaded, AfterCheck, CheckCode;
    } else if e.Remove? || e.Delete? {
      RemovalLinks(w, e);
      hide Apply;
    } else {
      hide IsVerified, CurrentWindow;
    }
  }

  lemma RemovalLinks(w: World, e: Event)
    requires e.Remove? || e.Delete?
    ensures Apply(w, e).s.links == w.s.links
  {
    hide Deleted, Removed, Settled, Family, Removable;
  }

  lemma RestUsed(w: World, e: Event)
    requires !e.LinkDevice?
    ensures w.used <= Apply(w, e).used
  {
    hide Registered, Verified, Fetched, Uploaded, Deleted, Removed;
    hide AfterCheck, CheckCode, Settled, Family, Removable, CurrentWindow;
  }

  lemma AccountsRemoved(w: World, e: Event, id: string)
    requires e.Remove? || e.Delete?
    ensures id in Apply(w, e).s.accounts ==> id in w.s.accounts && w.s.accounts[id] == Apply(w, e).s.accounts[id]
  {
    hide PhoneHashes, Settled;
  }

  lemma AccountsKept(w: World, e: Event)
    requires e.Refresh? || e.Resolve? || e.CreateLink? || e.Charge?
    ensures Apply(w, e).s.accounts == w.s.accounts
  {
    hide IsVerified, CurrentWindow;
  }

  lemma AccountsPut(w: World, e: Event, id: string)
    requires e.Register? || e.Verify? || e.Fetch? || e.Upload?
    requires id in Apply(w, e).s.accounts && Apply(w, e).s.accounts[id].accountID != id
    ensures id in w.s.accounts && w.s.accounts[id].accountID == Apply(w, e).s.accounts[id].accountID
  {
    hide Verified, CheckCode, AfterCheck;
  }

  lemma RestStep(w: World, l: Log, e: Event)
    requires TokenInv(w, l) && Enabled(w, e) && !e.CreateLink? && !e.LinkDevice? && !e.Restart?
    ensures TokenInv(Apply(w, e), l)
  {
    RestLinks(w, e);
    RestUsed(w, e);
    ClockIs(w, e);
    var w' := Apply(w, e);
    hide TokenInv, Apply;
    forall id | id in w'.s.accounts && w'.s.accounts[id].accountID != id
      ensures id in w.s.accounts && w.s.accounts[id].accountID == w'.s.accounts[id].accountID
    {
      RestAccounts(w, e, id);
    }
    RestKeeps(w, w', l);
  }

  lemma RestAccounts(w: World, e: Event, id: string)
    requires !e.LinkDevice? && !e.Restart?
    requires id in Apply(w, e).s.accounts && Apply(w, e).s.accounts[id].accountID != id
    ensures id in w.s.accounts && w.s.accounts[id].accountID == Apply(w, e).s.accounts[id].accountID
  {
    hide Apply;
    if e.Register? || e.Verify? || e.Fetch? || e.Upload? {
      AccountsPut(w, e, id);
    } else if e.Remove? || e.Delete? {
      AccountsRemoved(w, e, id);
    } else {
      AccountsKept(w, e);
    }
  }

  lemma LinkStep(w: World, l: Log, token: string, req: Request, uid: string, now: int)
    requires TokenInv(w, l) && w.now <= now && uid !in w.used
    ensures TokenInv(ApplyLink(w, token, req, uid, now), Noted(w, l, LinkDevice(token, req, uid, now)))
  {
    hide TokenInv, Linked;
    var w' := ApplyLink(w, token, req, uid, now);
    var r := Linked(w.s, token, req, uid, now).1;
    assert w'.now == now;
    hide ApplyLink, Attaches, Refuses;
    if r.Some? {
      AttachIs(w, token, req, uid, now);
      AttachKeeps(w, w', l, token, uid, r.value);
    } else {
      RefusedIs(w, token, req, uid, now);
      RefusedKeeps(w, w', l, token);
    }
  }

  /** Every step keeps each token's story straight. */
  lemma TokensKeep(w: World, l: Log, e: Event)
    requires TokenInv(w, l) && StoreInv(w) && Enabled(w, e) && (e.CreateLink? ==> e.token !in l.minted)
    ensures TokenInv(Apply(w, e), Noted(w, l, e))
  {
    hide TokenInv, StoreInv, ApplyCreate, ApplyLink, ApplyRestart, Lists;
    match e
    case CreateLink(token, accountID, now) => MintKeeps(w, l, token, accountID, now);
    case LinkDevice(token, req, uid, now) => LinkStep(w, l, token, req, uid, now);
    case Restart(file, now) => RestartForgets(w, l, file, now);
    case _ =>
      hide Apply;
      RestStep(w, l, e);
  }

  lemma {:induction false} TokensInRun(w: World, l: Log, events: seq<Event>, w': World, l': Log)
    requires TokenInv(w, l) && Inv(w) && LoggedRun(w, l, events, w', l')
    ensures TokenInv(w', l') && Inv(w') && Run(w, events, w')
    decreases |events|
  {
    hide TokenInv, StoreInv, DeviceInv, Enabled, Apply, Noted;
    if events != [] {
      TokensKeep(w, l, events[0]);
      hide Inv;
      StepKeeps(w, events[0]);
      TokensInRun(Apply(w, events[0]), Noted(w, l, events[0]), events[1..], w', l');
    }
  }

  lemma LoggedInv(w: World, l: Log)
    requires Logged(w, l)
    ensures TokenInv(w, l) && Reachable(w)
  {
    var now, events :| LoggedRun(Init(now), Log(map[], {}, map[]), events, w, l);
    InitInv(now);
    assert TokenInv(Init(now), Log(map[], {}, map[]));
    hide TokenInv, Inv, LoggedRun, Run, Init;
    TokensInRun(Init(now), Log(map[], {}, map[]), events, w, l);
  }

  // --- what follows ---

  /** One minted token attaches at most one device in the whole life of the store. */
  lemma OneDevicePerToken(w: World, l: Log, u: string, v: string)
    requires Logged(w, l) && u in l.linked && v in l.linked && l.linked[u].token == l.linked[v].token
    ensures u == v
  {
    LoggedInv(w, l);
  }

  /** Every linked device was attached by a token that had been minted for its account at
      most five minutes before. */
  lemma LinkedByToken(w: World, l: Log, id: string)
    requires Logged(w, l) && id in w.s.accounts && w.s.accounts[id].accountID != id
    ensures id in l.linked && l.linked[id].accountID == w.s.accounts[id].accountID
    ensures l.linked[id].token in l.minted && l.minted[l.linked[id].token].accountID == w.s.accounts[id].accountID
    ensures l.minted[l.linked[id].token].at <= l.linked[id].at <= l.minted[l.linked[id].token].at + 5 * MINUTE
  {
    LoggedInv(w, l);
    hide Logged, MintedInv, GoneInv;
    assert OriginInv(w, l, id);
  }

  /** A token attaches a device exactly when it was minted since the last restart, has
      attached none yet, is not over five minutes old, and its account is still there. */
  lemma LinksExactly(w: World, l: Log, token: string, req: Request, uid: string, now: int)
    requires Logged(w, l) && w.now <= now
    ensures Linked(w.s, token, req, uid, now).1.Some?
       <==> && token in l.live && token in l.minted && !Spent(l, token)
            && now <= l.minted[token].at + 5 * MINUTE && l.minted[token].accountID in w.s.accounts
    ensures Linked(w.s, token, req, uid, now).1.Some? ==>
              Linked(w.s, token, req, uid, now).1.value == l.minted[token].accountID
  {
    LoggedInv(w, l);
    hide Logged, Reachable, StoredInv;
    forall u | u in l.linked ensures l.linked[u].token !in w.s.links {
      assert OriginInv(w, l, u);
    }
    hide LinkedInv, OriginInv;
  }
}
