/** The registration cooldown over whole runs: what keeps codes for one number apart, and what
    lets the next one through early. The log kept beside a run is not part of the store. */
module Cooldown {
  import opened Token
  import opened DiscoveryState
  import opened DiscoveryRuns

  /** A code was made for a number; the devices with these numbers were deleted; the store
      was restarted. */
  datatype Mark = Sent(phoneHash: string, at: int) | Freed(phoneHashes: set<string>) | Forgotten

  function Noted(w: World, log: seq<Mark>, e: Event): seq<Mark> {
    match e
    case Register(h, req, uid, otp, now) =>
      if Registered(w.s, h, req, uid, otp, now).1 then log + [Sent(h, now)] else log
    case Delete(uid, now) =>
      if uid in w.s.accounts
      then log + [Freed(PhoneHashes(w.s.accounts, Family(w.s.accounts, w.s.accounts[uid].accountID)))] else log
    case Restart(file, now) => log + [Forgotten]
    case _ => log
  }

  ghost predicate LoggedRun(w: World, log: seq<Mark>, events: seq<Event>, w': World, log': seq<Mark>)
    decreases |events|
  {
    if events == [] then w == w' && log == log'
    else Enabled(w, events[0]) && LoggedRun(Apply(w, events[0]), Noted(w, log, events[0]), events[1..], w', log')
  }

  ghost predicate Logged(w: World, log: seq<Mark>) {
    exists now, events :: LoggedRun(Init(now), [], events, w, log)
  }

  /** This mark makes the store forget when a code was last made for the number. */
  predicate Clears(m: Mark, h: string) {
    m.Forgotten? || (m.Freed? && h in m.phoneHashes)
  }

  ghost predicate ClearedSince(log: seq<Mark>, i: int, h: string) {
    exists k :: i < k < |log| && 0 <= k && Clears(log[k], h)
  }

  predicate TooClose(m: Mark, n: Mark, h: string) {
    m.Sent? && n.Sent? && m.phoneHash == n.phoneHash == h && n.at - m.at < 30 * SECOND
  }

  /** No two codes for a number less than a cooldown apart, unless the number was forgotten
      in between. */
  ghost predicate SpacedAt(log: seq<Mark>, h: string) {
    forall i, j :: 0 <= i < j < |log| && TooClose(log[i], log[j], h) ==> ClearedSince(log[..j], i, h)
  }

  /** The codes that still count against the number are no later than what is stored. */
  ghost predicate LastInv(w: World, log: seq<Mark>, h: string) {
    && (forall i :: 0 <= i < |log| && log[i].Sent? && log[i].phoneHash == h ==>
          log[i].at <= w.now && (ClearedSince(log, i, h) || (h in w.s.lastRegister && log[i].at <= w.s.lastRegister[h])))
    && (h in w.s.lastRegister ==>
          exists i :: 0 <= i < |log| && log[i] == Sent(h, w.s.lastRegister[h]) && !ClearedSince(log, i, h))
  }

  ghost predicate CooldownInv(w: World, log: seq<Mark>) {
    forall h :: LastInv(w, log, h) && SpacedAt(log, h)
  }

  // --- one more mark ---

  lemma ClearedLater(log: seq<Mark>, m: Mark, i: int, h: string)
    requires 0 <= i < |log|
    ensures ClearedSince(log + [m], i, h) <==> ClearedSince(log, i, h) || Clears(m, h)
  {
    if ClearedSince(log, i, h) {
      var k :| i < k < |log| && 0 <= k && Clears(log[k], h);
      assert Clears((log + [m])[k], h);
    }
    if Clears(m, h) {
      assert Clears((log + [m])[|log|], h);
    }
    if ClearedSince(log + [m], i, h) {
      var k :| i < k < |log + [m]| && 0 <= k && Clears((log + [m])[k], h);
      assert k < |log| ==> Clears(log[k], h);
    }
  }

  /** A mark that is not about this number, or forgets it. */
  lemma OtherMark(w: World, w': World, log: seq<Mark>, m: Mark, h: string)
    requires LastInv(w, log, h) && SpacedAt(log, h) && w.now <= w'.now
    requires m.Sent? ==> m.phoneHash != h
    requires h in w'.s.lastRegister <==> h in w.s.lastRegister && !Clears(m, h)
    requires h in w'.s.lastRegister ==> w'.s.lastRegister[h] == w.s.lastRegister[h]
    ensures LastInv(w', log + [m], h) && SpacedAt(log + [m], h)
  {
    var log' := log + [m];
    forall i | 0 <= i < |log| ensures ClearedSince(log', i, h) <==> ClearedSince(log, i, h) || Clears(m, h) {
      ClearedLater(log, m, i, h);
    }
    SpacedAlike(log, m, h);
    hide ClearedSince, SpacedAt;
    if h in w'.s.lastRegister {
      var i :| 0 <= i < |log| && log[i] == Sent(h, w.s.lastRegister[h]) && !ClearedSince(log, i, h);
      assert log'[i] == Sent(h, w'.s.lastRegister[h]);
    }
  }

  lemma SpacedAlike(log: seq<Mark>, m: Mark, h: string)
    requires SpacedAt(log, h) && (m.Sent? ==> m.phoneHash != h)
    ensures SpacedAt(log + [m], h)
  {
    hide ClearedSince;
    var log' := log + [m];
    forall i, j | 0 <= i < j < |log'| && TooClose(log'[i], log'[j], h) ensures ClearedSince(log'[..j], i, h) {
      assert j < |log| && log'[..j] == log[..j];
    }
  }

  /** A code for this number, let through. */
  lemma SentMark(w: World, w': World, log: seq<Mark>, h: string)
    requires LastInv(w, log, h) && SpacedAt(log, h) && w.now <= w'.now
    requires h in w.s.lastRegister ==> w'.now - w.s.lastRegister[h] >= REGISTER_COOLDOWN
    requires h in w'.s.lastRegister && w'.s.lastRegister[h] == w'.now
    ensures LastInv(w', log + [Sent(h, w'.now)], h) && SpacedAt(log + [Sent(h, w'.now)], h)
  {
    SentLast(w, w', log, h);
    SentSpaced(w, log, h, w'.now);
  }

  lemma SentLast(w: World, w': World, log: seq<Mark>, h: string)
    requires LastInv(w, log, h) && w.now <= w'.now
    requires h in w'.s.lastRegister && w'.s.lastRegister[h] == w'.now
    ensures LastInv(w', log + [Sent(h, w'.now)], h)
  {
    var log' := log + [Sent(h, w'.now)];
    assert !ClearedSince(log', |log|, h) && log'[|log|] == Sent(h, w'.now);
    hide ClearedSince;
  }

  lemma SentSpaced(w: World, log: seq<Mark>, h: string, now: int)
    requires LastInv(w, log, h) && SpacedAt(log, h)
    requires h in w.s.lastRegister ==> now - w.s.lastRegister[h] >= REGISTER_COOLDOWN
    ensures SpacedAt(log + [Sent(h, now)], h)
  {
    hide ClearedSince;
    var log' := log + [Sent(h, now)];
    forall i, j | 0 <= i < j < |log'| && TooClose(log'[i], log'[j], h) ensures ClearedSince(log'[..j], i, h) {
      assert log'[..j] == log[..j];
    }
  }

  lemma NoMark(w: World, w': World, log: seq<Mark>, h: string)
    requires LastInv(w, log, h) && w.now <= w'.now && w'.s.lastRegister == w.s.lastRegister
    ensures LastInv(w', log, h)
  {
    hide ClearedSince;
  }

  // --- the steps ---

  lemma RegisterMark(w: World, log: seq<Mark>, e: Event, h: string)
    requires e.Register? && LastInv(w, log, h) && SpacedAt(log, h) && w.now <= e.now
    ensures LastInv(Apply(w, e), Noted(w, log, e), h) && SpacedAt(Noted(w, log, e), h)
  {
    hide LastInv, SpacedAt;
    var w' := Apply(w, e);
    if !Registered(w.s, e.phoneHash, e.req, e.uid, e.otp, e.now).1 {
      NoMark(w, w', log, h);
    } else if h == e.phoneHash {
      SentMark(w, w', log, h);
    } else {
      OtherMark(w, w', log, Sent(e.phoneHash, e.now), h);
    }
  }

  lemma DeleteMark(w: World, log: seq<Mark>, uid: string, now: int, h: string)
    requires LastInv(w, log, h) && SpacedAt(log, h) && w.now <= now
    ensures LastInv(ApplyDelete(w, uid, now), Noted(w, log, Delete(uid, now)), h)
    ensures SpacedAt(Noted(w, log, Delete(uid, now)), h)
  {
    hide LastInv, SpacedAt, Settled, PhoneHashes;
    var w' := ApplyDelete(w, uid, now);
    if uid in w.s.accounts {
      OtherMark(w, w', log, Freed(PhoneHashes(w.s.accounts, Family(w.s.accounts, w.s.accounts[uid].accountID))), h);
    } else {
      NoMark(w, w', log, h);
    }
  }

  lemma RestartMark(w: World, log: seq<Mark>, file: seq<Account>, now: int, h: string)
    requires LastInv(w, log, h) && SpacedAt(log, h) && w.now <= now
    ensures LastInv(ApplyRestart(w, file, now), log + [Forgotten], h) && SpacedAt(log + [Forgotten], h)
  {
    hide LastInv, SpacedAt, Loaded, Settled;
    OtherMark(w, ApplyRestart(w, file, now), log, Forgotten, h);
  }

  /** No other step touches the cooldowns. */
  lemma CooldownsUntouched(w: World, e: Event)
    requires !e.Register? && !e.Delete? && !e.Restart?
    ensures Apply(w, e).s.lastRegister == w.s.lastRegister
  {
    if e.Verify? || e.LinkDevice? || e.Fetch? || e.Upload? {
      hide Verified, Linked, Fetched, Uploaded, AfterCheck, CheckCode;
    } else {
      RestUntouched(w, e);
      hide Apply;
    }
  }

  lemma RestUntouched(w: World, e: Event)
    requires e.Refresh? || e.Resolve? || e.CreateLink? || e.Remove? || e.Charge?
    ensures Apply(w, e).s.lastRegister == w.s.lastRegister
  {
    hide Removed, Removable, Settled, IsVerified, CurrentWindow;
  }

  lemma MarkStep(w: World, log: seq<Mark>, e: Event, h: string)
    requires LastInv(w, log, h) && SpacedAt(log, h) && Enabled(w, e)
    ensures LastInv(Apply(w, e), Noted(w, log, e), h) && SpacedAt(Noted(w, log, e), h)
  {
    hide LastInv, SpacedAt, ApplyDelete, ApplyRestart, Lists;
    if e.Register? {
      hide Apply, Noted;
      RegisterMark(w, log, e, h);
    } else if e.Delete? {
      hide Noted;
      DeleteMark(w, log, e.uid, e.now, h);
    } else if e.Restart? {
      RestartMark(w, log, e.file, e.now, h);
    } else {
      CooldownsUntouched(w, e);
      ClockIs(w, e);
      hide Apply;
      NoMark(w, Apply(w, e), log, h);
    }
  }

  lemma {:induction false} MarksInRun(w: World, log: seq<Mark>, events: seq<Event>, w': World, log': seq<Mark>)
    requires CooldownInv(w, log) && LoggedRun(w, log, events, w', log')
    ensures CooldownInv(w', log')
    decreases |events|
  {
    hide LastInv, SpacedAt, Enabled, Apply, Noted;
    if events != [] {
      forall h
        ensures LastInv(Apply(w, events[0]), Noted(w, log, events[0]), h) && SpacedAt(Noted(w, log, events[0]), h)
      {
        MarkStep(w, log, events[0], h);
      }
      MarksInRun(Apply(w, events[0]), Noted(w, log, events[0]), events[1..], w', log');
    }
  }

  lemma LoggedInv(w: World, log: seq<Mark>)
    requires Logged(w, log)
    ensures CooldownInv(w, log)
  {
    var now, events :| LoggedRun(Init(now), [], events, w, log);
    assert CooldownInv(Init(now), []);
    hide CooldownInv, LoggedRun, Init;
    MarksInRun(Init(now), [], events, w, log);
  }

  // --- what follows ---

  /** Two codes for one number are a cooldown apart, unless in between an account with that
      number was deleted or the store restarted. */
  lemma CodesApart(w: World, log: seq<Mark>, i: nat, j: nat, h: string)
    requires Logged(w, log) && i < j < |log| && TooClose(log[i], log[j], h)
    ensures exists k :: i < k < j && Clears(log[k], h)
  {
    LoggedInv(w, log);
    hide Logged, LastInv;
    assert SpacedAt(log, h);
    var k :| i < k < j && Clears(log[..j][k], h);
    assert log[..j][k] == log[k];
  }

  /** A number is given a code exactly if every code made for it less than a cooldown ago was
      followed by such a deletion or a restart. */
  lemma CodesExactly(w: World, log: seq<Mark>, h: string, req: Request, uid: string, otp: string, now: int)
    requires Logged(w, log) && w.now <= now
    ensures Registered(w.s, h, req, uid, otp, now).1
       <==> forall i :: 0 <= i < |log| && TooClose(log[i], Sent(h, now), h) ==> ClearedSince(log, i, h)
  {
    LoggedInv(w, log);
    assert LastInv(w, log, h);
    hide Logged, CooldownInv, ClearedSince;
  }

  // --- the exception does happen ---

  lemma {:induction false} LoggedAppend(w: World, log: seq<Mark>, events: seq<Event>,
                                        v: World, log': seq<Mark>, e: Event)
    requires LoggedRun(w, log, events, v, log') && Enabled(v, e)
    ensures LoggedRun(w, log, events + [e], Apply(v, e), Noted(v, log', e))
    decreases |events|
  {
    hide Enabled, Apply, Noted;
    if events == [] {
      assert LoggedRun(Apply(v, e), Noted(v, log', e), [], Apply(v, e), Noted(v, log', e));
      assert [e][1..] == [] && [] + [e] == [e];
    } else {
      LoggedAppend(Apply(w, events[0]), Noted(w, log, events[0]), events[1..], v, log', e);
      assert (events + [e])[1..] == events[1..] + [e];
    }
  }

  lemma LoggedStep(w: World, log: seq<Mark>, e: Event)
    requires Logged(w, log) && Enabled(w, e)
    ensures Logged(Apply(w, e), Noted(w, log, e))
  {
    hide LoggedRun, Enabled, Apply, Noted;
    var now, events :| LoggedRun(Init(now), [], events, w, log);
    LoggedAppend(Init(now), [], events, w, log, e);
  }

  lemma SentOnce(w: World, log: seq<Mark>, h: string, req: Request, uid: string, code: string, t: int)
    requires Logged(w, log) && w.now == t && uid !in w.used && uid != "" && h != "" && h !in w.s.lastRegister
    ensures var w' := ApplyRegister(w, h, req, uid, code, t);
            && Logged(w', log + [Sent(h, t)]) && w'.now == t && w'.used == w.used + {uid}
            && w'.s.accounts == w.s.accounts[uid := Account(uid, uid, h, req.deviceID, req.keys, req.oneTime, false)]
            && w'.s.pending == w.s.pending[uid := Otp(code, t + OTP_TTL, 0)]
  {
    hide Logged;
    LoggedStep(w, log, Register(h, req, uid, code, t));
  }

  lemma VerifiedOnce(w: World, log: seq<Mark>, uid: string, code: string, t: int)
    requires Logged(w, log) && w.now == t && uid in w.s.accounts
    requires uid in w.s.pending && w.s.pending[uid] == Otp(code, t + OTP_TTL, 0)
    ensures var w' := ApplyVerify(w, uid, code, t);
            && Logged(w', log) && w'.now == t && w'.used == w.used
            && w'.s.accounts == w.s.accounts[uid := w.s.accounts[uid].(verified := true)]
  {
    hide Logged;
    LoggedStep(w, log, Verify(uid, code, t));
  }

  lemma FreedOnce(w: World, log: seq<Mark>, uid: string, h: string, t: int)
    requires Logged(w, log) && w.now == t && w.s.accounts.Keys == {uid}
    requires w.s.accounts[uid].accountID == uid && w.s.accounts[uid].phoneHash == h
    ensures var w' := ApplyDelete(w, uid, t);
            Logged(w', log + [Freed({h})]) && w'.now == t && w'.used == w.used && h !in w'.s.lastRegister
  {
    hide Logged;
    assert Family(w.s.accounts, uid) == {uid};
    assert PhoneHashes(w.s.accounts, {uid}) == {h};
    hide Family, PhoneHashes, Settled;
    LoggedStep(w, log, Delete(uid, t));
  }

  lemma OneAccount(h: string, req: Request, uid: string, code: string, t: int) returns (w: World)
    requires h != "" && uid != ""
    ensures Logged(w, [Sent(h, t)]) && w.now == t && w.used == {uid} && w.s.accounts.Keys == {uid}
    ensures w.s.accounts[uid].accountID == uid && w.s.accounts[uid].phoneHash == h
  {
    var u := Init(t);
    assert LoggedRun(u, [], [], u, []);
    assert [] + [Sent(h, t)] == [Sent(h, t)];
    hide Logged, LoggedRun, ApplyRegister, ApplyVerify;
    SentOnce(u, [], h, req, uid, code, t);
    var v := ApplyRegister(u, h, req, uid, code, t);
    VerifiedOnce(v, [Sent(h, t)], uid, code, t);
    w := ApplyVerify(v, uid, code, t);
  }

  /** Whoever deletes the account is given a second code for its number at the same moment. */
  lemma TwoCodesAtOnce(h: string, req: Request, a: string, b: string, code: string, t: int) returns (w: World)
    requires h != "" && a != "" && b != "" && a != b
    ensures Logged(w, [Sent(h, t), Freed({h}), Sent(h, t)])
  {
    hide *;
    var u := OneAccount(h, req, a, code, t);
    FreedOnce(u, [Sent(h, t)], a, h, t);
    var v := ApplyDelete(u, a, t);
    SentOnce(v, [Sent(h, t)] + [Freed({h})], h, req, b, code, t);
    w := ApplyRegister(v, h, req, b, code, t);
    assert [Sent(h, t)] + [Freed({h})] + [Sent(h, t)] == [Sent(h, t), Freed({h}), Sent(h, t)];
  }
}
