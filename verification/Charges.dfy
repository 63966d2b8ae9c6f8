/** When the contact-discovery budget lets a request through: a plain reading of fixed hourly
    windows, kept as a log of the charges tried beside a run, and that the store's counters
    decide exactly as it says. */
module Charges {
  import opened Options
  import opened Token
  import opened DiscoveryState
  import opened DiscoveryRuns
  import opened RateLimit

  /** A charge that was tried, let through or not. */
  datatype Try = Try(uid: string, at: int)

  /** When the newest window of an account was opened: by its first charge ever, and then by
      the first one an hour or more after the last opening. */
  function OpenedAt(l: seq<Try>, uid: string): Option<int> {
    if l == [] then None
    else
      var n := |l| - 1;
      var o := OpenedAt(l[..n], uid);
      if l[n].uid == uid && (o.None? || l[n].at - o.value >= 60 * MINUTE) then Some(l[n].at) else o
  }

  /** What was let through from this moment on. */
  function LetThrough(log: seq<Spent>, uid: string, from: int): nat {
    if log == [] then 0
    else
      var n := |log| - 1;
      LetThrough(log[..n], uid, from) + if log[n].uid == uid && log[n].at >= from then log[n].n else 0
  }

  /** What counts against a charge at this time: all that the window it falls in let through. */
  function Counted(w: World, l: seq<Try>, uid: string, now: int): nat {
    var o := OpenedAt(l, uid);
    if o.None? || now - o.value >= 60 * MINUTE then 0 else LetThrough(w.spent, uid, o.value)
  }

  /** A restart forgets all windows. */
  function Noted(l: seq<Try>, e: Event): seq<Try> {
    match e
    case Charge(uid, n, now) => l + [Try(uid, now)]
    case Restart(file, now) => []
    case _ => l
  }

  ghost predicate LoggedRun(w: World, l: seq<Try>, events: seq<Event>, w': World, l': seq<Try>)
    decreases |events|
  {
    if events == [] then w == w' && l == l'
    else Enabled(w, events[0]) && LoggedRun(Apply(w, events[0]), Noted(l, events[0]), events[1..], w', l')
  }

  ghost predicate Logged(w: World, l: seq<Try>) {
    exists now, events :: LoggedRun(Init(now), [], events, w, l)
  }

  ghost predicate OpenInv(windows: map<string, Window>, l: seq<Try>) {
    forall uid :: OpenedAt(l, uid) == if uid in windows then Some(windows[uid].start) else None
  }

  lemma OneMoreTry(l: seq<Try>, t: Try, uid: string)
    ensures var o := OpenedAt(l, uid);
            OpenedAt(l + [t], uid) == if t.uid == uid && (o.None? || t.at - o.value >= 60 * MINUTE) then Some(t.at) else o
  {
    assert (l + [t])[..|l|] == l;
  }

  lemma ChargeStarts(w: World, uid: string, n: nat, now: int, u: string)
    ensures var windows, windows' := w.s.windows, ApplyCharge(w, uid, n, now).s.windows;
            && (u in windows' <==> u in windows || u == uid)
            && (u in windows' ==>
                  windows'[u].start == if u == uid && (u !in windows || now - windows[u].start >= 60 * MINUTE) then now
                                       else windows[u].start)
  {}

  lemma ChargeOpens(w: World, l: seq<Try>, uid: string, n: nat, now: int)
    requires OpenInv(w.s.windows, l)
    ensures OpenInv(ApplyCharge(w, uid, n, now).s.windows, l + [Try(uid, now)])
  {
    var windows := ApplyCharge(w, uid, n, now).s.windows;
    hide OpenedAt, ApplyCharge;
    forall u ensures OpenedAt(l + [Try(uid, now)], u) == if u in windows then Some(windows[u].start) else None {
      OneMoreTry(l, Try(uid, now), u);
      ChargeStarts(w, uid, n, now, u);
    }
  }

  lemma OpenStep(w: World, l: seq<Try>, e: Event)
    requires OpenInv(w.s.windows, l) && Enabled(w, e)
    ensures OpenInv(Apply(w, e).s.windows, Noted(l, e))
  {
    if e.Charge? {
      hide OpenInv, ApplyCharge;
      ChargeOpens(w, l, e.uid, e.n, e.now);
    } else if e.Restart? {
      hide Loaded, Settled;
    } else {
      WindowsUntouched(w, e);
      hide Apply, Enabled, OpenInv;
    }
  }

  lemma {:induction false} OpenInRun(w: World, l: seq<Try>, events: seq<Event>, w': World, l': seq<Try>)
    requires OpenInv(w.s.windows, l) && RateInv(w) && LoggedRun(w, l, events, w', l')
    ensures OpenInv(w'.s.windows, l') && RateInv(w')
    decreases |events|
  {
    hide OpenInv, RateInv, Enabled, Apply, Noted;
    if events != [] {
      OpenStep(w, l, events[0]);
      RateKeeps(w, events[0]);
      OpenInRun(Apply(w, events[0]), Noted(l, events[0]), events[1..], w', l');
    }
  }

  lemma LoggedInv(w: World, l: seq<Try>)
    requires Logged(w, l)
    ensures OpenInv(w.s.windows, l) && RateInv(w)
  {
    var now, events :| LoggedRun(Init(now), [], events, w, l);
    assert OpenInv(Init(now).s.windows, []) && RateInv(Init(now));
    hide OpenInv, RateInv, LoggedRun, Init;
    OpenInRun(Init(now), [], events, w, l);
  }

  /** Nothing from an earlier window was let through after the newest one was opened. */
  lemma {:induction false} NewestWindow(log: seq<Spent>, uid: string, start: int)
    requires forall i :: 0 <= i < |log| ==> InWindow(log[i])
    requires forall i :: 0 <= i < |log| && log[i].uid == uid ==> Apart(log[i].start, start)
    ensures WindowSum(log, uid, start) == LetThrough(log, uid, start)
  {
    if log != [] {
      NewestWindow(log[..|log| - 1], uid, start);
    }
  }

  /** A request for n hashes is let through exactly if n and what its window has let through
      so far are 5000 at most, however they were asked for. */
  lemma ChargedExactly(w: World, l: seq<Try>, uid: string, n: nat, now: int)
    requires Logged(w, l) && w.now <= now
    ensures Charged(w.s, uid, n, now).1 <==> n + Counted(w, l, uid, now) <= 5000
  {
    LoggedInv(w, l);
    assert OpenedAt(l, uid) == if uid in w.s.windows then Some(w.s.windows[uid].start) else None;
    if uid in w.s.windows {
      NewestWindow(w.spent, uid, w.s.windows[uid].start);
    }
    hide Logged, OpenInv, OpenedAt, WindowSum, LetThrough;
  }
}
