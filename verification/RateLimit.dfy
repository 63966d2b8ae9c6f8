/** The contact-discovery budget is counted in fixed windows. What it bounds is every sliding
    interval: over any span of time, one budget more than the number of windows that can
    start in it. */
module RateLimit {
  import opened Token
  import opened DiscoveryState
  import opened DiscoveryRuns

  // --- sums over the log ---

  function WindowSum(log: seq<Spent>, uid: string, start: int): nat {
    if log == [] then 0
    else
      var n := |log| - 1;
      WindowSum(log[..n], uid, start) + if log[n].uid == uid && log[n].start == start then log[n].n else 0
  }

  /** What was allowed from a to b, both included. */
  function Allowed(log: seq<Spent>, uid: string, a: int, b: int): nat {
    if log == [] then 0
    else
      var n := |log| - 1;
      Allowed(log[..n], uid, a, b) + if log[n].uid == uid && a <= log[n].at <= b then log[n].n else 0
  }

  /** What was allowed from a on in windows that started no later than last. */
  function Since(log: seq<Spent>, uid: string, a: int, last: int): nat {
    if log == [] then 0
    else
      var n := |log| - 1;
      Since(log[..n], uid, a, last) + if log[n].uid == uid && a <= log[n].at && log[n].start <= last then log[n].n else 0
  }

  // --- what the log looks like ---

  ghost predicate InWindow(e: Spent) { e.start <= e.at < e.start + INTERSECT_WINDOW }

  /** One window, or a whole window length apart. */
  predicate Apart(s: int, t: int) { s == t || s + INTERSECT_WINDOW <= t }

  ghost predicate Spaced(log: seq<Spent>) {
    && (forall i :: 0 <= i < |log| ==> InWindow(log[i]))
    && (forall i, j :: 0 <= i < j < |log| && log[i].uid == log[j].uid ==> Apart(log[i].start, log[j].start))
  }

  ghost predicate Budgeted(log: seq<Spent>) {
    forall uid, start :: WindowSum(log, uid, start) <= INTERSECT_BUDGET
  }

  // --- the bound ---

  /** How many windows can meet an interval that begins at a and ends at b. */
  function Windows(a: int, b: int): (k: nat)
    ensures k >= 1
    decreases b - a
  {
    if b <= a then 1 else 1 + Windows(a, b - INTERSECT_WINDOW)
  }

  lemma {:induction false} WindowsMonotone(a: int, b: int, c: int)
    requires b <= c
    ensures Windows(a, b) <= Windows(a, c)
    decreases c - a
  {
    if c > a && b > a {
      WindowsMonotone(a, b - INTERSECT_WINDOW, c - INTERSECT_WINDOW);
    }
  }

  /** One window more than whole window lengths, rounded up. */
  lemma {:induction false} WindowsCount(a: int, b: int)
    requires a <= b
    ensures Windows(a, b) <= (b - a) / INTERSECT_WINDOW + 2
    ensures (b - a) % INTERSECT_WINDOW == 0 ==> Windows(a, b) == (b - a) / INTERSECT_WINDOW + 1
    ensures (b - a) % INTERSECT_WINDOW != 0 ==> Windows(a, b) == (b - a) / INTERSECT_WINDOW + 2
    decreases b - a
  {
    if b - a >= INTERSECT_WINDOW {
      WindowsCount(a, b - INTERSECT_WINDOW);
      OneWindowLess(b - a);
    }
  }

  lemma OneWindowLess(d: int)
    ensures (d - INTERSECT_WINDOW) / INTERSECT_WINDOW == d / INTERSECT_WINDOW - 1
    ensures (d - INTERSECT_WINDOW) % INTERSECT_WINDOW == d % INTERSECT_WINDOW
  {}

  /** Entries of the newest window, and entries of windows at least a window length older. */
  lemma {:induction false} Split(log: seq<Spent>, uid: string, a: int, last: int, s: int)
    requires forall i :: 0 <= i < |log| && log[i].uid == uid ==> Apart(log[i].start, s)
    ensures Since(log, uid, a, last) <= Since(log, uid, a, s - INTERSECT_WINDOW) + WindowSum(log, uid, s)
  {
    if log != [] {
      Split(log[..|log| - 1], uid, a, last, s);
    }
  }

  lemma {:induction false} NothingSoOld(log: seq<Spent>, uid: string, a: int, last: int)
    requires forall i :: 0 <= i < |log| ==> InWindow(log[i])
    requires last + INTERSECT_WINDOW <= a
    ensures Since(log, uid, a, last) == 0
  {
    if log != [] {
      NothingSoOld(log[..|log| - 1], uid, a, last);
    }
  }

  lemma {:induction false} SinceBound(log: seq<Spent>, uid: string, a: int, last: int)
    requires Spaced(log) && Budgeted(log)
    ensures Since(log, uid, a, last) <= Windows(a, last) * INTERSECT_BUDGET
    decreases |log|
  {
    if log != [] {
      var n := |log| - 1;
      var e, before := log[n], log[..n];
      ShorterLog(log);
      if e.uid == uid && a <= e.at && e.start <= last {
        Split(log, uid, a, last, e.start);
        if e.start <= a {
          NothingSoOld(log, uid, a, e.start - INTERSECT_WINDOW);
        } else {
          SinceBound(before, uid, a, e.start - INTERSECT_WINDOW);
          WindowsMonotone(a, e.start - INTERSECT_WINDOW, last - INTERSECT_WINDOW);
        }
      } else {
        SinceBound(before, uid, a, last);
      }
    }
  }

  lemma ShorterLog(log: seq<Spent>)
    requires log != [] && Spaced(log) && Budgeted(log)
    ensures Spaced(log[..|log| - 1]) && Budgeted(log[..|log| - 1])
  {
    var before := log[..|log| - 1];
    forall uid, start ensures WindowSum(before, uid, start) <= INTERSECT_BUDGET {
      assert WindowSum(log, uid, start) <= INTERSECT_BUDGET;
    }
  }

  lemma {:induction false} AllowedSince(log: seq<Spent>, uid: string, a: int, b: int)
    requires forall i :: 0 <= i < |log| ==> InWindow(log[i])
    ensures Allowed(log, uid, a, b) <= Since(log, uid, a, b)
  {
    if log != [] {
      AllowedSince(log[..|log| - 1], uid, a, b);
    }
  }

  // --- every reachable state ---

  ghost predicate RateInv(w: World) {
    && Spaced(w.spent) && Budgeted(w.spent)
    && (forall i :: 0 <= i < |w.spent| ==>
          w.spent[i].uid in w.s.windows && Apart(w.spent[i].start, w.s.windows[w.spent[i].uid].start))
    && (forall uid :: uid in w.s.windows ==>
          w.s.windows[uid].start <= w.now && w.s.windows[uid].used == WindowSum(w.spent, uid, w.s.windows[uid].start))
  }

  lemma {:induction false} EmptyWindow(log: seq<Spent>, uid: string, start: int)
    requires forall i :: 0 <= i < |log| && log[i].uid == uid ==> log[i].start != start
    ensures WindowSum(log, uid, start) == 0
  {
    if log != [] {
      EmptyWindow(log[..|log| - 1], uid, start);
    }
  }

  lemma OneMore(log: seq<Spent>, e: Spent, uid: string, start: int)
    ensures WindowSum(log + [e], uid, start)
         == WindowSum(log, uid, start) + if e.uid == uid && e.start == start then e.n else 0
  {
    assert (log + [e])[..|log|] == log;
  }

  /** The window a charge goes to has seen exactly what it has used. */
  lemma CurrentWindowSum(w: World, uid: string, now: int)
    requires RateInv(w) && w.now <= now
    ensures var c := CurrentWindow(w.s, uid, now);
            && c.used == WindowSum(w.spent, uid, c.start) && c.start <= now < c.start + INTERSECT_WINDOW
            && forall i :: 0 <= i < |w.spent| && w.spent[i].uid == uid ==> Apart(w.spent[i].start, c.start)
  {
    if uid !in w.s.windows || now - w.s.windows[uid].start >= INTERSECT_WINDOW {
      EmptyWindow(w.spent, uid, now);
    }
  }

  lemma ChargeKeeps(w: World, uid: string, n: nat, now: int)
    requires RateInv(w) && w.now <= now
    ensures RateInv(ApplyCharge(w, uid, n, now))
  {
    hide RateInv, CurrentWindow;
    var c := CurrentWindow(w.s, uid, now);
    CurrentWindowSum(w, uid, now);
    if Charged(w.s, uid, n, now).1 {
      SpentKeeps(w, Spent(uid, now, n, c.start), c);
    } else {
      RefusedKeeps(w, uid, now, c);
    }
  }

  /** A refused charge may replace a window that is past; it adds nothing. */
  lemma RefusedKeeps(w: World, uid: string, now: int, c: Window)
    requires RateInv(w) && w.now <= now && c.start <= now && c.used == WindowSum(w.spent, uid, c.start)
    requires forall i :: 0 <= i < |w.spent| && w.spent[i].uid == uid ==> Apart(w.spent[i].start, c.start)
    ensures RateInv(w.(s := w.s.(windows := w.s.windows[uid := c]), now := now))
  {}

  lemma SpentKeeps(w: World, e: Spent, c: Window)
    requires RateInv(w) && w.now <= e.at && c.start == e.start <= e.at < e.start + INTERSECT_WINDOW
    requires c.used == WindowSum(w.spent, e.uid, c.start) && c.used + e.n <= INTERSECT_BUDGET
    requires forall i :: 0 <= i < |w.spent| && w.spent[i].uid == e.uid ==> Apart(w.spent[i].start, c.start)
    ensures RateInv(w.(s := w.s.(windows := w.s.windows[e.uid := c.(used := c.used + e.n)]), now := e.at, spent := w.spent + [e]))
  {
    hide WindowSum;
    var windows := w.s.windows[e.uid := c.(used := c.used + e.n)];
    SpentBudgeted(w.spent, e);
    forall u | u in windows ensures windows[u].used == WindowSum(w.spent + [e], u, windows[u].start) {
      OneMore(w.spent, e, u, windows[u].start);
    }
  }

  lemma SpentBudgeted(log: seq<Spent>, e: Spent)
    requires Budgeted(log) && WindowSum(log, e.uid, e.start) + e.n <= INTERSECT_BUDGET
    ensures Budgeted(log + [e])
  {
    forall u, start ensures WindowSum(log + [e], u, start) <= INTERSECT_BUDGET {
      OneMore(log, e, u, start);
    }
  }

  /** No other step but a restart touches the windows. */
  lemma WindowsUntouched(w: World, e: Event)
    requires Enabled(w, e) && !e.Charge? && !e.Restart?
    ensures Apply(w, e).s.windows == w.s.windows && Apply(w, e).spent == w.spent && Apply(w, e).now >= w.now
  {
    SpentUntouched(w, e);
    ClockIs(w, e);
    if e.Remove? || e.Delete? || e.Resolve? || e.CreateLink? || e.Refresh? {
      hide Family, Removable, Settled, Lists;
    } else {
      StateWindows(w, e);
      hide Apply, Lists;
    }
  }

  lemma SpentUntouched(w: World, e: Event)
    requires !e.Charge? && !e.Restart?
    ensures Apply(w, e).spent == w.spent
  {
    hide Registered, Verified, Linked, Fetched, Uploaded, Deleted, Removed;
    hide CheckCode, AfterCheck, Settled, Family, Removable;
  }

  lemma StateWindows(w: World, e: Event)
    requires e.Register? || e.Verify? || e.LinkDevice? || e.Fetch? || e.Upload?
    ensures Apply(w, e).s.windows == w.s.windows
  {
    hide Registered, Verified, Linked, Fetched, Uploaded, CheckCode, AfterCheck;
  }

  lemma RateKeeps(w: World, e: Event)
    requires RateInv(w) && Enabled(w, e)
    ensures RateInv(Apply(w, e))
  {
    if e.Charge? {
      hide RateInv, ApplyCharge;
      ChargeKeeps(w, e.uid, e.n, e.now);
    } else if e.Restart? {
      hide Loaded, Settled;
    } else {
      hide Apply, Enabled, Spaced, Budgeted;
      WindowsUntouched(w, e);
    }
  }

  lemma {:induction false} RateInRun(w: World, events: seq<Event>, w': World)
    requires RateInv(w) && Run(w, events, w')
    ensures RateInv(w')
    decreases |events|
  {
    hide RateInv, Enabled, Apply;
    if events != [] {
      RateKeeps(w, events[0]);
      RateInRun(Apply(w, events[0]), events[1..], w');
    }
  }

  /** Between restarts, in any interval from a to b, no account is allowed more hashes than
      one budget for every window that can meet the interval. */
  lemma SlidingBound(w: World, uid: string, a: int, b: int)
    requires Reachable(w) && a <= b
    ensures Allowed(w.spent, uid, a, b) <= Windows(a, b) * INTERSECT_BUDGET
    ensures Allowed(w.spent, uid, a, b) <= ((b - a) / (60 * MINUTE) + 2) * 5000
    ensures b - a < 60 * MINUTE ==> Allowed(w.spent, uid, a, b) <= 10000
    ensures a == b ==> Allowed(w.spent, uid, a, b) <= 5000
  {
    hide Run, Apply, Windows, Allowed;
    var now, events :| Run(Init(now), events, w);
    RateInRun(Init(now), events, w);
    AllowedSince(w.spent, uid, a, b);
    SinceBound(w.spent, uid, a, b);
    WindowsCount(a, b);
  }

  // --- the bound is attained ---

  /** The last moment up to b that is a whole number of window lengths after a + 1; before
      any such moment, one window length earlier. */
  function LastStart(a: int, b: int): (s: int)
    ensures b > a ==> a < s <= b
    ensures b <= a ==> s == a + 1 - INTERSECT_WINDOW
    decreases b - a
  {
    if b <= a then a + 1 - INTERSECT_WINDOW else LastStart(a, b - INTERSECT_WINDOW) + INTERSECT_WINDOW
  }

  /** A charge of nothing opens a window that is about to end at a; a whole budget is spent
      at a, and another as soon as each further window can start. */
  ghost function Busiest(uid: string, a: int, b: int): World
    decreases b - a
  {
    if b <= a then
      var first := ApplyCharge(Init(a + 1 - INTERSECT_WINDOW), uid, 0, a + 1 - INTERSECT_WINDOW);
      ApplyCharge(first, uid, INTERSECT_BUDGET, a)
    else ApplyCharge(Busiest(uid, a, b - INTERSECT_WINDOW), uid, INTERSECT_BUDGET, LastStart(a, b))
  }

  /** After the run the window is full, and everything it allowed lies between a and b. */
  ghost predicate Busy(w: World, uid: string, a: int, b: int) {
    && Reachable(w)
    && uid in w.s.windows && w.s.windows[uid].start == LastStart(a, b)
    && w.now == (if b <= a then a else LastStart(a, b))
    && forall c :: c >= w.now ==> Allowed(w.spent, uid, a, c) == Windows(a, b) * INTERSECT_BUDGET
  }

  lemma AllowedAppend(log: seq<Spent>, e: Spent, uid: string, a: int, b: int)
    ensures Allowed(log + [e], uid, a, b) == Allowed(log, uid, a, b) + if e.uid == uid && a <= e.at <= b then e.n else 0
  {
    assert (log + [e])[..|log|] == log;
  }

  lemma BusyStart(uid: string, a: int, b: int)
    requires b <= a
    ensures Busy(Busiest(uid, a, b), uid, a, b)
  {
    var t := a + 1 - INTERSECT_WINDOW;
    var w0 := Init(t);
    var w1 := ApplyCharge(w0, uid, 0, t);
    var w2 := ApplyCharge(w1, uid, INTERSECT_BUDGET, a);
    assert Run(w0, [], w0);
    hide Run;
    StepReachable(w0, Charge(uid, 0, t));
    StepReachable(w1, Charge(uid, INTERSECT_BUDGET, a));
    assert w1.spent == [] + [Spent(uid, t, 0, t)] && w2.spent == w1.spent + [Spent(uid, a, INTERSECT_BUDGET, t)];
    forall c | c >= a ensures Allowed(w2.spent, uid, a, c) == INTERSECT_BUDGET {
      AllowedAppend([], Spent(uid, t, 0, t), uid, a, c);
      AllowedAppend(w1.spent, Spent(uid, a, INTERSECT_BUDGET, t), uid, a, c);
    }
  }

  lemma BusyOneMore(w: World, uid: string, a: int, b: int)
    requires b > a && Busy(w, uid, a, b - INTERSECT_WINDOW)
    ensures Busy(ApplyCharge(w, uid, INTERSECT_BUDGET, LastStart(a, b)), uid, a, b)
  {
    hide Reachable, Allowed;
    var s := LastStart(a, b);
    var w' := ApplyCharge(w, uid, INTERSECT_BUDGET, s);
    StepReachable(w, Charge(uid, INTERSECT_BUDGET, s));
    forall c | c >= s ensures Allowed(w'.spent, uid, a, c) == Windows(a, b) * INTERSECT_BUDGET {
      AllowedAppend(w.spent, Spent(uid, s, INTERSECT_BUDGET, s), uid, a, c);
    }
  }

  lemma {:induction false} BusiestIsBusy(uid: string, a: int, b: int)
    ensures Busy(Busiest(uid, a, b), uid, a, b)
    decreases b - a
  {
    hide Busy;
    if b <= a {
      BusyStart(uid, a, b);
    } else {
      BusiestIsBusy(uid, a, b - INTERSECT_WINDOW);
      BusyOneMore(Busiest(uid, a, b - INTERSECT_WINDOW), uid, a, b);
    }
  }

  /** One budget for every window that can meet the interval is the best bound there is: a
      number bounds what every run allows from a to b exactly when it is no smaller. */
  lemma SlidingBoundIsSharp(uid: string, a: int, b: int, k: nat)
    requires a <= b
    ensures (forall w :: Reachable(w) ==> Allowed(w.spent, uid, a, b) <= k) <==> Windows(a, b) * INTERSECT_BUDGET <= k
  {
    hide Reachable, Allowed, Windows, Busiest, LastStart;
    BusiestIsBusy(uid, a, b);
    var busiest := Busiest(uid, a, b);
    assert Allowed(busiest.spent, uid, a, b) == Windows(a, b) * INTERSECT_BUDGET by {
      LastStartBefore(a, b);
    }
    forall w | Reachable(w) ensures Allowed(w.spent, uid, a, b) <= Windows(a, b) * INTERSECT_BUDGET {
      SlidingBound(w, uid, a, b);
    }
  }

  lemma LastStartBefore(a: int, b: int)
    ensures b > a ==> LastStart(a, b) <= b
  {}

  /** Ten thousand hashes within any two neighbouring instants. */
  lemma TwiceTheBudget(uid: string, a: int) returns (w: World)
    ensures Reachable(w) && Allowed(w.spent, uid, a, a + 1) == 10000
  {
    hide Reachable, Allowed, Busiest;
    w := Busiest(uid, a, a + 1);
    BusiestIsBusy(uid, a, a + 1);
    WindowsCount(a, a + 1);
  }
}
