/** Ephemeral typing indicators: a map of expiry times, a cached snapshot of each
    conversation that is not recomputed when time passes, and a sweep that drops what has
    expired. Every reading of the clock is a parameter. */
module Typing {
  const TTL := 6000

  /** One typing sender. A conversation's senders are kept in insertion order, each once. */
  datatype Entry = Entry(id: string, expiry: int)

  type Senders = seq<Entry>

  function IndexOf(s: Senders, id: string): (i: nat)
    ensures i <= |s| && (i < |s| ==> s[i].id == id)
    ensures forall k :: 0 <= k < i ==> s[k].id != id
  {
    if s == [] || s[0].id == id then 0 else 1 + IndexOf(s[1..], id)
  }

  /** A refresh keeps the sender's place; a new sender goes to the end. */
  function WithSender(s: Senders, id: string, expiry: int): Senders {
    var i := IndexOf(s, id);
    if i < |s| then s[i := Entry(id, expiry)] else s + [Entry(id, expiry)]
  }

  function WithoutSender(s: Senders, id: string): Senders {
    var i := IndexOf(s, id);
    if i < |s| then s[..i] + s[i + 1..] else s
  }

  /** The senders whose indicator has not expired at time t, in order. */
  function Unexpired(s: Senders, t: int): (r: Senders)
    ensures |r| <= |s|
  {
    if s == [] then []
    else
      var n := |s| - 1;
      Unexpired(s[..n], t) + if s[n].expiry > t then [s[n]] else []
  }

  function Ids(s: Senders): (r: seq<string>)
    ensures |r| == |s| && forall i :: 0 <= i < |s| ==> r[i] == s[i].id
  {
    seq(|s|, i requires 0 <= i < |s| => s[i].id)
  }

  /** What a snapshot computed at time t holds. */
  function LiveIds(s: Senders, t: int): seq<string> { Ids(Unexpired(s, t)) }

  ghost predicate Distinct(s: Senders) {
    forall i, j :: 0 <= i < j < |s| ==> s[i].id != s[j].id
  }

  lemma {:induction false} UnexpiredMember(s: Senders, t: int, e: Entry)
    ensures e in Unexpired(s, t) <==> e in s && e.expiry > t
  {
    if s != [] {
      var n := |s| - 1;
      UnexpiredMember(s[..n], t, e);
      assert s == s[..n] + [s[n]];
    }
  }

  lemma {:induction false} UnexpiredAll(s: Senders, t: int)
    requires forall i :: 0 <= i < |s| ==> s[i].expiry > t
    ensures Unexpired(s, t) == s
  {
    if s != [] {
      UnexpiredAll(s[..|s| - 1], t);
    }
  }

  lemma {:induction false} UnexpiredFull(s: Senders, t: int)
    requires |Unexpired(s, t)| == |s|
    ensures Unexpired(s, t) == s
  {
    if s != [] {
      UnexpiredFull(s[..|s| - 1], t);
    }
  }

  lemma UnexpiredAppend(s: Senders, e: Entry, t: int)
    ensures Unexpired(s + [e], t) == Unexpired(s, t) + if e.expiry > t then [e] else []
  {
    assert (s + [e])[..|s|] == s;
  }

  lemma {:induction false} UnexpiredDistinct(s: Senders, t: int)
    requires Distinct(s)
    ensures Distinct(Unexpired(s, t))
  {
    if s != [] {
      var n := |s| - 1;
      var r := Unexpired(s[..n], t);
      UnexpiredDistinct(s[..n], t);
      forall i | 0 <= i < |r| ensures r[i].id != s[n].id {
        UnexpiredMember(s[..n], t, r[i]);
      }
    }
  }

  /** A snapshot taken earlier holds every sender that is live now, and only senders that
      are still in the map. */
  lemma StaleSnapshot(s: Senders, taken: int, now: int, id: string)
    requires taken <= now
    ensures id in LiveIds(s, now) ==> id in LiveIds(s, taken)
    ensures id in LiveIds(s, taken) ==> id in Ids(s)
  {
    var early, late := Unexpired(s, taken), Unexpired(s, now);
    if id in Ids(late) {
      var i :| 0 <= i < |late| && Ids(late)[i] == id;
      UnexpiredMember(s, now, late[i]);
      UnexpiredMember(s, taken, late[i]);
      InIds(early, late[i]);
    }
    if id in Ids(early) {
      var i :| 0 <= i < |early| && Ids(early)[i] == id;
      UnexpiredMember(s, taken, early[i]);
      InIds(s, early[i]);
    }
  }

  /** A snapshot computed at time t shows exactly the senders that have not expired. */
  lemma LiveExactly(s: Senders, t: int, id: string)
    ensures id in LiveIds(s, t) <==> exists e :: e in s && e.id == id && e.expiry > t
  {
    var live := Unexpired(s, t);
    if id in LiveIds(s, t) {
      var i :| 0 <= i < |live| && live[i].id == id;
      UnexpiredMember(s, t, live[i]);
    }
    forall e | e in s && e.id == id && e.expiry > t ensures id in LiveIds(s, t) {
      UnexpiredMember(s, t, e);
      InIds(live, e);
    }
  }

  /** So it misses no live sender and shows none that is not in the map. */
  lemma CachedShows(s: Senders, taken: int, now: int)
    requires taken <= now
    ensures forall e :: e in s && e.expiry > now ==> e.id in LiveIds(s, taken)
    ensures forall id :: id in LiveIds(s, taken) ==> exists e :: e in s && e.id == id
  {
    hide LiveIds;
    forall e | e in s && e.expiry > now ensures e.id in LiveIds(s, taken) {
      LiveExactly(s, taken, e.id);
    }
    forall id | id in LiveIds(s, taken) ensures exists e :: e in s && e.id == id {
      StaleSnapshot(s, taken, now, id);
      var i :| 0 <= i < |s| && Ids(s)[i] == id;
      assert s[i] in s && s[i].id == id;
    }
  }

  lemma InIds(s: Senders, e: Entry)
    requires e in s
    ensures e.id in Ids(s)
  {
    var j :| 0 <= j < |s| && s[j] == e;
    assert Ids(s)[j] == e.id;
  }

  lemma WithSenderDistinct(s: Senders, id: string, expiry: int)
    requires Distinct(s)
    ensures Distinct(WithSender(s, id, expiry)) && WithSender(s, id, expiry) != []
  {}

  lemma WithoutSenderDistinct(s: Senders, id: string)
    requires Distinct(s)
    ensures Distinct(WithoutSender(s, id))
  {}

  /** A signal sets one sender's expiry and leaves every other sender alone. */
  lemma WithSenderMember(s: Senders, id: string, expiry: int, e: Entry)
    requires Distinct(s)
    ensures e in WithSender(s, id, expiry) <==> e == Entry(id, expiry) || (e in s && e.id != id)
  {
    var i, r := IndexOf(s, id), WithSender(s, id, expiry);
    assert r[i] == Entry(id, expiry);
    if e in s && e.id != id {
      var j :| 0 <= j < |s| && s[j] == e;
      assert r[j] == e;
    }
  }

  lemma InMiddle(a: Senders, e: Entry, b: Senders, x: Entry)
    ensures x in a + [e] + b <==> x in a + b || x == e
  {}

  lemma WithoutSenderMember(s: Senders, id: string, e: Entry)
    requires Distinct(s)
    ensures e in WithoutSender(s, id) <==> e in s && e.id != id
  {
    var i := IndexOf(s, id);
    if i < |s| {
      var a, b := s[..i], s[i + 1..];
      assert s == a + [s[i]] + b;
      InMiddle(a, s[i], b, e);
      if e in a + b {
        var k :| 0 <= k < |a + b| && (a + b)[k] == e;
        assert e == s[if k < i then k else k + 1];
      }
    }
  }

  // --- the store ---

  type Conversations = map<string, Senders>

  function SendersAt(byConv: Conversations, conv: string): Senders {
    if conv in byConv then byConv[conv] else []
  }

  function Put(byConv: Conversations, conv: string, s: Senders): Conversations {
    if s == [] then byConv - {conv} else byConv[conv := s]
  }

  /** What one signal does to the map. */
  function Signalled(byConv: Conversations, conv: string, id: string, typing: bool, now: int): Conversations {
    var s := SendersAt(byConv, conv);
    Put(byConv, conv, if typing then WithSender(s, id, now + TTL) else WithoutSender(s, id))
  }

  /** What a sweep at time t leaves of the conversations among visited. */
  function Swept(byConv: Conversations, t: int, visited: set<string>): Conversations {
    map c | c in byConv && (c in visited ==> Unexpired(byConv[c], t) != [])
      :: if c in visited then Unexpired(byConv[c], t) else byConv[c]
  }

  ghost predicate WellFormed(byConv: Conversations) {
    forall c :: c in byConv ==> byConv[c] != [] && Distinct(byConv[c])
  }

  lemma SignalledWellFormed(byConv: Conversations, conv: string, id: string, typing: bool, now: int)
    requires WellFormed(byConv)
    ensures WellFormed(Signalled(byConv, conv, id, typing, now))
  {
    WithSenderDistinct(SendersAt(byConv, conv), id, now + TTL);
    WithoutSenderDistinct(SendersAt(byConv, conv), id);
    hide Distinct, WithSender, WithoutSender;
  }

  /** A signal makes one sender live for six seconds, or removes it; every other sender of the
      conversation, and every other conversation, stays. */
  lemma SignalledExactly(byConv: Conversations, conv: string, id: string, typing: bool, now: int, c: string, e: Entry)
    requires WellFormed(byConv)
    ensures e in SendersAt(Signalled(byConv, conv, id, typing, now), c) <==>
              if c == conv && e.id == id then typing && e.expiry == now + 6000 else e in SendersAt(byConv, c)
    ensures c in Signalled(byConv, conv, id, typing, now) <==>
              exists x :: x in SendersAt(Signalled(byConv, conv, id, typing, now), c)
  {
    var s := SendersAt(byConv, conv);
    assert Distinct(s);
    WithSenderMember(s, id, now + 6000, e);
    WithoutSenderMember(s, id, e);
    SignalledWellFormed(byConv, conv, id, typing, now);
    hide Distinct, WithSender, WithoutSender;
    if c in Signalled(byConv, conv, id, typing, now) {
      assert Signalled(byConv, conv, id, typing, now)[c][0] in SendersAt(Signalled(byConv, conv, id, typing, now), c);
    }
  }

  /** A refresh keeps the sender's place in the order; a new sender comes last. */
  lemma SignalledOrder(s: Senders, id: string, expiry: int)
    ensures Ids(WithSender(s, id, expiry)) == if id in Ids(s) then Ids(s) else Ids(s) + [id]
  {
    if id in Ids(s) {
      var k :| 0 <= k < |s| && s[k].id == id;
    }
  }

  /** Every cached snapshot is what its conversation's senders give at some past reading. */
  ghost predicate FreshAt(byConv: Conversations, snapshots: map<string, seq<string>>, asOf: map<string, int>, clock: int) {
    snapshots.Keys == asOf.Keys
    && forall c :: c in snapshots ==> asOf[c] <= clock && snapshots[c] == LiveIds(SendersAt(byConv, c), asOf[c])
  }

  lemma FreshLater(byConv: Conversations, snapshots: map<string, seq<string>>, asOf: map<string, int>, clock: int, later: int)
    requires FreshAt(byConv, snapshots, asOf, clock) && clock <= later
    ensures FreshAt(byConv, snapshots, asOf, later)
  {}

  /** Changing one conversation and then recomputing its snapshot. */
  lemma FreshAfter(byConv: Conversations, byConv': Conversations, snapshots: map<string, seq<string>>,
                   asOf: map<string, int>, clock: int, conv: string, t: int)
    requires FreshAt(byConv, snapshots, asOf, clock) && t <= clock
    requires forall c :: c != conv ==> SendersAt(byConv', c) == SendersAt(byConv, c)
    ensures FreshAt(byConv', snapshots[conv := LiveIds(SendersAt(byConv', conv), t)], asOf[conv := t], clock)
  {
    hide LiveIds;
  }

  /** What is left of s when the walk over it has reached position k. */
  function Left(s: Senders, k: nat, t: int): (r: Senders)
    requires k <= |s|
    ensures |r| <= |s|
  {
    Unexpired(s[..k], t) + s[k..]
  }

  lemma LeftEnds(s: Senders, t: int)
    ensures Left(s, 0, t) == s && Left(s, |s|, t) == Unexpired(s, t)
  {
    assert s[..|s|] == s;
  }

  lemma RemoveMiddle(a: Senders, e: Entry, b: Senders)
    requires forall i :: 0 <= i < |a| ==> a[i].id != e.id
    ensures WithoutSender(a + ([e] + b), e.id) == a + b
  {
    var s := a + ([e] + b);
    var i := IndexOf(s, e.id);
    assert s[|a|] == e && forall k :: 0 <= k < |a| ==> s[k] == a[k];
    assert s[..|a|] == a && s[|a| + 1..] == b;
  }

  lemma LeftShape(s: Senders, k: nat, t: int)
    requires k < |s|
    ensures Left(s, k, t) == Unexpired(s[..k], t) + ([s[k]] + s[k + 1..])
    ensures Left(s, k + 1, t) == (if s[k].expiry > t then Unexpired(s[..k], t) + [s[k]] else Unexpired(s[..k], t)) + s[k + 1..]
  {
    UnexpiredAppend(s[..k], s[k], t);
    hide Unexpired;
    assert s[..k + 1] == s[..k] + [s[k]] && s[k..] == [s[k]] + s[k + 1..];
    assert Unexpired(s[..k], t) + [] == Unexpired(s[..k], t);
  }

  lemma EarlierIds(s: Senders, k: nat, t: int)
    requires Distinct(s) && k < |s|
    ensures forall i :: 0 <= i < |Unexpired(s[..k], t)| ==> Unexpired(s[..k], t)[i].id != s[k].id
  {
    var kept := Unexpired(s[..k], t);
    forall i | 0 <= i < |kept| ensures kept[i].id != s[k].id {
      UnexpiredMember(s[..k], t, kept[i]);
    }
  }

  lemma LeftNext(s: Senders, k: nat, t: int)
    requires Distinct(s) && k < |s|
    ensures s[k].expiry <= t ==>
              WithoutSender(Left(s, k, t), s[k].id) == Left(s, k + 1, t) && |Left(s, k + 1, t)| == |Left(s, k, t)| - 1
    ensures s[k].expiry > t ==> Left(s, k + 1, t) == Left(s, k, t)
  {
    hide *;
    var kept, rest := Unexpired(s[..k], t), s[k + 1..];
    EarlierIds(s, k, t);
    LeftShape(s, k, t);
    RemoveMiddle(kept, s[k], rest);
    assert kept + ([s[k]] + rest) == kept + [s[k]] + rest;
  }

  /** Nothing was dropped only if nothing has changed. */
  lemma ShorterIfDifferent(s: Senders, t: int)
    ensures |Unexpired(s, t)| < |s| <==> Unexpired(s, t) != s
  {
    if |Unexpired(s, t)| == |s| {
      UnexpiredFull(s, t);
    }
  }

  class TypingStore {
    var byConv: Conversations
    var snapshots: map<string, seq<string>>
    var armed: bool
    /** The latest reading of the clock, and the reading each snapshot was computed at. */
    ghost var clock: int
    ghost var asOf: map<string, int>

    ghost predicate Valid()
      reads this
    {
      && WellFormed(byConv)
      && FreshAt(byConv, snapshots, asOf, clock)
      && (byConv != map[] ==> armed)
    }

    constructor (ghost now: int)
      ensures Valid() && byConv == map[] && snapshots == map[] && clock == now
    {
      byConv, snapshots, armed := map[], map[], false;
      clock, asOf := now, map[];
    }

    method Compute(conv: string, now: int) returns (live: seq<string>)
      ensures live == LiveIds(SendersAt(byConv, conv), now)
    {
      var s := SendersAt(byConv, conv);
      live := [];
      var i := 0;
      while i < |s|
        invariant 0 <= i <= |s|
        invariant live == LiveIds(s[..i], now)
      {
        UnexpiredAppend(s[..i], s[i], now);
        assert s[..i + 1] == s[..i] + [s[i]];
        if s[i].expiry > now {
          live := live + [s[i].id];
        }
        i := i + 1;
      }
      assert s[..i] == s;
    }

    /** Keeps the cached array when the contents are the same. */
    method Invalidate(conv: string, now: int)
      modifies this`snapshots, this`asOf
      ensures snapshots == old(snapshots)[conv := LiveIds(SendersAt(byConv, conv), now)]
      ensures asOf == old(asOf)[conv := now]
    {
      var next := Compute(conv, now);
      asOf := asOf[conv := now];
      if conv in snapshots && snapshots[conv] == next {
        return;
      }
      snapshots := snapshots[conv := next];
    }

    method ReceiveTyping(conv: string, id: string, typing: bool, now: int, later: int) returns (emitted: bool)
      requires Valid() && clock <= now <= later
      modifies this
      ensures Valid() && clock == later
      ensures byConv == Signalled(old(byConv), conv, id, typing, now)
      ensures emitted ==> snapshots == old(snapshots)[conv := LiveIds(SendersAt(byConv, conv), later)]
      ensures !emitted ==> snapshots == old(snapshots) && byConv == old(byConv)
      ensures emitted <==> typing || conv in old(byConv)
    {
      SignalledWellFormed(byConv, conv, id, typing, now);
      FreshLater(byConv, snapshots, asOf, clock, later);
      clock := later;
      var changed := Signal(conv, id, typing, now);
      if !changed {
        return false;
      }
      hide FreshAt, WellFormed, LiveIds, WithSender, WithoutSender;
      FreshAfter(old(byConv), byConv, snapshots, asOf, clock, conv, later);
      Invalidate(conv, later);
      emitted := true;
    }

    /** The three branches of receiveTyping. */
    method Signal(conv: string, id: string, typing: bool, now: int) returns (changed: bool)
      modifies this`byConv, this`armed
      ensures byConv == Signalled(old(byConv), conv, id, typing, now)
      ensures armed == (typing || old(armed))
      ensures changed <==> typing || conv in old(byConv)
      ensures !changed ==> byConv == old(byConv)
    {
      var s := SendersAt(byConv, conv);
      if typing {
        byConv := byConv[conv := WithSender(s, id, now + TTL)];
        armed := true;
      } else if conv in byConv {
        byConv := byConv[conv := WithoutSender(s, id)];
        if |byConv[conv]| == 0 {
          byConv := byConv - {conv};
          assert byConv == old(byConv) - {conv};
        }
      } else {
        assert byConv == byConv - {conv};
        return false;
      }
      changed := true;
    }

    /** Does not stop the timer; the next sweep finds nothing and does. */
    method Clear() returns (emitted: bool)
      requires Valid()
      modifies this
      ensures Valid() && clock == old(clock) && byConv == map[]
      ensures if emitted then snapshots == map[] else snapshots == old(snapshots) && byConv == old(byConv)
    {
      if |byConv| == 0 {
        return false;
      }
      byConv, snapshots, asOf := map[], map[], map[];
      emitted := true;
    }

    /** Whatever is returned, cached or not, misses no live sender and shows no stopped one. */
    method GetTyping(conv: string, now: int) returns (ids: seq<string>)
      requires Valid() && clock <= now
      modifies this`snapshots, this`asOf, this`clock
      ensures Valid() && clock == now && byConv == old(byConv)
      ensures snapshots == old(snapshots)[conv := ids]
      ensures forall e :: e in SendersAt(byConv, conv) && e.expiry > now ==> e.id in ids
      ensures forall id :: id in ids ==> exists e :: e in SendersAt(byConv, conv) && e.id == id
      ensures conv !in old(snapshots) ==> ids == LiveIds(SendersAt(byConv, conv), now)
    {
      hide LiveIds, WellFormed, SendersAt;
      clock := now;
      if conv !in snapshots {
        var live := Compute(conv, now);
        snapshots, asOf := snapshots[conv := live], asOf[conv := now];
      }
      ids := snapshots[conv];
      CachedShows(SendersAt(byConv, conv), asOf[conv], now);
    }

    /** The inner loop of the sweep: deletes the expired senders of one conversation while
        walking over it. */
    static method Expire(s: Senders, now: int) returns (r: Senders, dropped: bool)
      requires Distinct(s)
      ensures r == Unexpired(s, now)
      ensures dropped <==> |r| < |s|
    {
      hide *;
      r, dropped := s, false;
      LeftEnds(s, now);
      for k := 0 to |s|
        invariant r == Left(s, k, now) && |r| <= |s|
        invariant dropped <==> |r| < |s|
      {
        LeftNext(s, k, now);
        if s[k].expiry <= now {
          r := WithoutSender(r, s[k].id);
          dropped := true;
        }
      }
    }

    /** The timer's callback. Conversations are visited in any order; once one has changed,
        every later one is looked at again too. at gives the clock when a conversation is. */
    method Sweep(now: int, at: string -> int, later: int) returns (emitted: bool)
      requires Valid() && armed && clock <= now <= later && forall c :: now <= at(c) <= later
      modifies this
      ensures Valid() && clock == later
      ensures byConv == Swept(old(byConv), now, old(byConv).Keys)
      ensures armed <==> byConv != map[]
      ensures !emitted ==> snapshots == old(snapshots) && byConv == old(byConv)
    {
      assert forall c :: c in byConv ==> byConv[c] != [] && Distinct(byConv[c]);
      hide LiveIds, Unexpired, WellFormed, FreshAt, Swept, Distinct;
      ghost var before := byConv;
      var rest := byConv.Keys;
      SweptNothing(before, now);
      assert before.Keys - rest == {};
      emitted := false;
      FreshLater(byConv, snapshots, asOf, clock, later);
      clock := later;
      while rest != {}
        invariant rest <= before.Keys
        invariant byConv == Swept(before, now, before.Keys - rest)
        invariant FreshAt(byConv, snapshots, asOf, later) && clock == later
        invariant !emitted ==> snapshots == old(snapshots) && byConv == before
        invariant armed
      {
        var conv :| conv in rest;
        SweptOneMore(before, now, before.Keys - rest, conv);
        var changed := Visit(conv, now, at(conv), emitted);
        assert before.Keys - (rest - {conv}) == before.Keys - rest + {conv};
        rest := rest - {conv};
        emitted := emitted || changed;
      }
      assert before.Keys - rest == before.Keys;
      SweptValid(before, now);
      if |byConv| == 0 {
        armed := false;
      }
    }

    /** One turn of the outer loop. */
    method Visit(conv: string, now: int, reading: int, changedBefore: bool) returns (changed: bool)
      requires conv in byConv && byConv[conv] != [] && Distinct(byConv[conv])
      requires FreshAt(byConv, snapshots, asOf, clock) && reading <= clock
      modifies this`byConv, this`snapshots, this`asOf
      ensures byConv == Put(old(byConv), conv, Unexpired(old(byConv)[conv], now))
      ensures FreshAt(byConv, snapshots, asOf, clock)
      ensures changed <==> Unexpired(old(byConv)[conv], now) != old(byConv)[conv]
      ensures !changed ==> byConv == old(byConv)
      ensures !changed && !changedBefore ==> snapshots == old(snapshots)
    {
      hide LiveIds, Unexpired, FreshAt;
      var s;
      ShorterIfDifferent(byConv[conv], now);
      s, changed := Expire(byConv[conv], now);
      byConv := byConv[conv := s];
      if |s| == 0 {
        byConv := byConv - {conv};
        assert byConv == old(byConv) - {conv};
      }
      if changed || changedBefore {
        FreshAfter(old(byConv), byConv, snapshots, asOf, clock, conv, reading);
        Invalidate(conv, reading);
      }
      if !changed {
        assert byConv == old(byConv);
      }
    }
  }

  lemma SweptNothing(byConv: Conversations, t: int)
    ensures Swept(byConv, t, {}) == byConv
  {}

  lemma SweptOneMore(byConv: Conversations, t: int, visited: set<string>, c: string)
    requires c in byConv && c !in visited
    ensures var w := Swept(byConv, t, visited);
            c in w && w[c] == byConv[c] && Swept(byConv, t, visited + {c}) == Put(w, c, Unexpired(byConv[c], t))
  {
    hide Unexpired;
  }

  lemma SweptValid(byConv: Conversations, t: int)
    requires WellFormed(byConv)
    ensures WellFormed(Swept(byConv, t, byConv.Keys))
  {
    forall c | c in byConv ensures Distinct(Unexpired(byConv[c], t)) {
      UnexpiredDistinct(byConv[c], t);
    }
  }

  /** After a sweep, whose clock may have moved on to later meanwhile, every cached snapshot
      is exactly the senders that are left, in insertion order, all of them live, as long as
      none of them has expired by then. */
  lemma SnapshotsAfterSweep(byConv: Conversations, snapshots: map<string, seq<string>>, asOf: map<string, int>,
                            now: int, later: int, c: string)
    requires FreshAt(Swept(byConv, now, byConv.Keys), snapshots, asOf, later) && c in snapshots && now <= later
    requires forall e :: e in Unexpired(SendersAt(byConv, c), now) ==> e.expiry > later
    ensures var left := SendersAt(Swept(byConv, now, byConv.Keys), c);
            snapshots[c] == Ids(left) == LiveIds(left, later) && left == Unexpired(SendersAt(byConv, c), now)
  {
    var left := Unexpired(SendersAt(byConv, c), now);
    SweptSenders(byConv, c, now);
    hide Swept, SendersAt;
    assert forall i :: 0 <= i < |left| ==> left[i] in left;
    UnexpiredAll(left, later);
    UnexpiredAll(left, asOf[c]);
  }

  /** Without a moving clock the condition always holds. */
  lemma NothingLeftHasExpired(byConv: Conversations, c: string, now: int)
    ensures forall e :: e in Unexpired(SendersAt(byConv, c), now) ==> e.expiry > now
  {
    forall e | e in Unexpired(SendersAt(byConv, c), now) ensures e.expiry > now {
      UnexpiredMember(SendersAt(byConv, c), now, e);
    }
  }

  lemma SweptSenders(byConv: Conversations, c: string, now: int)
    ensures SendersAt(Swept(byConv, now, byConv.Keys), c) == Unexpired(SendersAt(byConv, c), now)
  {}

  /** An indicator is gone after the first sweep at or after its expiry, and a sweep takes
      no indicator before that. */
  lemma GoneAfterSweep(byConv: Conversations, c: string, e: Entry, now: int)
    ensures e in SendersAt(Swept(byConv, now, byConv.Keys), c) <==> e in SendersAt(byConv, c) && e.expiry > now
  {
    UnexpiredMember(SendersAt(byConv, c), now, e);
  }
}
