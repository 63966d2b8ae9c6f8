/** What the app's threads hold after any run: a plain reading of what was sent, received and
    read, action by action and peer by peer, and that the store's list of threads comes to
    the same. */
module ThreadRuns {
  import opened Envelope
  import opened Options
  import opened DeliveryStatus
  import opened Conversations
  import opened TickRuns

  /** A message without its delivery status. */
  datatype Held = Held(id: string, text: string, mine: bool, at: int, clientRef: Option<string>,
                       envelopeId: Option<string>, readSent: bool, senderId: Option<string>)

  datatype Page = Page(held: seq<Held>, unread: nat, lastAt: int, group: bool)

  const NEW_PAGE := Page([], 0, 0, false)

  // --- the plain reading ---

  /** How many messages were made since the last reset. */
  function Made(actions: seq<Action>): nat {
    if actions == [] then 0
    else
      var before := Made(actions[..|actions| - 1]);
      match actions[|actions| - 1]
      case Send(_, _, _, _) => before + 1
      case Receive(_, _, _, _) => before + 1
      case ReceiveGroup(_, _, _, _, _) => before + 1
      case Reset => 0
      case _ => before
  }

  function With(p: Page, h: Held, at: int): Page { p.(held := p.held + [h], lastAt := at) }

  /** An inbound message is one more unread one. */
  function WithInbound(p: Page, h: Held, at: int): Page { With(p, h, at).(unread := p.unread + 1) }

  /** The messages that carry an envelope id have had their receipt. */
  function ReadUp(p: Page): Page {
    p.(held := seq(|p.held|, i requires 0 <= i < |p.held| =>
         if !p.held[i].mine && p.held[i].envelopeId.Some? && p.held[i].envelopeId.value != ""
         then p.held[i].(readSent := true) else p.held[i]),
       unread := 0)
  }

  /** An empty envelope id is not recorded. */
  function Recorded(env: Option<string>): Option<string> { if env == Some("") then None else env }

  /** What one action makes of the page of one peer; without a page there is no thread. */
  function Turned(p: Option<Page>, peer: string, made: nat, a: Action): Option<Page> {
    var page := if p.Some? then p.value else NEW_PAGE;
    match a
    case Send(to, text, at, at36) =>
      if to != peer then p
      else
        var ref := if page.group then None else Some(RefFor(made + 1, at36));
        Some(With(page, Held(MessageId(made), text, true, at, ref, None, false, None), at))
    case Receive(from, text, at, env) =>
      if from != peer then p
      else Some(WithInbound(page, Held(MessageId(made), text, false, at, None, Recorded(env), false, None), at))
    case ReceiveGroup(gid, sender, text, at, env) =>
      if gid != peer then p
      else
        var h := Held(MessageId(made), text, false, at, None, Recorded(env), false, Some(sender));
        Some(WithInbound(page.(group := true), h, at))
    case CreateGroup(gid, at) => if gid != peer then p else Some(page.(group := true, lastAt := at))
    case MarkRead(of) => if of != peer || p.None? then p else Some(ReadUp(p.value))
    case Arrive(_) => p
    case Reset => None
  }

  function PageFor(actions: seq<Action>, peer: string): Option<Page> {
    if actions == [] then None
    else
      var before := actions[..|actions| - 1];
      Turned(PageFor(before, peer), peer, Made(before), actions[|actions| - 1])
  }

  // --- the store's threads, read alike ---

  function HeldOf(m: Msg): Held {
    Held(m.id, m.text, m.mine, m.at, m.clientRef, m.envelopeId, m.readSent, m.senderId)
  }

  function AllHeld(ms: seq<Msg>): (r: seq<Held>)
    ensures |r| == |ms|
  {
    seq(|ms|, i requires 0 <= i < |ms| => HeldOf(ms[i]))
  }

  function PageOf(t: Thread): Page { Page(AllHeld(t.messages), t.unread, t.lastAt, t.group) }

  function PageAt(ts: seq<Thread>, peer: string): Option<Page> {
    var i := IndexOfPeer(ts, peer);
    if i < |ts| then Some(PageOf(ts[i])) else None
  }

  ghost predicate DistinctPeers(ts: seq<Thread>) {
    forall a, b :: 0 <= a < b < |ts| ==> ts[a].peer != ts[b].peer
  }

  /** The threads of r are those of ts, but the one of this peer has this page. */
  ghost predicate TurnsTo(ts: seq<Thread>, r: seq<Thread>, peer: string, page: Page) {
    && (DistinctPeers(ts) ==> DistinctPeers(r))
    && forall p :: PageAt(r, p) == if p == peer then Some(page) else PageAt(ts, p)
  }

  function PageOrNew(ts: seq<Thread>, peer: string): Page {
    if PageAt(ts, peer).Some? then PageAt(ts, peer).value else NEW_PAGE
  }

  lemma {:induction false} IndexIs(ts: seq<Thread>, peer: string, i: nat)
    requires i <= |ts| && (i < |ts| ==> ts[i].peer == peer) && forall k :: 0 <= k < i ==> ts[k].peer != peer
    ensures IndexOfPeer(ts, peer) == i
  {
    if i > 0 {
      IndexIs(ts[1..], peer, i - 1);
    }
  }

  lemma EnsuredTurns(ts: seq<Thread>, peer: string)
    ensures TurnsTo(ts, Ensured(ts, peer), peer, PageOrNew(ts, peer))
  {
    var r := Ensured(ts, peer);
    assert AllHeld([]) == [];
    forall p ensures PageAt(r, p) == if p == peer then Some(PageOrNew(ts, peer)) else PageAt(ts, p) {
      var i := IndexOfPeer(ts, p);
      if i < |ts| || p == peer {
        IndexIs(r, p, i);
      } else {
        IndexIs(r, p, |r|);
      }
      hide AllHeld;
    }
  }

  lemma ReplacedTurns(ts: seq<Thread>, peer: string, t: Thread)
    requires IndexOfPeer(ts, peer) < |ts| && t.peer == peer
    ensures TurnsTo(ts, ts[IndexOfPeer(ts, peer) := t], peer, PageOf(t))
  {
    hide PageOf;
    var r := ts[IndexOfPeer(ts, peer) := t];
    forall p ensures PageAt(r, p) == if p == peer then Some(PageOf(t)) else PageAt(ts, p) {
      IndexIs(r, p, IndexOfPeer(ts, p));
    }
  }

  lemma TurnsOn(ts: seq<Thread>, r: seq<Thread>, q: seq<Thread>, peer: string, page: Page, page': Page)
    requires TurnsTo(ts, r, peer, page) && TurnsTo(r, q, peer, page')
    ensures TurnsTo(ts, q, peer, page')
  {
    hide PageAt, DistinctPeers;
  }

  lemma HeldAppend(ms: seq<Msg>, m: Msg)
    ensures AllHeld(ms + [m]) == AllHeld(ms) + [HeldOf(m)]
  {
    hide HeldOf;
  }

  function PageWith(page: Page, h: Held, unread: nat, at: int): Page {
    Page(page.held + [h], page.unread + unread, at, page.group)
  }

  lemma AppendedPage(t: Thread, m: Msg, unread: nat, at: int)
    ensures PageOf(Appended(t, m, unread, at)) == PageWith(PageOf(t), HeldOf(m), unread, at)
  {
    HeldAppend(t.messages, m);
    hide AllHeld, HeldOf;
  }

  /** One more message at the end of the peer's thread. */
  lemma AppendTurns(ts: seq<Thread>, peer: string, m: Msg, unread: nat, at: int)
    requires IndexOfPeer(ts, peer) < |ts|
    ensures var i := IndexOfPeer(ts, peer);
            TurnsTo(ts, ts[i := Appended(ts[i], m, unread, at)], peer,
                    PageWith(PageOrNew(ts, peer), HeldOf(m), unread, at))
  {
    var i := IndexOfPeer(ts, peer);
    AppendedPage(ts[i], m, unread, at);
    ReplacedTurns(ts, peer, Appended(ts[i], m, unread, at));
    hide TurnsTo, HeldOf, PageOf, PageWith;
  }

  // --- the actions ---

  lemma Found(ts: seq<Thread>, r: seq<Thread>, peer: string, page: Page)
    requires TurnsTo(ts, r, peer, page)
    ensures IndexOfPeer(r, peer) < |r| && PageOf(r[IndexOfPeer(r, peer)]) == page && PageOrNew(r, peer) == page
  {
    hide DistinctPeers;
    assert PageAt(r, peer) == Some(page);
  }

  lemma EnsuredIndex(ts: seq<Thread>, peer: string)
    ensures IndexOfPeer(Ensured(ts, peer), peer) == IndexOfPeer(ts, peer)
  {
    IndexIs(Ensured(ts, peer), peer, IndexOfPeer(ts, peer));
  }

  lemma SendTurns(ts: seq<Thread>, counter: nat, peer: string, text: string, at: int, at36: string)
    ensures var page := PageOrNew(ts, peer);
            TurnsTo(ts, SentTo(ts, counter, peer, text, at, at36), peer,
                    PageWith(page, HeldOf(Outbound(counter, text, at, at36, page.group)), 0, at))
  {
    hide TurnsTo, HeldOf, PageWith, Outbound, PageOrNew;
    var r, page := Ensured(ts, peer), PageOrNew(ts, peer);
    EnsuredTurns(ts, peer);
    EnsuredIndex(ts, peer);
    Found(ts, r, peer, page);
    var m := Outbound(counter, text, at, at36, page.group);
    AppendTurns(r, peer, m, 0, at);
    TurnsOn(ts, r, SentTo(ts, counter, peer, text, at, at36), peer, page, PageWith(page, HeldOf(m), 0, at));
  }

  lemma ReceiveTurns(ts: seq<Thread>, counter: nat, peer: string, text: string, at: int, env: Option<string>)
    ensures TurnsTo(ts, ReceivedFrom(ts, counter, peer, text, at, env), peer,
                    PageWith(PageOrNew(ts, peer), HeldOf(Inbound(counter, text, at, env)), 1, at))
  {
    hide TurnsTo, HeldOf, PageWith, Inbound, PageOrNew;
    var r, page := Ensured(ts, peer), PageOrNew(ts, peer);
    EnsuredTurns(ts, peer);
    EnsuredIndex(ts, peer);
    Found(ts, r, peer, page);
    var m := Inbound(counter, text, at, env);
    AppendTurns(r, peer, m, 1, at);
    TurnsOn(ts, r, ReceivedFrom(ts, counter, peer, text, at, env), peer, page, PageWith(page, HeldOf(m), 1, at));
  }

  lemma GroupEnsuredTurns(ts: seq<Thread>, gid: string)
    ensures TurnsTo(ts, GroupEnsured(ts, gid), gid, PageOrNew(ts, gid).(group := true))
    ensures IndexOfPeer(GroupEnsured(ts, gid), gid) == IndexOfPeer(ts, gid)
  {
    hide TurnsTo, PageOrNew, AllHeld;
    var r, page, i := Ensured(ts, gid), PageOrNew(ts, gid), IndexOfPeer(ts, gid);
    EnsuredTurns(ts, gid);
    EnsuredIndex(ts, gid);
    Found(ts, r, gid, page);
    ReplacedTurns(r, gid, r[i].(group := true));
    IndexIs(GroupEnsured(ts, gid), gid, i);
    TurnsOn(ts, r, GroupEnsured(ts, gid), gid, page, page.(group := true));
  }

  lemma CreateTurns(ts: seq<Thread>, gid: string, at: int)
    ensures TurnsTo(ts, GroupCreated(ts, gid, at), gid, PageOrNew(ts, gid).(group := true, lastAt := at))
  {
    hide TurnsTo, PageOrNew, AllHeld, GroupEnsured;
    var r, page, i := GroupEnsured(ts, gid), PageOrNew(ts, gid).(group := true), IndexOfPeer(ts, gid);
    GroupEnsuredTurns(ts, gid);
    Found(ts, r, gid, page);
    ReplacedTurns(r, gid, r[i].(lastAt := at));
    TurnsOn(ts, r, GroupCreated(ts, gid, at), gid, page, page.(lastAt := at));
  }

  lemma GroupReceiveTurns(ts: seq<Thread>, counter: nat, gid: string, sender: string, text: string, at: int,
                          env: Option<string>)
    ensures TurnsTo(ts, GroupReceived(ts, counter, gid, sender, text, at, env), gid,
                    PageWith(PageOrNew(ts, gid).(group := true), HeldOf(GroupInbound(counter, sender, text, at, env)), 1, at))
  {
    hide TurnsTo, PageOrNew, HeldOf, PageWith, GroupInbound, GroupEnsured;
    var r, page := GroupEnsured(ts, gid), PageOrNew(ts, gid).(group := true);
    GroupEnsuredTurns(ts, gid);
    Found(ts, r, gid, page);
    var m := GroupInbound(counter, sender, text, at, env);
    AppendTurns(r, gid, m, 1, at);
    TurnsOn(ts, r, GroupReceived(ts, counter, gid, sender, text, at, env), gid, page, PageWith(page, HeldOf(m), 1, at));
  }

  lemma ReadPage(t: Thread)
    ensures PageOf(MarkedRead(t)) == ReadUp(PageOf(t))
  {
    assert PageOf(MarkedRead(t)).held == ReadUp(PageOf(t)).held;
  }

  lemma ReadTurns(ts: seq<Thread>, peer: string)
    ensures IndexOfPeer(ts, peer) == |ts| ==> ReadThread(ts, peer) == ts
    ensures IndexOfPeer(ts, peer) < |ts| ==> TurnsTo(ts, ReadThread(ts, peer), peer, ReadUp(PageOrNew(ts, peer)))
  {
    var i := IndexOfPeer(ts, peer);
    if i < |ts| {
      ReadPage(ts[i]);
      ReplacedTurns(ts, peer, MarkedRead(ts[i]));
      hide TurnsTo, PageOf, ReadUp, MarkedRead;
    }
  }

  /** An update changes a message's status and nothing else. */
  lemma {:induction false} AppliedPage(ts: seq<Thread>, u: Update, a: nat)
    requires a < |ts|
    ensures Applied(ts, u)[a].peer == ts[a].peer && PageOf(Applied(ts, u)[a]) == PageOf(ts[a])
  {
    var ms := ts[0].messages;
    var i := IndexOfRef(ms, u.clientRef);
    if i < |ms| {
      RaisedHeld(ms, i, u.status);
      hide AllHeld;
    } else if a > 0 {
      AppliedPage(ts[1..], u, a - 1);
      hide PageOf;
    }
  }

  lemma RaisedHeld(ms: seq<Msg>, i: nat, s: Status)
    requires i < |ms|
    ensures AllHeld(ms[i := Raised(ms[i], s)]) == AllHeld(ms)
  {
    hide Rank, RankOf;
  }

  lemma SamePages(ts: seq<Thread>, r: seq<Thread>)
    requires |r| == |ts| && forall a :: 0 <= a < |ts| ==> r[a].peer == ts[a].peer && PageOf(r[a]) == PageOf(ts[a])
    ensures (DistinctPeers(ts) ==> DistinctPeers(r)) && forall p :: PageAt(r, p) == PageAt(ts, p)
  {
    hide PageOf;
    forall p ensures PageAt(r, p) == PageAt(ts, p) {
      IndexIs(r, p, IndexOfPeer(ts, p));
    }
  }

  // --- runs ---

  lemma SendPage(page: Page, made: nat, text: string, at: int, at36: string, peer: string, p: Option<Page>)
    requires page == if p.Some? then p.value else NEW_PAGE
    ensures Some(PageWith(page, HeldOf(Outbound(made, text, at, at36, page.group)), 0, at))
         == Turned(p, peer, made, Send(peer, text, at, at36))
  {
    hide MessageId, RefFor;
  }

  lemma ReceivePage(page: Page, made: nat, text: string, at: int, env: Option<string>, peer: string, p: Option<Page>)
    requires page == if p.Some? then p.value else NEW_PAGE
    ensures Some(PageWith(page, HeldOf(Inbound(made, text, at, env)), 1, at))
         == Turned(p, peer, made, Receive(peer, text, at, env))
  {
    hide MessageId, RefFor;
  }

  lemma GroupPage(page: Page, made: nat, sender: string, text: string, at: int, env: Option<string>,
                  gid: string, p: Option<Page>)
    requires page == if p.Some? then p.value else NEW_PAGE
    ensures Some(PageWith(page.(group := true), HeldOf(GroupInbound(made, sender, text, at, env)), 1, at))
         == Turned(p, gid, made, ReceiveGroup(gid, sender, text, at, env))
  {
    hide MessageId, RefFor;
  }

  /** One action turns the pages as the plain reading does. */
  ghost predicate TurnsAll(ts: seq<Thread>, made: nat, a: Action, r: seq<Thread>) {
    && (DistinctPeers(ts) ==> DistinctPeers(r))
    && forall p :: PageAt(r, p) == Turned(PageAt(ts, p), p, made, a)
  }

  lemma TurnsOne(ts: seq<Thread>, made: nat, a: Action, r: seq<Thread>, peer: string, page: Page)
    requires TurnsTo(ts, r, peer, page) && Turned(PageAt(ts, peer), peer, made, a) == Some(page)
    requires forall p :: p != peer ==> Turned(PageAt(ts, p), p, made, a) == PageAt(ts, p)
    ensures TurnsAll(ts, made, a, r)
  {
    hide DistinctPeers, PageAt, Turned;
  }

  lemma OtherPeers(p: Option<Page>, other: string, made: nat, a: Action, peer: string)
    requires other != peer
    requires match a
             case Send(to, _, _, _) => to == peer
             case Receive(from, _, _, _) => from == peer
             case ReceiveGroup(gid, _, _, _, _) => gid == peer
             case CreateGroup(gid, _) => gid == peer
             case MarkRead(of) => of == peer
             case _ => false
    ensures Turned(p, other, made, a) == p
  {}

  lemma PeerTurns(ts: seq<Thread>, made: nat, a: Action, r: seq<Thread>, peer: string, page: Page)
    requires TurnsTo(ts, r, peer, page) && Turned(PageAt(ts, peer), peer, made, a) == Some(page)
    requires match a
             case Send(to, _, _, _) => to == peer
             case Receive(from, _, _, _) => from == peer
             case ReceiveGroup(gid, _, _, _, _) => gid == peer
             case CreateGroup(gid, _) => gid == peer
             case MarkRead(of) => of == peer
             case _ => false
    ensures TurnsAll(ts, made, a, r)
  {
    hide TurnsTo, TurnsAll, Turned, PageAt;
    forall p | p != peer ensures Turned(PageAt(ts, p), p, made, a) == PageAt(ts, p) {
      OtherPeers(PageAt(ts, p), p, made, a, peer);
    }
    TurnsOne(ts, made, a, r, peer, page);
  }

  lemma SameTurns(ts: seq<Thread>, made: nat, a: Action, r: seq<Thread>)
    requires (DistinctPeers(ts) ==> DistinctPeers(r)) && forall p :: PageAt(r, p) == PageAt(ts, p)
    requires a.Arrive? || (a.MarkRead? && PageAt(ts, a.peer) == None)
    ensures TurnsAll(ts, made, a, r)
  {
    hide DistinctPeers, PageAt;
  }

  lemma NoThreads(made: nat, ts: seq<Thread>)
    ensures TurnsAll(ts, made, Action.Reset, [])
  {
    forall p ensures PageAt([], p) == None {}
    hide PageAt;
  }

  lemma ArriveTurns(w: World, e: Event)
    ensures TurnsAll(w.threads, w.counter, Arrive(e), Apply(w, Arrive(e)).threads)
  {
    hide TurnsAll, PageOf, PageAt, DistinctPeers, Handled;
    var u := Handled(w.bound, e).1;
    if u.Some? {
      forall a | 0 <= a < |w.threads|
        ensures Applied(w.threads, u.value)[a].peer == w.threads[a].peer
        ensures PageOf(Applied(w.threads, u.value)[a]) == PageOf(w.threads[a])
      {
        AppliedPage(w.threads, u.value, a);
      }
      hide Applied;
      SamePages(w.threads, Applied(w.threads, u.value));
    }
    SameTurns(w.threads, w.counter, Arrive(e), Apply(w, Arrive(e)).threads);
  }

  lemma StepTurns(w: World, a: Action)
    ensures TurnsAll(w.threads, w.counter, a, Apply(w, a).threads)
  {
    var ts := w.threads;
    hide TurnsAll, TurnsTo, Turned, HeldOf, PageWith, ReadUp, RefFor, ToGroup, DistinctPeers;
    hide SentTo, ReceivedFrom, GroupReceived, GroupCreated, ReadThread, Inbound, GroupInbound, Outbound;
    match a
    case Send(peer, text, at, at36) =>
      var page := PageOrNew(ts, peer);
      SendTurns(ts, w.counter, peer, text, at, at36);
      SendPage(page, w.counter, text, at, at36, peer, PageAt(ts, peer));
      PeerTurns(ts, w.counter, a, Apply(w, a).threads, peer,
                PageWith(page, HeldOf(Outbound(w.counter, text, at, at36, page.group)), 0, at));
    case Receive(peer, text, at, env) =>
      ReceiveTurns(ts, w.counter, peer, text, at, env);
      ReceivePage(PageOrNew(ts, peer), w.counter, text, at, env, peer, PageAt(ts, peer));
      PeerTurns(ts, w.counter, a, Apply(w, a).threads, peer,
                PageWith(PageOrNew(ts, peer), HeldOf(Inbound(w.counter, text, at, env)), 1, at));
    case ReceiveGroup(gid, sender, text, at, env) =>
      GroupReceiveTurns(ts, w.counter, gid, sender, text, at, env);
      GroupPage(PageOrNew(ts, gid), w.counter, sender, text, at, env, gid, PageAt(ts, gid));
      PeerTurns(ts, w.counter, a, Apply(w, a).threads, gid,
                PageWith(PageOrNew(ts, gid).(group := true), HeldOf(GroupInbound(w.counter, sender, text, at, env)), 1, at));
    case CreateGroup(gid, at) =>
      CreateTurns(ts, gid, at);
      CreatePage(PageAt(ts, gid), gid, w.counter, at);
      PeerTurns(ts, w.counter, a, Apply(w, a).threads, gid, PageOrNew(ts, gid).(group := true, lastAt := at));
    case MarkRead(peer) =>
      ReadTurns(ts, peer);
      if PageAt(ts, peer).Some? {
        ReadTo(PageAt(ts, peer), peer, w.counter);
        PeerTurns(ts, w.counter, a, Apply(w, a).threads, peer, ReadUp(PageOrNew(ts, peer)));
      } else {
        SameTurns(ts, w.counter, a, ts);
      }
    case Arrive(e) => ArriveTurns(w, e);
    case Reset => NoThreads(w.counter, ts);
  }

  lemma CreatePage(p: Option<Page>, gid: string, made: nat, at: int)
    ensures Turned(p, gid, made, CreateGroup(gid, at))
         == Some((if p.Some? then p.value else NEW_PAGE).(group := true, lastAt := at))
  {}

  lemma ReadTo(p: Option<Page>, peer: string, made: nat)
    requires p.Some?
    ensures Turned(p, peer, made, MarkRead(peer)) == Some(ReadUp(p.value))
  {}

  /** After any run there is one thread for each peer sent to or received from and each group
      created since the last reset. It holds in order what was sent and received, and counts
      as unread what was received since it was last read. */
  lemma {:induction false} PagesExactly(actions: seq<Action>)
    ensures var w := Run(START, actions);
            && DistinctPeers(w.threads) && w.counter == Made(actions)
            && forall p :: PageAt(w.threads, p) == PageFor(actions, p)
  {
    if actions != [] {
      var before := actions[..|actions| - 1];
      PagesExactly(before);
      StepTurns(Run(START, before), actions[|actions| - 1]);
      StepMade(Run(START, before), actions[|actions| - 1]);
      hide Apply, DistinctPeers, PageAt, Turned;
    }
  }

  lemma StepMade(w: World, a: Action)
    ensures Apply(w, a).counter == if a.Send? || a.Receive? || a.ReceiveGroup? then w.counter + 1
                                   else if a.Reset? then 0 else w.counter
  {
    hide RefFor, ToGroup, SentTo, ReceivedFrom, GroupReceived, GroupCreated, ReadThread, Handled, Applied;
  }

  /** Messages with different numbers have different ids. */
  lemma IdInjective(m: nat, n: nat)
    requires MessageId(m) == MessageId(n)
    ensures m == n
  {
    IdSpells(m);
    IdSpells(n);
    hide MessageId;
  }

  lemma IdSpells(n: nat)
    ensures |MessageId(n)| > 0 && Spelled(MessageId(n)[1..]) == Some(n)
  {
    var digits := if n == 0 then "0" else Digits(n);
    assert MessageId(n)[1..] == digits;
    if n == 0 {
      assert digits[..0] == "";
    } else {
      DigitsSpell(n);
    }
  }
}
