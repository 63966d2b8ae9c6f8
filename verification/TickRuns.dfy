/** Whole runs of the app's message store with the client's correlation: threads, references
    and ticks while messages are sent and received, threads are read and the store is reset,
    and acks and reports arrive in any order in between. */
module TickRuns {
  import opened Options
  import opened DeliveryStatus
  import opened Conversations

  /** sentAt is how many acks and reports had arrived when a reference was last sent; reused
      are the references sent more than once. */
  datatype World = World(threads: seq<Thread>, counter: nat, bound: Correlation, events: seq<Event>,
                         sentAt: map<string, nat>, reused: set<string>)

  datatype Action =
    | Send(peer: string, text: string, at: int, at36: string)
    | Receive(peer: string, text: string, at: int, envelopeId: Option<string>)
    | ReceiveGroup(gid: string, sender: string, text: string, at: int, envelopeId: Option<string>)
    | CreateGroup(gid: string, at: int)
    | MarkRead(peer: string)
    | Arrive(e: Event)
    | Reset

  const START := World([], 0, NOTHING_BOUND, [], map[], {})

  predicate ToGroup(ts: seq<Thread>, peer: string) { Ensured(ts, peer)[IndexOfPeer(ts, peer)].group }

  function Apply(w: World, a: Action): World {
    match a
    case Send(peer, text, at, at36) =>
      var ref, group := RefFor(w.counter + 1, at36), ToGroup(w.threads, peer);
      w.(threads := SentTo(w.threads, w.counter, peer, text, at, at36), counter := w.counter + 1,
         sentAt := if group then w.sentAt else w.sentAt[ref := |w.events|],
         reused := if !group && ref in w.sentAt then w.reused + {ref} else w.reused)
    case Receive(peer, text, at, env) =>
      w.(threads := ReceivedFrom(w.threads, w.counter, peer, text, at, env), counter := w.counter + 1)
    case ReceiveGroup(gid, sender, text, at, env) =>
      w.(threads := GroupReceived(w.threads, w.counter, gid, sender, text, at, env), counter := w.counter + 1)
    case CreateGroup(gid, at) => w.(threads := GroupCreated(w.threads, gid, at))
    case MarkRead(peer) => w.(threads := ReadThread(w.threads, peer))
    case Arrive(e) =>
      var (c, u) := Handled(w.bound, e);
      w.(bound := c, events := w.events + [e], threads := if u.Some? then Applied(w.threads, u.value) else w.threads)
    case Reset => w.(threads := [], counter := 0)
  }

  // --- what every action keeps ---

  ghost predicate Ticked(m: Msg, events: seq<Event>, sentAt: map<string, nat>) {
    match m.clientRef
    case None => m.status == None
    case Some(ref) =>
      ref in sentAt && sentAt[ref] <= |events| && m.status == Best(Some(Sending), Emitted(events, sentAt[ref]), ref)
  }

  ghost predicate AllTicked(ts: seq<Thread>, events: seq<Event>, sentAt: map<string, nat>) {
    forall a, i :: 0 <= a < |ts| && 0 <= i < |ts[a].messages| ==> Ticked(ts[a].messages[i], events, sentAt)
  }

  ghost predicate Inv(w: World) {
    RefsInv(w.threads, w.counter) && w.bound == Bound(w.events) && AllTicked(w.threads, w.events, w.sentAt)
  }

  lemma AppendTicked(ts: seq<Thread>, i: nat, m: Msg, unread: nat, at: int, events: seq<Event>, sentAt: map<string, nat>)
    requires AllTicked(ts, events, sentAt) && i < |ts| && Ticked(m, events, sentAt)
    ensures AllTicked(ts[i := Appended(ts[i], m, unread, at)], events, sentAt)
  {
    hide Ticked;
  }

  /** Changes that keep references and statuses. */
  lemma SameTicked(ts: seq<Thread>, r: seq<Thread>, events: seq<Event>, sentAt: map<string, nat>)
    requires AllTicked(ts, events, sentAt) && |r| == |ts|
    requires forall a :: 0 <= a < |ts| ==> |r[a].messages| == |ts[a].messages|
    requires forall a, i :: 0 <= a < |ts| && 0 <= i < |ts[a].messages| ==>
               r[a].messages[i].clientRef == ts[a].messages[i].clientRef
               && r[a].messages[i].status == ts[a].messages[i].status
    ensures AllTicked(r, events, sentAt)
  {
    forall a, i | 0 <= a < |r| && 0 <= i < |r[a].messages| ensures Ticked(r[a].messages[i], events, sentAt) {
      assert Ticked(ts[a].messages[i], events, sentAt);
    }
  }

  lemma EnsuredTicked(ts: seq<Thread>, peer: string, events: seq<Event>, sentAt: map<string, nat>)
    requires AllTicked(ts, events, sentAt)
    ensures AllTicked(Ensured(ts, peer), events, sentAt)
  {
    hide Ticked;
  }

  /** The new reference has not been sent before, so every other message keeps its mark. */
  lemma NewMark(ts: seq<Thread>, counter: nat, at36: string, events: seq<Event>, sentAt: map<string, nat>)
    requires AllTicked(ts, events, sentAt) && RefsInv(ts, counter)
    ensures AllTicked(ts, events, sentAt[RefFor(counter + 1, at36) := |events|])
  {
    hide RefFor;
    var ref := RefFor(counter + 1, at36);
    forall a, i | 0 <= a < |ts| && 0 <= i < |ts[a].messages|
      ensures Ticked(ts[a].messages[i], events, sentAt[ref := |events|])
    {
      var m := ts[a].messages[i];
      assert Ticked(m, events, sentAt);
      if m.clientRef == Some(ref) {
        assert IssuedBy(ref, counter);
        var k: nat, x :| k <= counter && ref == RefFor(k, x);
        RefInjective(k, x, counter + 1, at36);
        assert false;
      }
    }
  }

  lemma SendKeeps(w: World, peer: string, text: string, at: int, at36: string)
    requires Inv(w)
    ensures Inv(Apply(w, Send(peer, text, at, at36)))
  {
    SendKeepsRefs(w.threads, w.counter, peer, text, at, at36);
    NewMark(w.threads, w.counter, at36, w.events, w.sentAt);
    var sentAt := Apply(w, Send(peer, text, at, at36)).sentAt;
    var r, i := Ensured(w.threads, peer), IndexOfPeer(w.threads, peer);
    var m := Outbound(w.counter, text, at, at36, r[i].group);
    assert Emitted(w.events, |w.events|) == [];
    assert Ticked(m, w.events, sentAt);
    hide AllTicked, RefsInv, Ticked, RefFor;
    EnsuredTicked(w.threads, peer, w.events, sentAt);
    AppendTicked(r, i, m, 0, at, w.events, sentAt);
  }

  lemma ReceiveKeeps(w: World, peer: string, text: string, at: int, env: Option<string>)
    requires Inv(w)
    ensures Inv(Apply(w, Receive(peer, text, at, env)))
  {
    hide AllTicked, RefsInv;
    ReceiveKeepsRefs(w.threads, w.counter, peer, text, at, env);
    EnsuredTicked(w.threads, peer, w.events, w.sentAt);
    AppendTicked(Ensured(w.threads, peer), IndexOfPeer(w.threads, peer), Inbound(w.counter, text, at, env), 1, at,
                 w.events, w.sentAt);
  }

  lemma GroupEnsuredTicked(ts: seq<Thread>, gid: string, events: seq<Event>, sentAt: map<string, nat>)
    requires AllTicked(ts, events, sentAt)
    ensures AllTicked(GroupEnsured(ts, gid), events, sentAt)
  {
    hide AllTicked;
    EnsuredTicked(ts, gid, events, sentAt);
    SameTicked(Ensured(ts, gid), GroupEnsured(ts, gid), events, sentAt);
  }

  lemma ReceiveGroupKeeps(w: World, gid: string, sender: string, text: string, at: int, env: Option<string>)
    requires Inv(w)
    ensures Inv(Apply(w, ReceiveGroup(gid, sender, text, at, env)))
  {
    hide AllTicked, RefsInv;
    GroupReceiveKeepsRefs(w.threads, w.counter, gid, sender, text, at, env);
    GroupEnsuredTicked(w.threads, gid, w.events, w.sentAt);
    AppendTicked(GroupEnsured(w.threads, gid), IndexOfPeer(w.threads, gid),
                 GroupInbound(w.counter, sender, text, at, env), 1, at, w.events, w.sentAt);
  }

  lemma CreateKeeps(w: World, gid: string, at: int)
    requires Inv(w)
    ensures Inv(Apply(w, CreateGroup(gid, at)))
  {
    hide AllTicked, RefsInv;
    CreateKeepsRefs(w.threads, w.counter, gid, at);
    GroupEnsuredTicked(w.threads, gid, w.events, w.sentAt);
    SameTicked(GroupEnsured(w.threads, gid), GroupCreated(w.threads, gid, at), w.events, w.sentAt);
  }

  lemma ReadKeeps(w: World, peer: string)
    requires Inv(w)
    ensures Inv(Apply(w, MarkRead(peer)))
  {
    hide AllTicked, RefsInv;
    ReadKeepsRefs(w.threads, w.counter, peer);
    SameTicked(w.threads, ReadThread(w.threads, peer), w.events, w.sentAt);
  }

  lemma BestAppend(s: Option<Status>, us: seq<Update>, u: Update, ref: string)
    ensures Best(s, us + [u], ref)
         == if u.clientRef == ref && Rank(u.status) > RankOf(Best(s, us, ref)) then Some(u.status) else Best(s, us, ref)
  {
    assert (us + [u])[..|us|] == us;
  }

  /** An event raises the message it is about, and no other, to its new maximum. */
  lemma TickedAfter(m: Msg, events: seq<Event>, sentAt: map<string, nat>, e: Event)
    requires Ticked(m, events, sentAt)
    ensures var u := Handled(Bound(events), e).1;
            Ticked(if u.Some? then DeliveryStatus.Step(m, u.value) else m, events + [e], sentAt)
  {
    hide Bound, Emitted, Handled, Best;
    var u := Handled(Bound(events), e).1;
    if m.clientRef.Some? {
      var ref := m.clientRef.value;
      var us := Emitted(events, sentAt[ref]);
      OneMoreEvent(events, e, sentAt[ref]);
      if u.Some? {
        BestAppend(Some(Sending), us, u.value, ref);
      } else {
        assert us + [] == us;
      }
    }
  }

  lemma ArriveKeeps(w: World, e: Event)
    requires Inv(w)
    ensures Inv(Apply(w, Arrive(e)))
  {
    var w' := Apply(w, Arrive(e));
    var u := Handled(w.bound, e).1;
    OneMoreEvent(w.events, e, 0);
    assert AppliedAll(w.threads, []) == w.threads;
    if u.Some? {
      assert [u.value][..0] == [];
      assert AppliedAll(w.threads, [u.value]) == Applied(w.threads, u.value);
      StatusKeepsRefs(w.threads, w.counter, [u.value]);
    }
    forall a, i | 0 <= a < |w'.threads| && 0 <= i < |w'.threads[a].messages|
      ensures Ticked(w'.threads[a].messages[i], w'.events, w'.sentAt)
    {
      if u.Some? {
        AppliedIsStep(w.threads, u.value, a);
      }
      TickedAfter(w.threads[a].messages[i], w.events, w.sentAt, e);
    }
  }

  lemma StepKeeps(w: World, a: Action)
    requires Inv(w)
    ensures Inv(Apply(w, a))
  {
    match a
    case Send(peer, text, at, at36) => SendKeeps(w, peer, text, at, at36);
    case Receive(peer, text, at, env) => ReceiveKeeps(w, peer, text, at, env);
    case ReceiveGroup(gid, sender, text, at, env) => ReceiveGroupKeeps(w, gid, sender, text, at, env);
    case CreateGroup(gid, at) => CreateKeeps(w, gid, at);
    case MarkRead(peer) => ReadKeeps(w, peer);
    case Arrive(e) => ArriveKeeps(w, e);
    case Reset =>
  }

  function Run(w: World, actions: seq<Action>): World {
    if actions == [] then w else Apply(Run(w, actions[..|actions| - 1]), actions[|actions| - 1])
  }

  lemma {:induction false} RunKeeps(actions: seq<Action>)
    ensures Inv(Run(START, actions))
  {
    hide Inv, Apply;
    if actions == [] {
      StartInv();
    } else {
      RunKeeps(actions[..|actions| - 1]);
      StepKeeps(Run(START, actions[..|actions| - 1]), actions[|actions| - 1]);
    }
  }

  lemma StartInv()
    ensures Inv(START)
  {}

  // --- what holds after every run ---

  /** No two messages share a reference, and every message's status is the maximum of
      "sending" and all updates of its reference since it was sent; without a reference it
      has none. */
  lemma EveryTick(actions: seq<Action>, a: nat, i: nat)
    requires a < |Run(START, actions).threads| && i < |Run(START, actions).threads[a].messages|
    ensures UniqueRefs(Run(START, actions).threads)
    ensures Ticked(Run(START, actions).threads[a].messages[i], Run(START, actions).events, Run(START, actions).sentAt)
  {
    RunKeeps(actions);
  }

  /** Every sent message shows the farthest of what it has heard since it was sent: "read" if a
      report of that came for an envelope then bound to its reference, else "delivered" if one
      of that did, else "sent" if its reference was acked, else "sending". */
  lemma TickExactly(actions: seq<Action>, a: nat, i: nat, ref: string)
    requires a < |Run(START, actions).threads| && i < |Run(START, actions).threads[a].messages|
    requires Run(START, actions).threads[a].messages[i].clientRef == Some(ref)
    ensures var w := Run(START, actions);
            ref in w.sentAt && w.threads[a].messages[i].status == Some(Farthest(w.events, w.sentAt[ref], ref))
  {
    var w := Run(START, actions);
    RunKeeps(actions);
    assert IssuedBy(ref, w.counter) && Ticked(w.threads[a].messages[i], w.events, w.sentAt);
    NoEmptyRef(ref, w.counter);
    hide Run, Inv, Farthest, Best, Emitted, IssuedBy;
    BestIsFarthest(w.events, w.sentAt[ref], ref);
  }

  lemma NoEmptyRef(ref: string, counter: nat)
    requires IssuedBy(ref, counter)
    ensures ref != ""
  {
    var k: nat, x :| k <= counter && ref == RefFor(k, x);
    assert ref[0] == 'c';
  }

  /** A tick beyond "sent": the relay had acked this message's reference, and then, after the
      message was sent, a report arrived about the envelope that the ack named. */
  lemma TickBeyondSent(actions: seq<Action>, a: nat, i: nat)
    requires var ts := Run(START, actions).threads;
             a < |ts| && i < |ts[a].messages| && RankOf(ts[a].messages[i].status) > Rank(Sent)
    ensures var w := Run(START, actions);
            var m := w.threads[a].messages[i];
            m.clientRef.Some? && m.clientRef.value in w.sentAt
            && exists k, j :: Reported(w.events, w.sentAt[m.clientRef.value], k, j, m.clientRef.value, m.status.value)
  {
    var w := Run(START, actions);
    EveryTick(actions, a, i);
    var ref := w.threads[a].messages[i].clientRef.value;
    BestNeedsAck(Some(Sending), w.events, w.sentAt[ref], ref);
  }

  // --- whose ack it was ---

  predicate Acks(e: Event, ref: string) { e.AckArrived? && e.clientRef == Some(ref) }

  /** The relay acks with the reference of a message that it was sent: no ack of this one
      arrives before a message with it was sent. */
  ghost predicate Echoed(actions: seq<Action>, ref: string) {
    forall n :: 0 <= n < |actions| && actions[n].Arrive? && Acks(actions[n].e, ref) ==> ref in Run(START, actions[..n]).sentAt
  }

  /** All acks of the reference came after its only sending. */
  ghost predicate AckedSince(w: World, ref: string) {
    && (ref in w.sentAt ==> w.sentAt[ref] <= |w.events|)
    && (forall k :: 0 <= k < |w.events| && Acks(w.events[k], ref) ==>
          ref in w.sentAt && (ref in w.reused || w.sentAt[ref] <= k))
  }

  lemma AckedStep(w: World, a: Action, ref: string)
    requires AckedSince(w, ref) && (a.Arrive? && Acks(a.e, ref) ==> ref in w.sentAt)
    ensures AckedSince(Apply(w, a), ref)
  {
    hide RefFor, ToGroup, SentTo, ReceivedFrom, GroupReceived, GroupCreated, ReadThread, Handled, Applied;
  }

  lemma {:induction false} AckedInRun(actions: seq<Action>, ref: string)
    requires Echoed(actions, ref)
    ensures AckedSince(Run(START, actions), ref)
  {
    if actions != [] {
      var n := |actions| - 1;
      assert Echoed(actions[..n], ref) by {
        assert forall m :: 0 <= m < n ==> actions[..n][m] == actions[m] && actions[..n][..m] == actions[..m];
      }
      AckedInRun(actions[..n], ref);
      hide AckedSince, Apply;
      AckedStep(Run(START, actions[..n]), actions[n], ref);
    }
  }

  /** If the reference was not used again after a reset, the ack was of this very message:
      it arrived after the message was sent. */
  lemma TickOfThisMessage(actions: seq<Action>, a: nat, i: nat)
    requires var ts := Run(START, actions).threads;
             a < |ts| && i < |ts[a].messages| && RankOf(ts[a].messages[i].status) > Rank(Sent)
    requires var m := Run(START, actions).threads[a].messages[i];
             m.clientRef.Some? ==> Echoed(actions, m.clientRef.value) && m.clientRef.value !in Run(START, actions).reused
    ensures var w := Run(START, actions);
            var m := w.threads[a].messages[i];
            m.clientRef.Some? && m.clientRef.value in w.sentAt
            && exists k, j :: Reported(w.events, w.sentAt[m.clientRef.value], k, j, m.clientRef.value, m.status.value)
                              && k >= w.sentAt[m.clientRef.value]
  {
    TickBeyondSent(actions, a, i);
    hide Run, Echoed;
    var w := Run(START, actions);
    var m := w.threads[a].messages[i];
    var ref := m.clientRef.value;
    AckedInRun(actions, ref);
    var k, j :| Reported(w.events, w.sentAt[ref], k, j, ref, m.status.value);
    assert Acks(w.events[k], ref);
  }

  /** Every reference sent so far is of the counter's values so far. */
  ghost predicate AllIssued(w: World) { forall ref :: ref in w.sentAt ==> IssuedBy(ref, w.counter) }

  lemma IssuedLater(ref: string, counter: nat)
    requires IssuedBy(ref, counter)
    ensures IssuedBy(ref, counter + 1)
  {
    hide RefFor;
  }

  lemma IssuedStep(w: World, a: Action)
    requires AllIssued(w) && !a.Reset?
    ensures AllIssued(Apply(w, a)) && Apply(w, a).reused == w.reused
  {
    hide ToGroup, SentTo, ReceivedFrom, GroupReceived, GroupCreated, ReadThread, Handled, Applied, RefFor, IssuedBy;
    forall ref | ref in w.sentAt ensures IssuedBy(ref, w.counter + 1) {
      IssuedLater(ref, w.counter);
    }
    if a.Send? {
      NewlyIssued(w.counter, a.at36);
    }
  }

  lemma NewlyIssued(counter: nat, at36: string)
    ensures IssuedBy(RefFor(counter + 1, at36), counter + 1) && !IssuedBy(RefFor(counter + 1, at36), counter)
  {
    hide RefFor;
    if IssuedBy(RefFor(counter + 1, at36), counter) {
      var k: nat, x :| k <= counter && RefFor(counter + 1, at36) == RefFor(k, x);
      RefInjective(k, x, counter + 1, at36);
      assert false;
    }
  }

  /** Only a reset can make a reference be used again. */
  lemma {:induction false} ReusedAfterReset(actions: seq<Action>)
    requires forall n :: 0 <= n < |actions| ==> !actions[n].Reset?
    ensures Run(START, actions).reused == {} && AllIssued(Run(START, actions))
  {
    if actions != [] {
      var n := |actions| - 1;
      ReusedAfterReset(actions[..n]);
      hide AllIssued, Apply;
      IssuedStep(Run(START, actions[..n]), actions[n]);
    }
  }

  lemma RunOneMore(actions: seq<Action>, a: Action)
    ensures Run(START, actions + [a]) == Apply(Run(START, actions), a)
  {
    hide Apply;
    assert (actions + [a])[..|actions|] == actions;
  }

  /** A store with this one message. */
  function OneThread(peer: string, m: Msg, at: int): seq<Thread> { [Thread(peer, [m], 0, at, false)] }

  lemma FirstSend(w: World, peer: string, text: string, at: int, at36: string)
    requires w.threads == [] && w.counter == 0
    ensures var w' := Apply(w, Send(peer, text, at, at36));
            && w'.threads == OneThread(peer, Outbound(0, text, at, at36, false), at)
            && w'.bound == w.bound && w'.events == w.events && w'.sentAt == w.sentAt[RefFor(1, at36) := |w.events|]
  {
    hide RefFor, MessageId;
    var r := Ensured([], peer);
    assert r == [Thread(peer, [], 0, 0, false)];
    assert SentTo([], 0, peer, text, at, at36)[0].messages == [Outbound(0, text, at, at36, false)];
  }

  lemma ReportTicks(w: World, peer: string, m: Msg, at: int, ref: string, env: string)
    requires w.threads == OneThread(peer, m, at) && m.clientRef == Some(ref) && m.status == Some(Sending) && ref != ""
    requires env in w.bound.envelopeToRef && w.bound.envelopeToRef[env] == ref
    ensures Apply(w, Arrive(ReportArrived(env, Read))).threads == OneThread(peer, m.(status := Some(Read)), at)
  {
    assert IndexOfRef([m], ref) == 0;
    assert Applied(w.threads, Update(ref, Read))[0].messages == [m.(status := Some(Read))];
  }

  /** What is left of a message that was acked before a reset: the binding. */
  lemma AckedThenReset(peer: string, text: string, at: int, at36: string, env: string)
    ensures var ref := RefFor(1, at36);
            var w := Apply(Apply(Apply(START, Send(peer, text, at, at36)), Arrive(AckArrived(Some(ref), env))), Reset);
            && w.threads == [] && w.counter == 0 && w.events == [AckArrived(Some(ref), env)]
            && env in w.bound.envelopeToRef && w.bound.envelopeToRef[env] == ref
  {
    FirstSend(START, peer, text, at, at36);
    assert RefFor(1, at36) != "";
    hide RefFor, Applied, SentTo;
  }

  /** Otherwise it need not have been: a reset, then the next message in the same millisecond,
      and a late report about the message before the reset ticks the one after it, which no
      ack was ever about. */
  lemma OldAckTicks(peer: string, text: string, at: int, at36: string, env: string) returns (actions: seq<Action>)
    ensures var w, ref := Run(START, actions), RefFor(1, at36);
            && |w.threads| == 1 && |w.threads[0].messages| == 1 && ref in w.sentAt
            && w.threads[0].messages[0].clientRef == Some(ref) && w.threads[0].messages[0].status == Some(Read)
            && forall k :: 0 <= k < |w.events| && Acks(w.events[k], ref) ==> k < w.sentAt[ref]
  {
    var ref, m := RefFor(1, at36), Outbound(0, text, at, at36, false);
    var send, ack, report := Send(peer, text, at, at36), Arrive(AckArrived(Some(ref), env)), Arrive(ReportArrived(env, Read));
    assert ref != "" && m.clientRef == Some(ref) && m.status == Some(Sending);
    hide RefFor, Handled, Applied, SentTo, Outbound, Run;
    AckedThenReset(peer, text, at, at36, env);
    actions := FiveActions(send, ack, Reset, send, report);
    var w3 := Apply(Apply(Apply(START, send), ack), Reset);
    FirstSend(w3, peer, text, at, at36);
    ReportTicks(Apply(w3, send), peer, m, at, ref, env);
    assert Apply(Apply(w3, send), report).events == [AckArrived(Some(ref), env), ReportArrived(env, Read)];
  }

  lemma FiveActions(a: Action, b: Action, c: Action, d: Action, e: Action) returns (actions: seq<Action>)
    ensures Run(START, actions) == Apply(Apply(Apply(Apply(Apply(START, a), b), c), d), e)
  {
    hide Apply;
    assert Run(START, []) == START;
    RunOneMore([], a);
    RunOneMore([] + [a], b);
    RunOneMore([] + [a] + [b], c);
    RunOneMore([] + [a] + [b] + [c], d);
    RunOneMore([] + [a] + [b] + [c] + [d], e);
    actions := [] + [a] + [b] + [c] + [d] + [e];
  }
}
