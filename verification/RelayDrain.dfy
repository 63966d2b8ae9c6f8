/** A connection's writer starts only after its queued envelopes have been handed over, so
    until then its buffer only fills up. */
module RelayDrain {
  import opened Envelope
  import opened RelayQueue
  import opened RelayHub
  import opened RelayRuns

  /** How many of the settled hand-overs went into the buffer of c. */
  function AcceptedBy(ss: seq<Settled>, c: ConnId): nat {
    if ss == [] then 0
    else
      var n := |ss| - 1;
      AcceptedBy(ss[..n], c) + if ss[n].conn == c && ss[n].outcome == Accepted then 1 else 0
  }

  /** How many of them found the buffer open, with room or without. */
  function HandedTo(ss: seq<Settled>, c: ConnId): nat {
    if ss == [] then 0
    else
      var n := |ss| - 1;
      HandedTo(ss[..n], c) + if ss[n].conn == c && ss[n].outcome in {Accepted, Dropped} then 1 else 0
  }

  function Smaller(a: nat, b: nat): nat { if a < b then a else b }

  /** Until the writer starts, the buffer holds as much of what was offered as fits. */
  ghost predicate Filled(conn: Conn, accepted: nat, handed: nat) {
    && |conn.out| <= BUFFER
    && (conn.phase == Draining ==>
          |conn.out| == Smaller(BUFFER, handed + conn.others) && accepted <= |conn.out| <= accepted + conn.others)
  }

  ghost predicate FilledAt(w: World, c: ConnId)
    requires c in w.clients
  {
    var ss := LaneAt(w.lanes, w.clients[c].key).settled;
    Filled(w.clients[c], AcceptedBy(ss, c), HandedTo(ss, c))
  }

  ghost predicate DrainInv(w: World) {
    forall c :: c in w.clients ==> FilledAt(w, c)
  }

  lemma {:induction false} NoneHanded(ss: seq<Settled>, c: ConnId)
    requires forall i :: 0 <= i < |ss| ==> ss[i].conn != c
    ensures AcceptedBy(ss, c) == 0 && HandedTo(ss, c) == 0
  {
    if ss != [] {
      NoneHanded(ss[..|ss| - 1], c);
    }
  }

  lemma HandedAppend(ss: seq<Settled>, s: Settled, c: ConnId)
    ensures AcceptedBy(ss + [s], c) == AcceptedBy(ss, c) + if s.conn == c && s.outcome == Accepted then 1 else 0
    ensures HandedTo(ss + [s], c) == HandedTo(ss, c) + if s.conn == c && s.outcome in {Accepted, Dropped} then 1 else 0
  {
    assert (ss + [s])[..|ss|] == ss;
  }

  /** The connection that one more hand-over reaches. */
  lemma FilledFurther(conn: Conn, accepted: nat, handed: nat, m: Outgoing)
    requires Filled(conn, accepted, handed) && conn.phase != Closed
    ensures Filled(conn.(out := Offered(conn.out, m)), if |conn.out| < BUFFER then accepted + 1 else accepted, handed + 1)
  {}

  lemma SettleOne(w: World, key: string, i: nat, c: ConnId)
    requires Enabled(w, Settle(key, i)) && c in w.clients && FilledAt(w, c)
    requires w.clients[LaneAt(w.lanes, key).handoffs[i].conn].key == key
    ensures c in ApplySettle(w, key, i).clients && FilledAt(ApplySettle(w, key, i), c)
  {
    hide AcceptedBy, HandedTo, Filled, Offered;
    var lane := LaneAt(w.lanes, key);
    var h := lane.handoffs[i];
    var w' := ApplySettle(w, key, i);
    var s := w'.lanes[key].settled[|lane.settled|];
    HandedAppend(lane.settled, s, c);
    if c == h.conn && w.clients[c].phase != Closed {
      FilledFurther(w.clients[c], AcceptedBy(lane.settled, c), HandedTo(lane.settled, c), Deliver(h.env));
    }
  }

  lemma SettleDrain(w: World, key: string, i: nat)
    requires DrainInv(w) && Inv(w) && Enabled(w, Settle(key, i))
    ensures DrainInv(ApplySettle(w, key, i))
  {
    assert LaneInv(w, key) && HandoffInv(LaneAt(w.lanes, key).handoffs[i], w.clients, key);
    hide Inv, LaneInv, FilledAt, Enabled;
    var w' := ApplySettle(w, key, i);
    forall c | c in w'.clients ensures FilledAt(w', c) {
      assert c in w.clients && FilledAt(w, c);
      SettleOne(w, key, i, c);
    }
  }

  lemma RegisterLanes(w: World, key: string, c: ConnId, now: int)
    ensures var w' := ApplyRegister(w, key, c, now);
            && w'.clients == w.clients[c := Conn(key, Draining, [], 0)]
            && forall k :: LaneAt(w'.lanes, k).settled == LaneAt(w.lanes, k).settled
  {
    hide Registering, Drained, Bag;
  }

  lemma RegisterDrain(w: World, key: string, c: ConnId, now: int)
    requires DrainInv(w) && Inv(w) && Enabled(w, Register(key, c, now))
    ensures DrainInv(ApplyRegister(w, key, c, now))
  {
    assert LaneInv(w, key) && c !in w.clients;
    NoneHanded(LaneAt(w.lanes, key).settled, c);
    RegisterLanes(w, key, c, now);
    hide Inv, LaneInv, AcceptedBy, HandedTo, ApplyRegister, LaneAt, Enabled;
    var w' := ApplyRegister(w, key, c, now);
    forall d | d in w'.clients ensures FilledAt(w', d) {
      if d != c {
        assert FilledAt(w, d);
      }
    }
  }

  lemma RouteDrain(w: World, env: Message, stamp: int, now: int)
    requires DrainInv(w)
    ensures DrainInv(ApplyRoute(w, env, stamp, now))
  {
    hide AcceptedBy, HandedTo, Enqueue, EnvelopeId, Bag, KeyOf;
    var w' := ApplyRoute(w, env, stamp, now);
    forall c | c in w'.clients ensures FilledAt(w', c)
    {
      assert FilledAt(w, c);
    }
  }

  lemma OtherDrain(w: World, e: Event)
    requires DrainInv(w) && Enabled(w, e) && !e.Route? && !e.Register? && !e.Settle? && !e.Restart?
    ensures DrainInv(Apply(w, e))
  {
    hide AcceptedBy, HandedTo, ApplyRoute, ApplyRegister, ApplySettle, ApplyRestart, Unregistering, IsDraining;
    var w' := Apply(w, e);
    forall c | c in w'.clients ensures FilledAt(w', c)
    {
      assert FilledAt(w, c);
    }
  }

  lemma RestartDrain(w: World, clock: map<string, int>, now: int)
    requires DrainInv(w) && w.disk.queue.Keys <= clock.Keys
    ensures DrainInv(ApplyRestart(w, clock, now))
  {
    hide AcceptedBy, HandedTo, LoadedQueue, LaneAt;
    var w' := ApplyRestart(w, clock, now);
    forall c | c in w'.clients ensures |w'.clients[c].out| <= BUFFER {
      assert FilledAt(w, c);
    }
  }

  lemma StepDrain(w: World, e: Event)
    requires DrainInv(w) && Inv(w) && Enabled(w, e)
    ensures DrainInv(Apply(w, e))
  {
    hide DrainInv, Inv, ApplyRoute, ApplyRegister, ApplySettle, ApplyRestart;
    match e
    case Route(env, stamp, now) => RouteDrain(w, env, stamp, now);
    case Register(key, c, now) => RegisterDrain(w, key, c, now);
    case Settle(key, i) => SettleDrain(w, key, i);
    case Restart(clock, now) => RestartDrain(w, clock, now);
    case _ => OtherDrain(w, e);
  }

  lemma {:induction false} RunDrain(w: World, events: seq<Event>, w': World)
    requires DrainInv(w) && Inv(w) && Run(w, events, w')
    ensures DrainInv(w')
    decreases |events|
  {
    hide DrainInv, Inv, Enabled, Apply;
    if events != [] {
      StepDrain(w, events[0]);
      StepKeeps(w, events[0]);
      RunDrain(Apply(w, events[0]), events[1..], w');
    }
  }

  lemma WhileDraining(w: World, c: ConnId)
    requires Reachable(w) && c in w.clients
    ensures FilledAt(w, c)
  {
    hide Run, Inv, FilledAt;
    var now, events :| Run(Init(now), events, w);
    InitInv(now);
    RunDrain(Init(now), events, w);
  }

  /** However hand-overs interleave, a connection whose writer has not started has had at
      most 64 envelopes accepted: of a longer drained queue the rest is dropped. */
  lemma DrainAcceptsAtMost64(w: World, c: ConnId)
    requires Reachable(w) && c in w.clients && w.clients[c].phase == Draining
    ensures AcceptedBy(LaneAt(w.lanes, w.clients[c].key).settled, c) <= 64
  {
    hide Reachable, AcceptedBy, HandedTo;
    WhileDraining(w, c);
  }

  /** What is lost is exactly what does not fit: the buffer holds the smaller of 64 and all
      that was offered, and if nothing but envelopes was, 64 or all of them were accepted. */
  lemma DrainLosesTheRest(w: World, c: ConnId)
    requires Reachable(w) && c in w.clients && w.clients[c].phase == Draining
    ensures var ss, conn := LaneAt(w.lanes, w.clients[c].key).settled, w.clients[c];
            && |conn.out| == Smaller(64, HandedTo(ss, c) + conn.others)
            && (conn.others == 0 ==> AcceptedBy(ss, c) == Smaller(64, HandedTo(ss, c)))
  {
    hide Reachable, AcceptedBy, HandedTo;
    WhileDraining(w, c);
  }

  // --- the loss happens ---

  lemma {:induction false} RunAppend(w: World, events: seq<Event>, v: World, e: Event)
    requires Run(w, events, v) && Enabled(v, e)
    ensures Run(w, events + [e], Apply(v, e))
    decreases |events|
  {
    hide Enabled, Apply;
    if events == [] {
      assert Run(Apply(v, e), [], Apply(v, e));
      assert [e][1..] == [] && [] + [e] == [e];
    } else {
      RunAppend(Apply(w, events[0]), events[1..], v, e);
      assert (events + [e])[1..] == events[1..] + [e];
    }
  }

  lemma StepReachable(w: World, e: Event)
    requires Reachable(w) && Enabled(w, e)
    ensures Reachable(Apply(w, e))
  {
    hide Run, Enabled, Apply;
    var now, events :| Run(Init(now), events, w);
    RunAppend(Init(now), events, w, e);
  }

  ghost predicate AtZero(q: seq<Queued>, n: nat) { |q| == n && forall i :: 0 <= i < n ==> q[i].at == 0 }

  /** Nobody is connected and n envelopes wait for this device, all queued at time 0. */
  ghost predicate Waits(w: World, key: string, n: nat) {
    && w.now == 0 && w.clients == map[] && w.hub.conns == map[]
    && AtZero(QueueAt(w.hub.queue, key), n)
    && LaneAt(w.lanes, key).handoffs == [] && LaneAt(w.lanes, key).settled == []
  }

  /** Its only connection drains n of them, and m have reached its buffer. */
  ghost predicate Drains(w: World, key: string, n: nat, m: nat) {
    var lane := LaneAt(w.lanes, key);
    && 0 in w.clients && w.clients[0].phase == Draining && |w.clients[0].out| == Smaller(BUFFER, m)
    && m <= n && |lane.handoffs| == n - m && |lane.settled| == m
    && (forall i :: 0 <= i < n - m ==> lane.handoffs[i].conn == 0 && lane.handoffs[i].drain)
    && (forall i :: 0 <= i < m ==>
          lane.settled[i].conn == 0 && lane.settled[i].outcome == if i < BUFFER then Accepted else Dropped)
  }

  lemma AllStay(q: seq<Queued>, n: nat)
    requires AtZero(q, n) && n <= MAX_QUEUE
    ensures Pruned(q, 0) == q
  {
    LiveAll(q, 0);
    hide Live;
  }

  lemma RouteToNobody(w: World, env: Message)
    requires w.hub.conns == map[]
    ensures var w', key := ApplyRoute(w, env, 0, 0), KeyOf(env);
            && w'.now == 0 && w'.clients == w.clients && w'.hub.conns == map[]
            && LaneAt(w'.lanes, key).handoffs == LaneAt(w.lanes, key).handoffs
            && LaneAt(w'.lanes, key).settled == LaneAt(w.lanes, key).settled
  {
    hide KeyOf, Next, EnvelopeId, Enqueue, Bag;
  }

  lemma RoutedQueue(w: World, env: Message) returns (x: Queued)
    requires w.hub.conns == map[]
    ensures x.at == 0
    ensures QueueAt(ApplyRoute(w, env, 0, 0).hub.queue, KeyOf(env)) == Pruned(QueueAt(w.hub.queue, KeyOf(env)) + [x], 0)
  {
    var key, stamped := KeyOf(env), env.(id := EnvelopeId(Next(w.hub.nextID)));
    x := Queued(stamped, 0);
    SameKey(env, stamped.id);
    PruneKeyAt(w.hub.queue[key := QueueAt(w.hub.queue, key) + [x]], key, 0, key);
    hide KeyOf, Next, EnvelopeId, PruneKey, Pruned, Bag;
  }

  lemma OneMoreStays(q: seq<Queued>, x: Queued, n: nat)
    requires AtZero(q, n) && x.at == 0 && n < MAX_QUEUE
    ensures AtZero(Pruned(q + [x], 0), n + 1)
  {
    AllStay(q + [x], n + 1);
    hide Pruned;
  }

  lemma OneMoreWaits(w: World, env: Message, n: nat)
    requires Waits(w, KeyOf(env), n) && n < MAX_QUEUE
    ensures Waits(ApplyRoute(w, env, 0, 0), KeyOf(env), n + 1)
  {
    RouteToNobody(w, env);
    var x := RoutedQueue(w, env);
    OneMoreStays(QueueAt(w.hub.queue, KeyOf(env)), x, n);
    hide ApplyRoute, KeyOf, Pruned, LaneAt, QueueAt, AtZero;
  }

  lemma DrainBegins(w: World, key: string, n: nat)
    requires Waits(w, key, n) && n <= MAX_QUEUE
    ensures Drains(ApplyRegister(w, key, 0, 0), key, n, 0)
  {
    AllStay(QueueAt(w.hub.queue, key), n);
    PruneKeyAt(w.hub.queue, key, 0, key);
    hide PruneKey, Pruned, Bag;
  }

  lemma OneMoreDrains(w: World, key: string, n: nat, m: nat)
    requires Drains(w, key, n, m) && m < n
    ensures Enabled(w, Settle(key, 0)) && Drains(ApplySettle(w, key, 0), key, n, m + 1)
  {}

  lemma {:induction false} Wait(env: Message, n: nat) returns (w: World)
    requires n <= MAX_QUEUE
    ensures Reachable(w) && Waits(w, KeyOf(env), n)
  {
    if n == 0 {
      w := Init(0);
      assert Run(w, [], w);
    } else {
      hide Reachable, ApplyRoute;
      var v := Wait(env, n - 1);
      OneMoreWaits(v, env, n - 1);
      StepReachable(v, Route(env, 0, 0));
      w := ApplyRoute(v, env, 0, 0);
    }
  }

  lemma {:induction false} Drain(env: Message, n: nat, m: nat) returns (w: World)
    requires m <= n <= MAX_QUEUE
    ensures Reachable(w) && Drains(w, KeyOf(env), n, m)
  {
    hide Reachable, ApplyRegister, ApplySettle, KeyOf, Drains;
    if m == 0 {
      var v := Wait(env, n);
      DrainBegins(v, KeyOf(env), n);
      StepReachable(v, Register(KeyOf(env), 0, 0));
      w := ApplyRegister(v, KeyOf(env), 0, 0);
    } else {
      var v := Drain(env, n, m - 1);
      OneMoreDrains(v, KeyOf(env), n, m - 1);
      StepReachable(v, Settle(KeyOf(env), 0));
      w := ApplySettle(v, KeyOf(env), 0);
    }
  }

  /** Up to 1000 envelopes can wait for a device. When it connects, every one of them past
      the first 64 can be lost. */
  lemma DrainLoses(env: Message, n: nat) returns (w: World)
    requires n <= 1000
    ensures Reachable(w) && 0 in w.clients && w.clients[0].phase == Draining
    ensures var ss := LaneAt(w.lanes, KeyOf(env)).settled;
            |ss| == n && forall i :: 0 <= i < n ==>
              ss[i].conn == 0 && ss[i].outcome == if i < 64 then Accepted else Dropped
  {
    w := Drain(env, n, n);
    hide Reachable, KeyOf;
  }
}
