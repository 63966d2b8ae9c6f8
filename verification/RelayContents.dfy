/** What the relay hands on, over whole runs: the envelopes it was given, each unchanged but
    for its id, and push tokens as last registered. The logs kept beside a run are not part of
    the hub. */
module RelayContents {
  import opened Envelope
  import opened RelayQueue
  import opened RelayHub
  import opened RelayRuns

  /** The envelopes passed to route, oldest first, and the push tokens registered since the
      last restart. */
  datatype Log = Log(given: seq<Message>, tokens: map<string, string>)

  function Noted(l: Log, e: Event): Log {
    match e
    case Route(env, _, _) => l.(given := l.given + [env])
    case Push(key, token) => l.(tokens := l.tokens[key := token])
    case Restart(_, _) => l.(tokens := map[])
    case _ => l
  }

  ghost predicate LoggedRun(w: World, l: Log, events: seq<Event>, w': World, l': Log)
    decreases |events|
  {
    if events == [] then w == w' && l == l'
    else Enabled(w, events[0]) && LoggedRun(Apply(w, events[0]), Noted(l, events[0]), events[1..], w', l')
  }

  ghost predicate Logged(w: World, l: Log) {
    exists now, events :: LoggedRun(Init(now), Log([], map[]), events, w, l)
  }

  ghost predicate Unchanged(issued: seq<Message>, given: seq<Message>) {
    |issued| == |given| && forall i :: 0 <= i < |issued| ==> issued[i] == given[i].(id := issued[i].id)
  }

  /** Every envelope in this buffer was settled for the connection's device. */
  ghost predicate OutInv(conn: Conn, lanes: map<string, Lane>) {
    forall i :: 0 <= i < |conn.out| && conn.out[i].Deliver? ==>
      conn.out[i].env in SettledEnvs(LaneAt(lanes, conn.key).settled)
  }

  ghost predicate ContentInv(w: World, l: Log) {
    && Unchanged(w.issued, l.given) && w.hub.pushTokens == l.tokens
    && forall c :: c in w.clients ==> OutInv(w.clients[c], w.lanes)
  }

  // --- the envelopes and the push tokens ---

  lemma RouteIssues(w: World, l: Log, env: Message, stamp: int, now: int)
    requires Unchanged(w.issued, l.given)
    ensures Unchanged(ApplyRoute(w, env, stamp, now).issued, l.given + [env])
    ensures ApplyRoute(w, env, stamp, now).hub.pushTokens == w.hub.pushTokens
  {
    hide Enqueue, KeyOf, EnvelopeId, Next, Bag, LaneAt;
  }

  lemma IssuedStep(w: World, l: Log, e: Event)
    requires Unchanged(w.issued, l.given) && w.hub.pushTokens == l.tokens && Enabled(w, e)
    ensures Unchanged(Apply(w, e).issued, Noted(l, e).given) && Apply(w, e).hub.pushTokens == Noted(l, e).tokens
  {
    hide Unchanged;
    if e.Route? {
      hide ApplyRoute;
      RouteIssues(w, l, e.env, e.stamp, e.now);
    } else {
      hide ApplyRoute, PruneKey, Drained, Bag, LaneAt, LoadedQueue, Crash, Offered, IsDraining;
    }
  }

  // --- the buffers ---

  /** A lane's settled hand-overs are only ever added to. */
  ghost predicate SettledGrow(lanes: map<string, Lane>, lanes': map<string, Lane>) {
    forall k :: LaneAt(lanes, k).settled <= LaneAt(lanes', k).settled
  }

  lemma EnvsGrow(ss: seq<Settled>, ss': seq<Settled>, e: Message)
    requires ss <= ss' && e in SettledEnvs(ss)
    ensures e in SettledEnvs(ss')
  {
    var i :| 0 <= i < |ss| && SettledEnvs(ss)[i] == e;
    assert SettledEnvs(ss')[i] == e;
  }

  lemma OutGrows(conn: Conn, conn': Conn, lanes: map<string, Lane>, lanes': map<string, Lane>)
    requires OutInv(conn, lanes) && SettledGrow(lanes, lanes') && conn'.key == conn.key
    requires forall m :: m in conn'.out && m.Deliver? ==> m in conn.out
    ensures OutInv(conn', lanes')
  {
    hide LaneAt, SettledEnvs;
    forall i | 0 <= i < |conn'.out| && conn'.out[i].Deliver?
      ensures conn'.out[i].env in SettledEnvs(LaneAt(lanes', conn'.key).settled)
    {
      var j :| 0 <= j < |conn.out| && conn.out[j] == conn'.out[i];
      EnvsGrow(LaneAt(lanes, conn.key).settled, LaneAt(lanes', conn.key).settled, conn'.out[i].env);
    }
  }

  lemma RouteOut(w: World, env: Message, stamp: int, now: int)
    ensures SettledGrow(w.lanes, ApplyRoute(w, env, stamp, now).lanes)
    ensures ApplyRoute(w, env, stamp, now).clients == w.clients
  {
    hide Enqueue, KeyOf, EnvelopeId, Next, Bag;
  }

  lemma RegisterOut(w: World, key: string, c: ConnId, now: int)
    ensures SettledGrow(w.lanes, ApplyRegister(w, key, c, now).lanes)
    ensures ApplyRegister(w, key, c, now).clients == w.clients[c := Conn(key, Draining, [], 0)]
  {
    hide Registering, Drained, Bag;
  }

  lemma RestartOut(w: World, clock: map<string, int>, now: int)
    requires w.disk.queue.Keys <= clock.Keys
    ensures SettledGrow(w.lanes, ApplyRestart(w, clock, now).lanes)
    ensures ApplyRestart(w, clock, now).clients == map c | c in w.clients :: w.clients[c].(phase := Closed)
  {
    hide LoadedQueue, Bag, Aborted;
  }

  lemma SettleLanes(w: World, key: string, i: nat)
    requires Enabled(w, Settle(key, i))
    ensures SettledGrow(w.lanes, ApplySettle(w, key, i).lanes)
    ensures LaneAt(w.lanes, key).handoffs[i].env in SettledEnvs(LaneAt(ApplySettle(w, key, i).lanes, key).settled)
  {
    var lane, lane' := LaneAt(w.lanes, key), LaneAt(ApplySettle(w, key, i).lanes, key);
    assert SettledEnvs(lane'.settled)[|lane.settled|] == lane.handoffs[i].env;
    hide SettledEnvs, Offered;
  }

  lemma SettleClient(w: World, key: string, i: nat, c: ConnId)
    requires Enabled(w, Settle(key, i)) && c in ApplySettle(w, key, i).clients
    ensures var h := LaneAt(w.lanes, key).handoffs[i];
            var conn := ApplySettle(w, key, i).clients[c];
            && c in w.clients && conn.key == w.clients[c].key
            && forall m :: m in conn.out ==> m in w.clients[c].out || (c == h.conn && m == Deliver(h.env))
  {
    hide LaneAt;
  }

  lemma SettleOut(w: World, key: string, i: nat, c: ConnId)
    requires Enabled(w, Settle(key, i)) && c in ApplySettle(w, key, i).clients
    requires c in w.clients ==> OutInv(w.clients[c], w.lanes)
    requires w.clients[LaneAt(w.lanes, key).handoffs[i].conn].key == key
    ensures OutInv(ApplySettle(w, key, i).clients[c], ApplySettle(w, key, i).lanes)
  {
    SettleLanes(w, key, i);
    SettleClient(w, key, i, c);
    hide ApplySettle, SettledEnvs, LaneAt, Enabled;
    var w' := ApplySettle(w, key, i);
    var conn, conn' := w.clients[c], w'.clients[c];
    forall k | 0 <= k < |conn'.out| && conn'.out[k].Deliver?
      ensures conn'.out[k].env in SettledEnvs(LaneAt(w'.lanes, conn'.key).settled)
    {
      if conn'.out[k] in conn.out {
        var j :| 0 <= j < |conn.out| && conn.out[j] == conn'.out[k];
        EnvsGrow(LaneAt(w.lanes, conn.key).settled, LaneAt(w'.lanes, conn.key).settled, conn'.out[k].env);
      }
    }
  }

  lemma OtherOut(w: World, e: Event, c: ConnId)
    requires Enabled(w, e) && !e.Route? && !e.Register? && !e.Settle? && !e.Restart?
    requires c in Apply(w, e).clients
    ensures var conn := Apply(w, e).clients[c];
            && Apply(w, e).lanes == w.lanes && c in w.clients && conn.key == w.clients[c].key
            && forall m :: m in conn.out && m.Deliver? ==> m in w.clients[c].out
  {
    hide Unregistering, IsDraining, LaneAt;
  }

  lemma OutStep(w: World, e: Event, c: ConnId)
    requires Inv(w) && Enabled(w, e) && c in Apply(w, e).clients
    requires forall d :: d in w.clients ==> OutInv(w.clients[d], w.lanes)
    ensures OutInv(Apply(w, e).clients[c], Apply(w, e).lanes)
  {
    hide Inv, OutInv, SettledGrow, ApplyRoute, ApplyRegister, ApplyRestart, ApplySettle;
    match e
    case Route(env, stamp, now) =>
      RouteOut(w, env, stamp, now);
      OutGrows(w.clients[c], w.clients[c], w.lanes, Apply(w, e).lanes);
    case Register(key, d, now) =>
      RegisterOut(w, key, d, now);
      if c == d {
        EmptyOut(Conn(key, Draining, [], 0), Apply(w, e).lanes);
      } else {
        OutGrows(w.clients[c], w.clients[c], w.lanes, Apply(w, e).lanes);
      }
    case Settle(key, i) =>
      HandoffKey(w, key, i);
      assert c in w.clients by { SettleClient(w, key, i, c); }
      SettleOut(w, key, i, c);
    case Restart(clock, now) =>
      RestartOut(w, clock, now);
      OutGrows(w.clients[c], w.clients[c].(phase := Closed), w.lanes, Apply(w, e).lanes);
    case _ =>
      OtherOut(w, e, c);
      hide Apply, Enabled;
      SameLanes(w.lanes);
      OutGrows(w.clients[c], Apply(w, e).clients[c], w.lanes, w.lanes);
  }

  lemma EmptyOut(conn: Conn, lanes: map<string, Lane>)
    requires conn.out == []
    ensures OutInv(conn, lanes)
  {}

  lemma SameLanes(lanes: map<string, Lane>)
    ensures SettledGrow(lanes, lanes)
  {}

  lemma HandoffKey(w: World, key: string, i: nat)
    requires Inv(w) && Enabled(w, Settle(key, i))
    ensures w.clients[LaneAt(w.lanes, key).handoffs[i].conn].key == key
  {
    assert LaneInv(w, key) && HandoffInv(LaneAt(w.lanes, key).handoffs[i], w.clients, key);
  }

  // --- runs ---

  lemma ContentStep(w: World, l: Log, e: Event)
    requires ContentInv(w, l) && Inv(w) && Enabled(w, e)
    ensures ContentInv(Apply(w, e), Noted(l, e))
  {
    hide Inv, Unchanged, OutInv, Enabled, Apply, Noted;
    IssuedStep(w, l, e);
    forall c | c in Apply(w, e).clients ensures OutInv(Apply(w, e).clients[c], Apply(w, e).lanes) {
      OutStep(w, e, c);
    }
  }

  lemma {:induction false} ContentInRun(w: World, l: Log, events: seq<Event>, w': World, l': Log)
    requires ContentInv(w, l) && Inv(w) && LoggedRun(w, l, events, w', l')
    ensures ContentInv(w', l') && Inv(w')
    decreases |events|
  {
    hide ContentInv, Inv, Enabled, Apply, Noted;
    if events != [] {
      ContentStep(w, l, events[0]);
      StepKeeps(w, events[0]);
      ContentInRun(Apply(w, events[0]), Noted(l, events[0]), events[1..], w', l');
    }
  }

  lemma LoggedInv(w: World, l: Log)
    requires Logged(w, l)
    ensures ContentInv(w, l) && Inv(w)
  {
    var now, events :| LoggedRun(Init(now), Log([], map[]), events, w, l);
    InitInv(now);
    assert ContentInv(Init(now), Log([], map[]));
    hide ContentInv, Inv, LoggedRun, Init;
    ContentInRun(Init(now), Log([], map[]), events, w, l);
  }

  // --- what follows ---

  /** An envelope keeps all but its id from being given to the relay on: the n-th one given is
      issued with the n-th id. */
  lemma IssuedExactly(w: World, l: Log, i: nat)
    requires Logged(w, l)
    ensures |w.issued| == |l.given|
    ensures i < |l.given| ==> w.issued[i] == l.given[i].(id := IdAt(i))
  {
    LoggedInv(w, l);
    hide Logged, LaneInv, IdAt, OutInv;
  }

  /** Given to the relay for this device as the i-th envelope. */
  ghost predicate GivenFor(l: Log, key: string, e: Message, i: int) {
    0 <= i < |l.given| && e == l.given[i].(id := IdAt(i)) && KeyOf(l.given[i]) == key
  }

  /** Wherever the relay keeps an envelope for a device, it is one that it was given for that
      device, unchanged but for its id. */
  lemma PlacedWasGiven(w: World, l: Log, key: string, e: Message)
    requires Logged(w, l) && e in Places(QueueAt(w.hub.queue, key), LaneAt(w.lanes, key))
    ensures exists i :: GivenFor(l, key, e, i)
  {
    LoggedInv(w, l);
    assert LaneInv(w, key);
    hide Logged, Inv, Places, IdAt, KeyOf, QueueInv, ConnInv, ContentInv;
    assert e in multiset(RoutedTo(w.issued, key));
    var i := RoutedWhich(w.issued, key, e);
    IssuedExactly(w, l, i);
    SameKey(l.given[i], IdAt(i));
    assert GivenFor(l, key, e, i);
  }

  lemma {:induction false} RoutedWhich(issued: seq<Message>, key: string, e: Message) returns (i: nat)
    requires e in RoutedTo(issued, key)
    ensures i < |issued| && issued[i] == e && KeyOf(e) == key
  {
    hide KeyOf;
    var n := |issued| - 1;
    if e in RoutedTo(issued[..n], key) {
      i := RoutedWhich(issued[..n], key, e);
    } else {
      i := n;
    }
  }

  /** What is queued for a device, on its way to it or settled is what the relay was given. */
  lemma HeldWasGiven(w: World, l: Log, key: string, i: nat)
    requires Logged(w, l)
    ensures var q, lane := QueueAt(w.hub.queue, key), LaneAt(w.lanes, key);
            && (i < |q| ==> exists k :: GivenFor(l, key, q[i].env, k))
            && (i < |lane.handoffs| ==> exists k :: GivenFor(l, key, lane.handoffs[i].env, k))
            && (i < |lane.settled| ==> exists k :: GivenFor(l, key, lane.settled[i].env, k))
  {
    var q, lane := QueueAt(w.hub.queue, key), LaneAt(w.lanes, key);
    hide Logged, GivenFor, LaneAt, QueueAt;
    if i < |q| {
      assert Envs(q)[i] == q[i].env;
      PlacedWasGiven(w, l, key, q[i].env);
    }
    if i < |lane.handoffs| {
      assert HandoffEnvs(lane.handoffs)[i] == lane.handoffs[i].env;
      PlacedWasGiven(w, l, key, lane.handoffs[i].env);
    }
    if i < |lane.settled| {
      assert SettledEnvs(lane.settled)[i] == lane.settled[i].env;
      PlacedWasGiven(w, l, key, lane.settled[i].env);
    }
  }

  /** Every envelope waiting in a connection's buffer is one the relay was given for the
      connection's device, unchanged but for its id. */
  lemma DeliveredWasGiven(w: World, l: Log, c: ConnId, i: nat)
    requires Logged(w, l) && c in w.clients && i < |w.clients[c].out| && w.clients[c].out[i].Deliver?
    ensures exists k :: GivenFor(l, w.clients[c].key, w.clients[c].out[i].env, k)
  {
    LoggedInv(w, l);
    assert OutInv(w.clients[c], w.lanes);
    hide Logged, Inv, ContentInv, GivenFor, LaneAt, QueueAt, Bag, HandoffEnvs, SettledEnvs;
    PlacedWasGiven(w, l, w.clients[c].key, w.clients[c].out[i].env);
  }

  /** A push is sent exactly when the recipient has no connection, to the token registered last
      for it since the last restart, if any. */
  lemma PushExactly(w: World, l: Log, env: Message, stamp: int, now: int)
    requires Logged(w, l)
    ensures Routing(w.hub, env, stamp, now).1.pushToken
         == if KeyOf(env) !in w.hub.conns && KeyOf(env) in l.tokens then l.tokens[KeyOf(env)] else ""
  {
    LoggedInv(w, l);
    hide Logged, Inv, OutInv, Unchanged, KeyOf, EnvelopeId, Enqueue, Next;
  }
}
