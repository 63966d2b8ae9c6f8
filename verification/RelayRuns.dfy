/** Whole runs of a persistent hub. Every locked section, every hand-over of one envelope to
    one buffer, every connection event and every crash with its restart is a step of its own,
    so steps of different connections interleave freely. */
module RelayRuns {
  import opened Envelope
  import opened Options
  import opened RelayQueue
  import opened RelayHub

  type ConnId = nat

  /** Draining: its queue is being handed over and its writer has not started. Leaving: it
      has unregistered. Closed: its buffer is closed. */
  datatype Phase = Draining | Open | Leaving | Closed

  /** others counts the acks and statuses offered to it. */
  datatype Conn = Conn(key: string, phase: Phase, out: seq<Outgoing>, others: nat)

  datatype Handoff = Handoff(conn: ConnId, env: Message, drain: bool)

  datatype Outcome = Accepted | Dropped | ToClosed | Crashed

  datatype Settled = Settled(conn: ConnId, env: Message, outcome: Outcome)

  /** What has happened to one recipient device: what was queued for it since its queue was
      last drained, what expiry and the cap have removed, the hand-overs in progress, the
      finished ones, and its newest connection since the last restart. */
  datatype Lane = Lane(since: seq<Queued>, removed: multiset<Message>, handoffs: seq<Handoff>,
                       settled: seq<Settled>, newest: Option<ConnId>)

  const EMPTY_LANE := Lane([], multiset{}, [], [], None)

  datatype World = World(hub: State<ConnId>, disk: Disk, now: int, clients: map<ConnId, Conn>,
                         lanes: map<string, Lane>, issued: seq<Message>)

  datatype Event =
    | Route(env: Message, stamp: int, now: int)
    | Register(key: string, conn: ConnId, now: int)
    | Settle(key: string, index: nat)
    | Start(conn: ConnId)
    | Leave(conn: ConnId)
    | Close(conn: ConnId)
    | Take(conn: ConnId)
    | Other(conn: ConnId, message: Outgoing)
    | Push(key: string, token: string)
    | Restart(clock: map<string, int>, now: int)

  function LaneAt(lanes: map<string, Lane>, key: string): Lane {
    if key in lanes then lanes[key] else EMPTY_LANE
  }

  function Init(now: int): World {
    World(State(map[], map[], map[], 0), EMPTY_DISK, now, map[], map[], [])
  }

  // --- the steps ---

  predicate Enabled(w: World, e: Event) {
    match e
    case Route(_, stamp, now) => w.now <= stamp <= now
    case Register(_, c, now) => c !in w.clients && w.now <= now
    case Settle(key, i) => i < |LaneAt(w.lanes, key).handoffs| && LaneAt(w.lanes, key).handoffs[i].conn in w.clients
    case Start(c) => c in w.clients && w.clients[c].phase == Draining && !IsDraining(LaneAt(w.lanes, w.clients[c].key), c)
    case Leave(c) => c in w.clients && w.clients[c].phase == Open
    case Close(c) => c in w.clients && w.clients[c].phase == Leaving
    case Take(c) => c in w.clients && w.clients[c].phase != Draining && w.clients[c].out != []
    case Other(c, m) => c in w.clients && w.clients[c].phase != Closed && !m.Deliver?
    case Push(_, _) => true
    case Restart(clock, now) =>
      w.disk.queue.Keys <= clock.Keys && w.now <= now && forall k :: k in clock ==> w.now <= clock[k] <= now
  }

  predicate IsDraining(lane: Lane, c: ConnId) {
    exists i :: 0 <= i < |lane.handoffs| && lane.handoffs[i].conn == c && lane.handoffs[i].drain
  }

  function Apply(w: World, e: Event): World
    requires Enabled(w, e)
  {
    match e
    case Route(env, stamp, now) => ApplyRoute(w, env, stamp, now)
    case Register(key, c, now) => ApplyRegister(w, key, c, now)
    case Settle(key, i) => ApplySettle(w, key, i)
    case Start(c) => w.(clients := w.clients[c := w.clients[c].(phase := Open)])
    case Leave(c) =>
      w.(hub := Unregistering(w.hub, w.clients[c].key, c), clients := w.clients[c := w.clients[c].(phase := Leaving)])
    case Close(c) => w.(clients := w.clients[c := w.clients[c].(phase := Closed)])
    case Take(c) => w.(clients := w.clients[c := w.clients[c].(out := w.clients[c].out[1..])])
    case Other(c, m) =>
      w.(clients := w.clients[c := w.clients[c].(out := Offered(w.clients[c].out, m), others := w.clients[c].others + 1)])
    case Push(key, token) => w.(hub := w.hub.(pushTokens := w.hub.pushTokens[key := token]))
    case Restart(clock, now) => ApplyRestart(w, clock, now)
  }

  function Envs(q: seq<Queued>): (r: seq<Message>)
    ensures |r| == |q|
  {
    seq(|q|, i requires 0 <= i < |q| => q[i].env)
  }

  function Bag(q: seq<Queued>): multiset<Message> { multiset(Envs(q)) }

  function ApplyRoute(w: World, env: Message, stamp: int, now: int): World {
    var (s, r) := Routing(w.hub, env, stamp, now);
    var key := KeyOf(env);
    var lane := LaneAt(w.lanes, key);
    var lane' :=
      if r.target.Some? then lane.(handoffs := lane.handoffs + [Handoff(r.target.value, r.env, false)])
      else
        var entered := QueueAt(w.hub.queue, key) + [Queued(r.env, stamp)];
        lane.(since := lane.since + [Queued(r.env, stamp)],
              removed := lane.removed + (Bag(entered) - Bag(QueueAt(s.queue, key))));
    World(s, DiskOf(s), now, w.clients, w.lanes[key := lane'], w.issued + [r.env])
  }

  function Drained(q: seq<Queued>, c: ConnId): (r: seq<Handoff>)
    ensures |r| == |q|
  {
    seq(|q|, i requires 0 <= i < |q| => Handoff(c, q[i].env, true))
  }

  function ApplyRegister(w: World, key: string, c: ConnId, now: int): World {
    var (s, pending) := Registering(w.hub, key, c, now);
    var lane := LaneAt(w.lanes, key);
    var lane' := lane.(since := [], newest := Some(c), handoffs := lane.handoffs + Drained(pending, c),
                       removed := lane.removed + (Bag(QueueAt(w.hub.queue, key)) - Bag(pending)));
    World(s, if pending != [] then DiskOf(s) else w.disk, now, w.clients[c := Conn(key, Draining, [], 0)],
          w.lanes[key := lane'], w.issued)
  }

  /** One hand-over reaches the buffer, finds it full, or finds it closed. */
  function ApplySettle(w: World, key: string, i: nat): World
    requires Enabled(w, Settle(key, i))
  {
    var lane := LaneAt(w.lanes, key);
    var h := lane.handoffs[i];
    var conn := w.clients[h.conn];
    var outcome := if conn.phase == Closed then ToClosed else if |conn.out| < BUFFER then Accepted else Dropped;
    var lane' := lane.(handoffs := lane.handoffs[..i] + lane.handoffs[i + 1..],
                       settled := lane.settled + [Settled(h.conn, h.env, outcome)]);
    w.(lanes := w.lanes[key := lane'],
       clients := if conn.phase == Closed then w.clients
                  else w.clients[h.conn := conn.(out := Offered(conn.out, Deliver(h.env)))])
  }

  function Aborted(hs: seq<Handoff>): (r: seq<Settled>)
    ensures |r| == |hs|
  {
    seq(|hs|, i requires 0 <= i < |hs| => Settled(hs[i].conn, hs[i].env, Crashed))
  }

  function Crash(lane: Lane, before: seq<Queued>, after: seq<Queued>): Lane {
    Lane(lane.since, lane.removed + (Bag(before) - Bag(after)), [], lane.settled + Aborted(lane.handoffs), None)
  }

  /** The process dies; a new one loads the file. */
  function ApplyRestart(w: World, clock: map<string, int>, now: int): World
    requires w.disk.queue.Keys <= clock.Keys
  {
    var s: State<ConnId> := Loaded(w.disk, clock);
    World(s, w.disk, now, map c | c in w.clients :: w.clients[c].(phase := Closed),
          map k | k in w.lanes.Keys + w.hub.queue.Keys ::
            Crash(LaneAt(w.lanes, k), QueueAt(w.hub.queue, k), QueueAt(s.queue, k)), w.issued)
  }

  // --- what every step keeps ---

  /** The queues q and h look alike from now on: pruned at any later moment they are equal. */
  ghost predicate AlikeFrom(q: seq<Queued>, h: seq<Queued>, now: int) {
    forall t :: t >= now ==> Pruned(q, t) == Pruned(h, t)
  }

  ghost predicate SortedUpTo(q: seq<Queued>, now: int) {
    Sorted(q) && forall k :: 0 <= k < |q| ==> q[k].at <= now
  }

  /** Memory, disk and the log of everything queued since the last drain agree. */
  ghost predicate QueueInv(q: seq<Queued>, d: seq<Queued>, since: seq<Queued>, now: int) {
    && SortedUpTo(q, now) && SortedUpTo(d, now) && SortedUpTo(since, now)
    && |q| <= MAX_QUEUE
    && AlikeFrom(q, since, now) && AlikeFrom(d, q, now)
  }

  function HandoffEnvs(hs: seq<Handoff>): (r: seq<Message>)
    ensures |r| == |hs|
  {
    seq(|hs|, i requires 0 <= i < |hs| => hs[i].env)
  }

  function SettledEnvs(ss: seq<Settled>): (r: seq<Message>)
    ensures |r| == |ss|
  {
    seq(|ss|, i requires 0 <= i < |ss| => ss[i].env)
  }

  function RoutedTo(issued: seq<Message>, key: string): seq<Message> {
    if issued == [] then []
    else
      var n := |issued| - 1;
      RoutedTo(issued[..n], key) + if KeyOf(issued[n]) == key then [issued[n]] else []
  }

  /** Where the envelopes of one recipient are: in the queue, removed by expiry or the cap,
      on the way to a buffer, or settled. */
  function Places(q: seq<Queued>, lane: Lane): multiset<Message> {
    Bag(q) + lane.removed + multiset(HandoffEnvs(lane.handoffs)) + multiset(SettledEnvs(lane.settled))
  }

  ghost predicate Accounted(issued: seq<Message>, key: string, q: seq<Queued>, lane: Lane) {
    multiset(RoutedTo(issued, key)) == Places(q, lane)
  }

  ghost predicate ConnInv(conns: map<string, ConnId>, clients: map<ConnId, Conn>, lane: Lane, key: string) {
    && (lane.newest.Some? ==> lane.newest.value in clients && clients[lane.newest.value].key == key)
    && (key in conns <==> lane.newest.Some? && clients[lane.newest.value].phase in {Draining, Open})
    && (key in conns ==> conns[key] == lane.newest.value)
    && (forall i :: 0 <= i < |lane.handoffs| ==> HandoffInv(lane.handoffs[i], clients, key))
    && (forall i :: 0 <= i < |lane.settled| ==> IsFor(lane.settled[i].conn, clients, key))
  }

  ghost predicate IsFor(c: ConnId, clients: map<ConnId, Conn>, key: string) {
    c in clients && clients[c].key == key
  }

  ghost predicate HandoffInv(h: Handoff, clients: map<ConnId, Conn>, key: string) {
    IsFor(h.conn, clients, key) && (h.drain ==> clients[h.conn].phase == Draining)
  }

  ghost predicate LaneInv(w: World, key: string) {
    var q, lane := QueueAt(w.hub.queue, key), LaneAt(w.lanes, key);
    && QueueInv(q, QueueAt(w.disk.queue, key), lane.since, w.now)
    && (key in w.hub.queue ==> q != [] && key !in w.hub.conns)
    && (key in w.disk.queue ==> w.disk.queue[key] != [])
    && Accounted(w.issued, key, q, lane)
    && ConnInv(w.hub.conns, w.clients, lane, key)
  }

  function IdAt(i: nat): string { EnvelopeId((i + 1) % TWO64) }

  ghost predicate IdInv(w: World) {
    && w.disk.nextID == w.hub.nextID == |w.issued| % TWO64
    && forall i :: 0 <= i < |w.issued| ==> w.issued[i].id == IdAt(i)
  }

  ghost predicate Inv(w: World) {
    IdInv(w) && forall key :: LaneInv(w, key)
  }

  // --- queues ---

  lemma PrunedWithin(q: seq<Queued>, t: int, now: int)
    requires SortedUpTo(q, now)
    ensures SortedUpTo(Pruned(q, t), now)
  {
    hide Pruned;
    PrunedSorted(q, t);
    var p := Pruned(q, t);
    forall k | 0 <= k < |p| ensures p[k].at <= now {
      assert p[k] in q;
    }
  }

  lemma AlikeAfterPrune(q: seq<Queued>, h: seq<Queued>, since: int, t: int, now: int)
    requires Sorted(q) && since <= t <= now && AlikeFrom(q, h, since)
    ensures AlikeFrom(Pruned(q, t), h, now)
  {
    hide Pruned;
    forall u | u >= now ensures Pruned(Pruned(q, t), u) == Pruned(h, u) {
      PruneTwice(q, t, u);
    }
  }

  lemma AlikeWithAppend(q: seq<Queued>, h: seq<Queued>, x: Queued, now: int)
    requires AlikeFrom(q, h, now)
    ensures AlikeFrom(q + [x], h + [x], now)
  {
    hide Pruned;
    forall u | u >= now ensures Pruned(q + [x], u) == Pruned(h + [x], u) {
      SameAfterAppend(q, h, [x], u);
    }
  }

  /** Route: the entry is added and the queue pruned, then everything is written. */
  lemma RouteQueue(q: seq<Queued>, d: seq<Queued>, since: seq<Queued>, x: Queued, now: int, now': int)
    requires QueueInv(q, d, since, now) && now <= x.at <= now'
    ensures QueueInv(Pruned(q + [x], now'), Pruned(q + [x], now'), since + [x], now')
  {
    hide Pruned, AlikeFrom;
    AlikeWithAppend(q, since, x, now);
    AlikeAfterPrune(q + [x], since + [x], now, now', now');
    PrunedWithin(q + [x], now', now');
    AlikeSelf(Pruned(q + [x], now'), now');
    PrunedShort(q + [x], now');
  }

  lemma PrunedShort(q: seq<Queued>, now: int)
    ensures |Pruned(q, now)| <= MAX_QUEUE
  {}

  lemma AlikeSelf(q: seq<Queued>, now: int)
    ensures AlikeFrom(q, q, now)
  {}

  /** Any other recipient, at a step that writes everything. */
  lemma WrittenQueue(q: seq<Queued>, d: seq<Queued>, since: seq<Queued>, now: int, now': int)
    requires QueueInv(q, d, since, now) && now <= now'
    ensures QueueInv(q, q, since, now')
  {
    hide Pruned;
  }

  /** Any other recipient, at a step that writes nothing. */
  lemma LaterQueue(q: seq<Queued>, d: seq<Queued>, since: seq<Queued>, now: int, now': int)
    requires QueueInv(q, d, since, now) && now <= now'
    ensures QueueInv(q, d, since, now')
  {
    hide Pruned;
  }

  /** Register: what is handed over is the one-shot prune of the log. With nothing to hand
      over nothing is written, and what the disk still holds has expired. */
  lemma RegisterQueue(q: seq<Queued>, d: seq<Queued>, since: seq<Queued>, now: int, now': int)
    requires QueueInv(q, d, since, now) && now <= now'
    ensures Pruned(q, now') == Pruned(since, now')
    ensures QueueInv([], [], [], now')
    ensures Pruned(q, now') == [] ==> QueueInv([], d, [], now')
  {
    hide Pruned;
    if Pruned(q, now') == [] {
      forall t | t >= now' ensures Pruned(d, t) == Pruned([], t) {
        PruneTwice(q, now', t);
      }
    }
  }

  lemma RestartQueue(q: seq<Queued>, d: seq<Queued>, since: seq<Queued>, now: int, t: int, now': int)
    requires QueueInv(q, d, since, now) && now <= t <= now'
    ensures Pruned(d, t) == Pruned(q, t) && Sorted(q)
    ensures QueueInv(Pruned(d, t), d, since, now')
  {
    hide Pruned;
    PrunedWithin(d, t, now');
    PrunedShort(d, t);
    forall u | u >= now' ensures Pruned(Pruned(d, t), u) == Pruned(d, u) {
      PruneTwice(d, t, u);
    }
  }

  // --- queue maps ---

  lemma PruneKeyAt(queue: Queues, key: string, now: int, k: string)
    ensures QueueAt(PruneKey(queue, key, now), k) == if k == key then Pruned(QueueAt(queue, k), now) else QueueAt(queue, k)
    ensures k in PruneKey(queue, key, now) && (k in queue ==> queue[k] != []) ==> QueueAt(PruneKey(queue, key, now), k) != []
  {
    assert Pruned([], now) == [];
    hide Pruned;
  }

  lemma LoadedAt(d: Disk, clock: map<string, int>, k: string)
    requires d.queue.Keys <= clock.Keys
    ensures var s: State<ConnId> := Loaded(d, clock);
            && QueueAt(s.queue, k) == (if k in clock then Pruned(QueueAt(d.queue, k), clock[k]) else [])
            && (k in s.queue ==> k in d.queue)
            && (k in s.queue && d.queue[k] != [] ==> QueueAt(s.queue, k) != [])
  {
    assert forall t :: Pruned([], t) == [];
    hide Pruned;
  }

  // --- bags ---

  lemma BagAppend(a: seq<Queued>, b: seq<Queued>)
    ensures Bag(a + b) == Bag(a) + Bag(b)
  {
    assert Envs(a + b) == Envs(a) + Envs(b);
  }

  /** Pruning loses nothing from the account. */
  lemma BagPruned(q: seq<Queued>, now: int)
    requires Sorted(q)
    ensures Bag(Pruned(q, now)) <= Bag(q)
    ensures Bag(Pruned(q, now)) + (Bag(q) - Bag(Pruned(q, now))) == Bag(q)
  {
    hide Pruned, Bag;
    var k := Larger(Expired(q, now), |q| - MAX_QUEUE);
    PrunedIsSuffix(q, now);
    assert q == q[..k] + q[k..];
    BagAppend(q[..k], q[k..]);
  }

  /** Entries that leave the queue join another part of the account. */
  lemma BagMoved(a: multiset<Message>, p: multiset<Message>, r: multiset<Message>, h: multiset<Message>, s: multiset<Message>)
    requires p <= a
    ensures a + r + h + s == multiset{} + (r + (a - p)) + (h + p) + s
    ensures a + r + h + s == p + (r + (a - p)) + multiset{} + (s + h)
  {}

  lemma RoutedToAppend(issued: seq<Message>, e: Message, key: string)
    ensures RoutedTo(issued + [e], key) == RoutedTo(issued, key) + if KeyOf(e) == key then [e] else []
  {
    assert (issued + [e])[..|issued|] == issued;
  }

  // --- route ---

  lemma RouteKeeps(w: World, env: Message, stamp: int, now: int)
    requires Inv(w) && Enabled(w, Route(env, stamp, now))
    ensures Inv(ApplyRoute(w, env, stamp, now))
  {
    hide LaneInv, LaneAt, Enqueue, RoutedTo, Places;
    forall key ensures LaneInv(ApplyRoute(w, env, stamp, now), key) {
      if key != KeyOf(env) {
        RouteElsewhere(w, env, stamp, now, key);
      } else if key in w.hub.conns {
        RouteLive(w, env, stamp, now);
      } else {
        RouteAway(w, env, stamp, now);
      }
    }
    RouteIds(w, env, stamp, now);
  }

  lemma RouteIds(w: World, env: Message, stamp: int, now: int)
    requires IdInv(w)
    ensures IdInv(ApplyRoute(w, env, stamp, now))
  {
    hide LaneAt, Enqueue, EnvelopeId, Next, KeyOf, Bag;
    NextMod(|w.issued|);
  }

  lemma NextMod(n: nat)
    ensures Next(n % TWO64) == (n + 1) % TWO64
  {}

  lemma AccountElsewhere(issued: seq<Message>, e: Message, key: string, q: seq<Queued>, lane: Lane)
    requires Accounted(issued, key, q, lane) && KeyOf(e) != key
    ensures Accounted(issued + [e], key, q, lane)
  {
    hide RoutedTo, Places, KeyOf;
    RoutedToAppend(issued, e, key);
    assert RoutedTo(issued, key) + [] == RoutedTo(issued, key);
  }

  lemma RouteElsewhere(w: World, env: Message, stamp: int, now: int, key: string)
    requires LaneInv(w, key) && Enabled(w, Route(env, stamp, now)) && key != KeyOf(env)
    ensures LaneInv(ApplyRoute(w, env, stamp, now), key)
  {
    hide Accounted, ConnInv, QueueInv, PruneKey, KeyOf;
    var (s, r) := Routing(w.hub, env, stamp, now);
    var q, lane := QueueAt(w.hub.queue, key), LaneAt(w.lanes, key);
    PruneKeyAt(w.hub.queue[KeyOf(env) := QueueAt(w.hub.queue, KeyOf(env)) + [Queued(r.env, stamp)]], KeyOf(env), now, key);
    WrittenQueue(q, QueueAt(w.disk.queue, key), lane.since, w.now, now);
    SameKey(env, r.env.id);
    AccountElsewhere(w.issued, r.env, key, q, lane);
  }

  lemma SameKey(env: Message, id: string)
    ensures KeyOf(env.(id := id)) == KeyOf(env)
  {}

  function WithHandoffs(lane: Lane, hs: seq<Handoff>): Lane { lane.(handoffs := lane.handoffs + hs) }

  lemma ConnWithHandoff(conns: map<string, ConnId>, clients: map<ConnId, Conn>, lane: Lane, key: string, h: Handoff)
    requires ConnInv(conns, clients, lane, key) && HandoffInv(h, clients, key)
    ensures ConnInv(conns, clients, WithHandoffs(lane, [h]), key)
  {}

  lemma AccountHandoff(issued: seq<Message>, key: string, q: seq<Queued>, lane: Lane, h: Handoff)
    requires Accounted(issued, key, q, lane) && KeyOf(h.env) == key
    ensures Accounted(issued + [h.env], key, q, WithHandoffs(lane, [h]))
  {
    hide RoutedTo, KeyOf, Bag;
    RoutedToAppend(issued, h.env, key);
    assert HandoffEnvs(lane.handoffs + [h]) == HandoffEnvs(lane.handoffs) + [h.env];
  }

  lemma RouteLive(w: World, env: Message, stamp: int, now: int)
    requires LaneInv(w, KeyOf(env)) && Enabled(w, Route(env, stamp, now)) && KeyOf(env) in w.hub.conns
    ensures LaneInv(ApplyRoute(w, env, stamp, now), KeyOf(env))
  {
    hide Accounted, QueueInv, KeyOf;
    var key := KeyOf(env);
    var (s, r) := Routing(w.hub, env, stamp, now);
    var q, lane, h := QueueAt(w.hub.queue, key), LaneAt(w.lanes, key), Handoff(r.target.value, r.env, false);
    WrittenQueue(q, QueueAt(w.disk.queue, key), lane.since, w.now, now);
    ConnWithHandoff(w.hub.conns, w.clients, lane, key, h);
    hide ConnInv;
    SameKey(env, r.env.id);
    AccountHandoff(w.issued, key, q, lane, h);
  }

  lemma RouteAway(w: World, env: Message, stamp: int, now: int)
    requires LaneInv(w, KeyOf(env)) && Enabled(w, Route(env, stamp, now)) && KeyOf(env) !in w.hub.conns
    ensures LaneInv(ApplyRoute(w, env, stamp, now), KeyOf(env))
  {
    hide Accounted, QueueInv, PruneKey, KeyOf, Bag, Pruned;
    var key := KeyOf(env);
    var (s, r) := Routing(w.hub, env, stamp, now);
    var q, lane := QueueAt(w.hub.queue, key), LaneAt(w.lanes, key);
    var x := Queued(r.env, stamp);
    SameKey(env, r.env.id);
    PruneKeyAt(w.hub.queue[key := q + [x]], key, now, key);
    assert QueueAt(s.queue, key) == Pruned(q + [x], now) && (key in s.queue ==> QueueAt(s.queue, key) != []);
    RouteQueue(q, QueueAt(w.disk.queue, key), lane.since, x, w.now, now);
    AccountQueued(w.issued, key, q, QueueAt(w.disk.queue, key), lane, x, w.now, now);
    var w' := ApplyRoute(w, env, stamp, now);
    var lane' := lane.(since := lane.since + [x], removed := lane.removed + (Bag(q + [x]) - Bag(Pruned(q + [x], now))));
    assert LaneAt(w'.lanes, key) == lane';
    assert ConnInv(w'.hub.conns, w'.clients, lane', key);
  }

  lemma AccountQueued(issued: seq<Message>, key: string, q: seq<Queued>, d: seq<Queued>, lane: Lane,
                      x: Queued, now: int, now': int)
    requires Accounted(issued, key, q, lane) && KeyOf(x.env) == key
    requires QueueInv(q, d, lane.since, now) && now <= x.at
    ensures var q' := Pruned(q + [x], now');
            Accounted(issued + [x.env], key, q',
                      lane.(since := lane.since + [x], removed := lane.removed + (Bag(q + [x]) - Bag(q'))))
  {
    hide RoutedTo, KeyOf, Bag, Pruned;
    RoutedToAppend(issued, x.env, key);
    EnteredBag(q, x);
    BagPruned(q + [x], now');
  }

  lemma EnteredBag(q: seq<Queued>, x: Queued)
    ensures Bag(q + [x]) == Bag(q) + multiset{x.env}
  {
    BagAppend(q, [x]);
    assert Envs([x]) == [x.env];
  }

  // --- register ---

  lemma RegisterKeeps(w: World, key: string, c: ConnId, now: int)
    requires Inv(w) && Enabled(w, Register(key, c, now))
    ensures Inv(ApplyRegister(w, key, c, now))
  {
    hide LaneInv, LaneAt, PruneKey;
    forall k ensures LaneInv(ApplyRegister(w, key, c, now), k) {
      if k == key {
        RegisterHere(w, key, c, now);
      } else {
        RegisterElsewhere(w, key, c, now, k);
      }
    }
  }

  lemma ConnNew(conns: map<string, ConnId>, clients: map<ConnId, Conn>, lane: Lane, k: string, c: ConnId, conn: Conn)
    requires ConnInv(conns, clients, lane, k) && c !in clients && conn.key != k
    ensures ConnInv(conns[conn.key := c], clients[c := conn], lane, k)
  {}

  lemma RegisterElsewhere(w: World, key: string, c: ConnId, now: int, k: string)
    requires LaneInv(w, k) && Enabled(w, Register(key, c, now)) && k != key
    ensures LaneInv(ApplyRegister(w, key, c, now), k)
  {
    hide Accounted, ConnInv, QueueInv, PruneKey;
    var q, d, lane := QueueAt(w.hub.queue, k), QueueAt(w.disk.queue, k), LaneAt(w.lanes, k);
    PruneKeyAt(w.hub.queue, key, now, k);
    LaterQueue(q, d, lane.since, w.now, now);
    WrittenQueue(q, d, lane.since, w.now, now);
    ConnNew(w.hub.conns, w.clients, lane, k, c, Conn(key, Draining, [], 0));
  }

  function Registered(lane: Lane, q: seq<Queued>, pending: seq<Queued>, c: ConnId): Lane {
    lane.(since := [], newest := Some(c), handoffs := lane.handoffs + Drained(pending, c),
          removed := lane.removed + (Bag(q) - Bag(pending)))
  }

  lemma RegisterHere(w: World, key: string, c: ConnId, now: int)
    requires LaneInv(w, key) && Enabled(w, Register(key, c, now))
    ensures LaneInv(ApplyRegister(w, key, c, now), key)
  {
    hide Accounted, QueueInv, PruneKey, Pruned, Bag;
    var q, d, lane := QueueAt(w.hub.queue, key), QueueAt(w.disk.queue, key), LaneAt(w.lanes, key);
    var pending := Pruned(q, now);
    PruneKeyAt(w.hub.queue, key, now, key);
    RegisterQueue(q, d, lane.since, w.now, now);
    ConnRegistered(w.hub.conns, w.clients, lane, key, c, q, pending);
    AccountRegistered(w.issued, key, q, d, lane, c, w.now, now);
    hide ConnInv;
    var w' := ApplyRegister(w, key, c, now);
    assert LaneAt(w'.lanes, key) == Registered(lane, q, pending, c);
    assert QueueAt(w'.hub.queue, key) == [] && key !in w'.hub.queue;
  }

  lemma ConnRegistered(conns: map<string, ConnId>, clients: map<ConnId, Conn>, lane: Lane, key: string, c: ConnId,
                       q: seq<Queued>, pending: seq<Queued>)
    requires ConnInv(conns, clients, lane, key) && c !in clients
    ensures ConnInv(conns[key := c], clients[c := Conn(key, Draining, [], 0)], Registered(lane, q, pending, c), key)
  {
    hide Bag;
  }

  lemma AccountRegistered(issued: seq<Message>, key: string, q: seq<Queued>, d: seq<Queued>, lane: Lane,
                          c: ConnId, now: int, now': int)
    requires Accounted(issued, key, q, lane) && QueueInv(q, d, lane.since, now)
    ensures Accounted(issued, key, [], Registered(lane, q, Pruned(q, now'), c))
  {
    var pending := Pruned(q, now');
    HandoffEnvsDrained(lane.handoffs, pending, c);
    assert Bag([]) == multiset{};
    hide Pruned, Bag, RoutedTo;
    BagPruned(q, now');
    BagMoved(Bag(q), Bag(pending), lane.removed, multiset(HandoffEnvs(lane.handoffs)), multiset(SettledEnvs(lane.settled)));
  }

  lemma HandoffEnvsDrained(hs: seq<Handoff>, q: seq<Queued>, c: ConnId)
    ensures multiset(HandoffEnvs(hs + Drained(q, c))) == multiset(HandoffEnvs(hs)) + Bag(q)
  {
    assert HandoffEnvs(hs + Drained(q, c)) == HandoffEnvs(hs) + Envs(q);
  }

  // --- one hand-over ---

  /** Buffers may change; keys and phases do not. */
  ghost predicate SamePhases(a: map<ConnId, Conn>, b: map<ConnId, Conn>) {
    a.Keys == b.Keys && forall c :: c in a ==> a[c].key == b[c].key && a[c].phase == b[c].phase
  }

  lemma ConnSamePhases(conns: map<string, ConnId>, a: map<ConnId, Conn>, b: map<ConnId, Conn>, lane: Lane, key: string)
    requires ConnInv(conns, a, lane, key) && SamePhases(a, b)
    ensures ConnInv(conns, b, lane, key)
  {}

  lemma BuffersKeep(w: World, clients: map<ConnId, Conn>)
    requires Inv(w) && SamePhases(w.clients, clients)
    ensures Inv(w.(clients := clients))
  {
    hide Accounted, QueueInv, ConnInv, SamePhases;
    var w' := w.(clients := clients);
    forall key ensures LaneInv(w', key) {
      assert LaneInv(w, key);
      ConnSamePhases(w.hub.conns, w.clients, clients, LaneAt(w.lanes, key), key);
    }
  }

  function Moved(lane: Lane, i: nat, outcome: Outcome): Lane
    requires i < |lane.handoffs|
  {
    var h := lane.handoffs[i];
    lane.(handoffs := lane.handoffs[..i] + lane.handoffs[i + 1..], settled := lane.settled + [Settled(h.conn, h.env, outcome)])
  }

  lemma SettleKeeps(w: World, key: string, i: nat)
    requires Inv(w) && Enabled(w, Settle(key, i))
    ensures Inv(ApplySettle(w, key, i))
  {
    hide LaneInv, Accounted, QueueInv, ConnInv;
    var w' := ApplySettle(w, key, i);
    BuffersKeep(w, w'.clients);
    var v := w.(clients := w'.clients);
    forall k ensures LaneInv(w', k) {
      assert LaneInv(v, k);
      if k == key {
        SettleHere(v, key, i, w'.lanes[key].settled[|LaneAt(w.lanes, key).settled|].outcome);
      } else {
        LaneUntouched(v, w', k);
      }
    }
  }

  lemma LaneUntouched(v: World, w: World, k: string)
    requires LaneInv(v, k) && w == v.(lanes := w.lanes) && LaneAt(v.lanes, k) == LaneAt(w.lanes, k)
    ensures LaneInv(w, k)
  {
    hide Accounted, QueueInv, ConnInv;
  }

  lemma SettleHere(w: World, key: string, i: nat, outcome: Outcome)
    requires LaneInv(w, key) && i < |LaneAt(w.lanes, key).handoffs|
    ensures LaneInv(w.(lanes := w.lanes[key := Moved(LaneAt(w.lanes, key), i, outcome)]), key)
  {
    hide Accounted, QueueInv;
    AccountMoved(w.issued, key, QueueAt(w.hub.queue, key), LaneAt(w.lanes, key), i, outcome);
  }

  lemma AccountMoved(issued: seq<Message>, key: string, q: seq<Queued>, lane: Lane, i: nat, outcome: Outcome)
    requires Accounted(issued, key, q, lane) && i < |lane.handoffs|
    ensures Accounted(issued, key, q, Moved(lane, i, outcome))
  {
    hide RoutedTo, Bag;
    var hs := HandoffEnvs(lane.handoffs);
    assert HandoffEnvs(lane.handoffs[..i] + lane.handoffs[i + 1..]) == hs[..i] + hs[i + 1..];
    assert hs == hs[..i] + [hs[i]] + hs[i + 1..];
    var moved := Moved(lane, i, outcome);
    assert SettledEnvs(moved.settled) == SettledEnvs(lane.settled) + [hs[i]];
  }

  // --- connection events ---

  lemma PhaseKeeps(w: World, c: ConnId, phase: Phase)
    requires Inv(w) && c in w.clients
    requires (w.clients[c].phase, phase) == (Leaving, Closed)
          || ((w.clients[c].phase, phase) == (Draining, Open) && !IsDraining(LaneAt(w.lanes, w.clients[c].key), c))
    ensures Inv(w.(clients := w.clients[c := w.clients[c].(phase := phase)]))
  {
    hide Accounted, QueueInv, ConnInv;
    var w' := w.(clients := w.clients[c := w.clients[c].(phase := phase)]);
    forall key ensures LaneInv(w', key) {
      assert LaneInv(w, key);
      ConnPhase(w.hub.conns, w.clients, LaneAt(w.lanes, key), key, c, phase);
    }
  }

  lemma ConnPhase(conns: map<string, ConnId>, clients: map<ConnId, Conn>, lane: Lane, key: string, c: ConnId, phase: Phase)
    requires ConnInv(conns, clients, lane, key) && c in clients
    requires (clients[c].phase, phase) == (Leaving, Closed)
          || ((clients[c].phase, phase) == (Draining, Open) && (clients[c].key == key ==> !IsDraining(lane, c)))
    ensures ConnInv(conns, clients[c := clients[c].(phase := phase)], lane, key)
  {
    var clients' := clients[c := clients[c].(phase := phase)];
    forall i | 0 <= i < |lane.handoffs| ensures HandoffInv(lane.handoffs[i], clients', key) {
      assert HandoffInv(lane.handoffs[i], clients, key);
    }
  }

  /** Leaving removes the connection from the hub only if no newer one has taken its place. */
  lemma LeaveKeeps(w: World, c: ConnId)
    requires Inv(w) && Enabled(w, Leave(c))
    ensures Inv(Apply(w, Leave(c)))
  {
    hide Accounted, QueueInv, ConnInv;
    var w' := Apply(w, Leave(c));
    forall key ensures LaneInv(w', key) {
      assert LaneInv(w, key);
      ConnLeave(w, LaneAt(w.lanes, key), key, c);
    }
  }

  lemma ConnLeave(w: World, lane: Lane, key: string, c: ConnId)
    requires ConnInv(w.hub.conns, w.clients, lane, key) && c in w.clients && w.clients[c].phase == Open
    ensures ConnInv(Unregistering(w.hub, w.clients[c].key, c).conns,
                    w.clients[c := w.clients[c].(phase := Leaving)], lane, key)
  {
    var clients' := w.clients[c := w.clients[c].(phase := Leaving)];
    forall i | 0 <= i < |lane.handoffs| ensures HandoffInv(lane.handoffs[i], clients', key) {
      assert HandoffInv(lane.handoffs[i], w.clients, key);
    }
  }

  // --- crash and restart ---

  lemma RestartKeeps(w: World, clock: map<string, int>, now: int)
    requires Inv(w) && Enabled(w, Restart(clock, now))
    ensures Inv(ApplyRestart(w, clock, now))
  {
    hide LaneInv, LoadedQueue;
    forall key ensures LaneInv(ApplyRestart(w, clock, now), key) {
      assert LaneInv(w, key);
      RestartLane(w, clock, now, key);
    }
  }

  lemma RestartLane(w: World, clock: map<string, int>, now: int, key: string)
    requires LaneInv(w, key) && Enabled(w, Restart(clock, now))
    ensures LaneInv(ApplyRestart(w, clock, now), key)
  {
    hide Accounted, QueueInv, Pruned, Bag, LoadedQueue;
    var q, d, lane := QueueAt(w.hub.queue, key), QueueAt(w.disk.queue, key), LaneAt(w.lanes, key);
    var t := if key in clock then clock[key] else w.now;
    LoadedAt(w.disk, clock, key);
    RestartQueue(q, d, lane.since, w.now, t, now);
    NothingToPrune(t);
    assert QueueAt(ApplyRestart(w, clock, now).hub.queue, key) == Pruned(d, t);
    CrashLaneAt(w, clock, now, key);
    AccountCrash(w.issued, key, q, lane, t);
    ConnCrashed(w.hub.conns, w.clients, lane, key, q, Pruned(d, t));
    hide ConnInv, LaneAt, Crash;
  }

  lemma ConnCrashed(conns: map<string, ConnId>, clients: map<ConnId, Conn>, lane: Lane, key: string,
                    before: seq<Queued>, after: seq<Queued>)
    requires ConnInv(conns, clients, lane, key)
    ensures ConnInv(map[], map c | c in clients :: clients[c].(phase := Closed), Crash(lane, before, after), key)
  {
    hide Bag;
  }

  lemma NothingToPrune(t: int)
    ensures Pruned([], t) == []
  {}

  lemma CrashLaneAt(w: World, clock: map<string, int>, now: int, key: string)
    requires LaneInv(w, key) && Enabled(w, Restart(clock, now))
    ensures var w' := ApplyRestart(w, clock, now);
            LaneAt(w'.lanes, key) == Crash(LaneAt(w.lanes, key), QueueAt(w.hub.queue, key), QueueAt(w'.hub.queue, key))
  {
    hide LaneInv, LoadedQueue, Crash;
    if key !in w.lanes && key !in w.hub.queue {
      NothingCrashes(QueueAt(ApplyRestart(w, clock, now).hub.queue, key));
      assert LaneAt(ApplyRestart(w, clock, now).lanes, key) == EMPTY_LANE;
    }
  }

  lemma NothingCrashes(after: seq<Queued>)
    ensures Crash(EMPTY_LANE, [], after) == EMPTY_LANE
  {
    assert Bag([]) == multiset{};
    hide Bag;
  }

  lemma AccountCrash(issued: seq<Message>, key: string, q: seq<Queued>, lane: Lane, t: int)
    requires Accounted(issued, key, q, lane) && Sorted(q)
    ensures Accounted(issued, key, Pruned(q, t), Crash(lane, q, Pruned(q, t)))
  {
    hide RoutedTo, Bag, Pruned, HandoffEnvs, SettledEnvs, Aborted;
    BagPruned(q, t);
    SettledAborted(lane.settled, lane.handoffs);
    BagMoved(Bag(q), Bag(Pruned(q, t)), lane.removed, multiset(HandoffEnvs(lane.handoffs)), multiset(SettledEnvs(lane.settled)));
  }

  lemma SettledAborted(ss: seq<Settled>, hs: seq<Handoff>)
    ensures SettledEnvs(ss + Aborted(hs)) == SettledEnvs(ss) + HandoffEnvs(hs)
    ensures HandoffEnvs([]) == []
  {}

  // --- runs ---

  lemma InitInv(now: int)
    ensures Inv(Init(now))
  {
    var w := Init(now);
    forall key ensures LaneInv(w, key) {
      assert HandoffEnvs([]) == [] && SettledEnvs([]) == [] && Envs([]) == [];
    }
  }

  lemma StepKeeps(w: World, e: Event)
    requires Inv(w) && Enabled(w, e)
    ensures Inv(Apply(w, e))
  {
    hide Inv, ApplyRoute, ApplyRegister, ApplySettle, ApplyRestart;
    match e
    case Route(env, stamp, now) => RouteKeeps(w, env, stamp, now);
    case Register(key, c, now) => RegisterKeeps(w, key, c, now);
    case Settle(key, i) => SettleKeeps(w, key, i);
    case Start(c) => PhaseKeeps(w, c, Open);
    case Leave(c) => LeaveKeeps(w, c);
    case Close(c) => PhaseKeeps(w, c, Closed);
    case Take(c) => BuffersKeep(w, Apply(w, e).clients);
    case Other(c, m) => BuffersKeep(w, Apply(w, e).clients);
    case Push(key, token) => PushKeeps(w, key, token);
    case Restart(clock, now) => RestartKeeps(w, clock, now);
  }

  lemma PushKeeps(w: World, key: string, token: string)
    requires Inv(w)
    ensures Inv(Apply(w, Push(key, token)))
  {
    hide Accounted, QueueInv, ConnInv;
    forall k ensures LaneInv(Apply(w, Push(key, token)), k) {
      assert LaneInv(w, k);
    }
  }

  ghost predicate Run(w: World, events: seq<Event>, w': World)
    decreases |events|
  {
    if events == [] then w == w' else Enabled(w, events[0]) && Run(Apply(w, events[0]), events[1..], w')
  }

  lemma {:induction false} RunKeeps(w: World, events: seq<Event>, w': World)
    requires Inv(w) && Run(w, events, w')
    ensures Inv(w')
    decreases |events|
  {
    hide Inv, Enabled, Apply;
    if events != [] {
      StepKeeps(w, events[0]);
      RunKeeps(Apply(w, events[0]), events[1..], w');
    }
  }

  ghost predicate Reachable(w: World) {
    exists now, events :: Run(Init(now), events, w)
  }

  lemma ReachableInv(w: World)
    requires Reachable(w)
    ensures Inv(w)
  {
    hide Run, Inv;
    var now, events :| Run(Init(now), events, w);
    InitInv(now);
    RunKeeps(Init(now), events, w);
  }
}
