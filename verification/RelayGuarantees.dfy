/** What the relay's step relation guarantees in every reachable state. */
module RelayGuarantees {
  import opened Envelope
  import opened Options
  import opened RelayQueue
  import opened RelayHub
  import opened RelayRuns

  /** However often and whenever the queue was pruned in between, a device that connects is
      handed exactly the newest at most 1000 unexpired envelopes of all that were queued for
      it since its last drain, in the order in which they were routed. */
  lemma DrainIsOneShot(w: World, key: string, c: ConnId, now: int)
    requires Reachable(w) && Enabled(w, Register(key, c, now))
    ensures Registering(w.hub, key, c, now).1 == Pruned(LaneAt(w.lanes, key).since, now)
    ensures key !in Registering(w.hub, key, c, now).0.queue
  {
    ReachableInv(w);
    assert LaneInv(w, key);
    PruneKeyAt(w.hub.queue, key, now, key);
    hide Reachable, Pruned, PruneKey;
  }

  /** The file and the memory differ at most in entries that have expired. */
  lemma DiskAgrees(w: World, key: string, t: int)
    requires Reachable(w) && t >= w.now
    ensures Pruned(QueueAt(w.disk.queue, key), t) == Pruned(QueueAt(w.hub.queue, key), t)
    ensures w.disk.nextID == w.hub.nextID
  {
    ReachableInv(w);
    assert LaneInv(w, key);
  }

  lemma FirstQueued(env: Message, x: Queued)
    requires x == Queued(env.(id := EnvelopeId(1)), 0)
    ensures Enqueue(map[], x.env, 0, 0) == map[KeyOf(env) := [x]]
  {
    LiveAll([x], 0);
    SameKey(env, x.env.id);
    hide KeyOf, EnvelopeId, Live;
    assert (map[])[KeyOf(env) := [x]] == map[KeyOf(env) := [x]];
  }

  lemma AfterFirstRoute(env: Message, x: Queued)
    requires x == Queued(env.(id := EnvelopeId(1)), 0)
    ensures var w := ApplyRoute(Init(0), env, 0, 0);
            && w.hub.queue == w.disk.queue == map[KeyOf(env) := [x]]
            && w.clients == map[] && w.now == 0
  {
    FirstQueued(env, x);
    hide KeyOf, EnvelopeId, Enqueue, Bag;
  }

  lemma AfterExpiry(w: World, key: string, x: Queued)
    requires w.hub.queue == w.disk.queue == map[key := [x]] && x.at == 0
    ensures var w' := ApplyRegister(w, key, 0, QUEUE_TTL + 1);
            w'.disk.queue == map[key := [x]] && key !in w'.hub.queue
  {
    LiveNone([x], QUEUE_TTL + 1);
    hide Live, Bag, Drained, LaneAt;
    assert PruneKey(map[key := [x]], key, QUEUE_TTL + 1) == map[];
  }

  lemma TwoSteps(w: World, e: Event, f: Event)
    requires Enabled(w, e) && Enabled(Apply(w, e), f)
    ensures Run(w, [e, f], Apply(Apply(w, e), f))
  {
    hide Enabled, Apply;
    var v := Apply(w, e);
    assert Run(v, [f], Apply(v, f)) by {
      assert Run(Apply(v, f), [], Apply(v, f));
      assert [f][1..] == [];
    }
    assert [e, f][1..] == [f];
  }

  /** They can differ: an envelope expires, its recipient connects and is handed nothing, and
      nothing is written. */
  lemma FileCanLag(env: Message) returns (w: World)
    ensures Reachable(w) && QueueAt(w.disk.queue, KeyOf(env)) != QueueAt(w.hub.queue, KeyOf(env))
  {
    var x := Queued(env.(id := EnvelopeId(1)), 0);
    var e, f := Route(env, 0, 0), Register(KeyOf(env), 0, QUEUE_TTL + 1);
    AfterFirstRoute(env, x);
    AfterExpiry(ApplyRoute(Init(0), env, 0, 0), KeyOf(env), x);
    hide KeyOf, EnvelopeId, ApplyRoute, ApplyRegister, Run;
    TwoSteps(Init(0), e, f);
    w := Apply(Apply(Init(0), e), f);
  }

  /** Nothing waits for a connected device, and the device's connection is its newest. */
  lemma ConnectedMeansDrained(w: World, key: string)
    requires Reachable(w) && key in w.hub.conns
    ensures key !in w.hub.queue && LaneAt(w.lanes, key).newest == Some(w.hub.conns[key])
  {
    ReachableInv(w);
    assert LaneInv(w, key);
  }

  /** When an older connection goes away, the hub keeps the newer one. */
  lemma OldConnectionLeaves(w: World, c: ConnId)
    requires Reachable(w) && Enabled(w, Leave(c))
    ensures Apply(w, Leave(c)).hub == w.hub <==> LaneAt(w.lanes, w.clients[c].key).newest != Some(c)
  {
    ReachableInv(w);
    assert LaneInv(w, w.clients[c].key);
  }

  // --- ids ---

  lemma Wraps(i: nat)
    requires i < TWO64
    ensures (i + 1) % TWO64 == if i + 1 == TWO64 then 0 else i + 1
  {}

  lemma IdAtInjective(i: nat, j: nat)
    requires i < TWO64 && j < TWO64 && IdAt(i) == IdAt(j)
    ensures i == j
  {
    hide EnvelopeId;
    EnvelopeIdInjective((i + 1) % TWO64, (j + 1) % TWO64);
    Wraps(i);
    Wraps(j);
  }

  /** Until 2^64 envelopes have been routed no id is used twice, restarts included. */
  lemma IdsDistinct(w: World, i: nat, j: nat)
    requires Reachable(w) && i < j < |w.issued| <= TWO64
    ensures w.issued[i].id != w.issued[j].id
  {
    ReachableInv(w);
    hide Reachable, LaneInv, IdAt;
    if IdAt(i) == IdAt(j) {
      IdAtInjective(i, j);
      assert false;
    }
  }

  lemma {:induction false} RoutedToCount(issued: seq<Message>, key: string, e: Message)
    ensures multiset(RoutedTo(issued, key))[e] == if KeyOf(e) == key then multiset(issued)[e] else 0
  {
    hide KeyOf;
    if issued != [] {
      var n := |issued| - 1;
      RoutedToCount(issued[..n], key, e);
      assert issued == issued[..n] + [issued[n]];
    }
  }

  lemma {:induction false} CountOnce(s: seq<Message>, i: nat)
    requires i < |s| && forall j, k :: 0 <= j < k < |s| ==> s[j] != s[k]
    ensures multiset(s)[s[i]] == 1
  {
    var n := |s| - 1;
    assert s == s[..n] + [s[n]];
    if i < n {
      CountOnce(s[..n], i);
    } else {
      assert s[n] !in s[..n];
    }
  }

  lemma IssuedOnce(w: World, i: nat)
    requires Reachable(w) && i < |w.issued| <= TWO64
    ensures multiset(w.issued)[w.issued[i]] == 1
  {
    hide Reachable;
    forall j, k | 0 <= j < k < |w.issued| ensures w.issued[j] != w.issued[k] {
      IdsDistinct(w, j, k);
    }
    CountOnce(w.issued, i);
  }

  // --- exact accounting ---

  /** Every routed envelope is in exactly one place: in its recipient's queue, removed by
      expiry or the cap, on its way to a buffer, or settled, and never at another recipient. */
  lemma InExactlyOnePlace(w: World, i: nat, key: string)
    requires Reachable(w) && i < |w.issued| <= TWO64
    ensures var e, lane := w.issued[i], LaneAt(w.lanes, key);
            Bag(QueueAt(w.hub.queue, key))[e] + lane.removed[e] + multiset(HandoffEnvs(lane.handoffs))[e]
            + multiset(SettledEnvs(lane.settled))[e] == if KeyOf(e) == key then 1 else 0
  {
    ReachableInv(w);
    assert LaneInv(w, key);
    hide Reachable, RoutedTo, Bag, HandoffEnvs, SettledEnvs, KeyOf;
    IssuedOnce(w, i);
    RoutedToCount(w.issued, key, w.issued[i]);
  }

  // --- what "removed" means ---

  /** What pruning takes off a queue in time order. */
  function Cut(q: seq<Queued>, t: int): (r: seq<Queued>)
    ensures |r| <= |q|
  {
    q[..Larger(Expired(q, t), |q| - MAX_QUEUE)]
  }

  /** An entry is cut exactly if it has expired or at least 1000 newer ones are behind it. */
  lemma CutExactly(q: seq<Queued>, t: int, i: nat)
    requires Sorted(q) && i < |q|
    ensures i < |Cut(q, t)| <==> q[i].at < t - 30 * 24 * 60 * 60 * 1000 || i + 1000 < |q|
    ensures Cut(q, t) + Pruned(q, t) == q
  {
    PrunedIsSuffix(q, t);
    LiveFrom(q, t, i);
    hide Pruned, Expired, Sorted;
  }

  lemma LiveFrom(q: seq<Queued>, t: int, i: nat)
    requires Sorted(q) && i < |q|
    ensures i < Expired(q, t) <==> !IsLive(q[i], t)
  {
    if i >= Expired(q, t) {
      assert q[Expired(q, t)].at <= q[i].at;
    }
  }

  lemma BagOfCut(q: seq<Queued>, t: int)
    requires Sorted(q)
    ensures Bag(q) - Bag(Pruned(q, t)) == Bag(Cut(q, t))
  {
    hide Pruned, Bag, Expired;
    PrunedIsSuffix(q, t);
    var k := Larger(Expired(q, t), |q| - MAX_QUEUE);
    assert q == q[..k] + q[k..];
    BagAppend(q[..k], q[k..]);
  }

  /** The queue of this recipient that a step prunes, and the time it is pruned for. A restart
      reads the file, but what is lost is what was in memory. */
  function PrunedBy(w: World, e: Event, key: string): (seq<Queued>, int) {
    var q := QueueAt(w.hub.queue, key);
    match e
    case Route(env, stamp, now) =>
      if KeyOf(env) == key && key !in w.hub.conns
      then (q + [Queued(Routing(w.hub, env, stamp, now).1.env, stamp)], now) else ([], now)
    case Register(k, c, now) => if k == key then (q, now) else ([], now)
    case Restart(clock, now) => (q, if key in clock then clock[key] else w.now)
    case _ => ([], w.now)
  }

  /** What pruning this queue cut off joined the removed envelopes. */
  ghost predicate Sheds(w: World, w': World, key: string, q: seq<Queued>, t: int) {
    Sorted(q) && LaneAt(w'.lanes, key).removed == LaneAt(w.lanes, key).removed + Bag(Cut(q, t))
  }

  lemma ShedsNothing(w: World, w': World, key: string, t: int)
    requires LaneAt(w'.lanes, key).removed == LaneAt(w.lanes, key).removed
    ensures Sheds(w, w', key, [], t)
  {
    hide LaneAt;
    assert Cut([], t) == [] && Bag([]) == multiset{};
  }

  lemma ShedsCut(w: World, w': World, key: string, q: seq<Queued>, t: int)
    requires Sorted(q)
    requires LaneAt(w'.lanes, key).removed == LaneAt(w.lanes, key).removed + (Bag(q) - Bag(Pruned(q, t)))
    ensures Sheds(w, w', key, q, t)
  {
    hide LaneAt, Bag, Pruned, Cut, Sorted;
    BagOfCut(q, t);
  }

  lemma RouteAwayLane(w: World, env: Message, stamp: int, now: int)
    requires KeyOf(env) !in w.hub.conns
    ensures var key, stamped := KeyOf(env), Routing(w.hub, env, stamp, now).1.env;
            var q := QueueAt(w.hub.queue, key) + [Queued(stamped, stamp)];
            LaneAt(ApplyRoute(w, env, stamp, now).lanes, key).removed
              == LaneAt(w.lanes, key).removed + (Bag(q) - Bag(Pruned(q, now)))
  {
    var key, stamped := KeyOf(env), Routing(w.hub, env, stamp, now).1.env;
    SameKey(env, stamped.id);
    PruneKeyAt(w.hub.queue[key := QueueAt(w.hub.queue, key) + [Queued(stamped, stamp)]], key, now, key);
    hide KeyOf, PruneKey, Bag, Pruned, EnvelopeId, Next;
  }

  lemma RouteOtherLane(w: World, env: Message, stamp: int, now: int, key: string)
    requires KeyOf(env) != key || key in w.hub.conns
    ensures LaneAt(ApplyRoute(w, env, stamp, now).lanes, key).removed == LaneAt(w.lanes, key).removed
  {
    hide KeyOf, Enqueue, Bag, EnvelopeId, Next;
  }

  lemma SortedAfter(q: seq<Queued>, d: seq<Queued>, since: seq<Queued>, now: int, x: Queued)
    requires QueueInv(q, d, since, now) && now <= x.at
    ensures Sorted(q) && Sorted(q + [x])
  {
    hide AlikeFrom;
  }

  lemma RouteSheds(w: World, env: Message, stamp: int, now: int, key: string)
    requires LaneInv(w, key) && w.now <= stamp
    ensures var (q, t) := PrunedBy(w, Route(env, stamp, now), key);
            Sheds(w, ApplyRoute(w, env, stamp, now), key, q, t)
  {
    hide Accounted, ConnInv, QueueInv, KeyOf, ApplyRoute, LaneAt, Sheds, Sorted, Bag, Pruned, Enqueue;
    if KeyOf(env) == key && key !in w.hub.conns {
      var q, x := QueueAt(w.hub.queue, key), Queued(Routing(w.hub, env, stamp, now).1.env, stamp);
      SortedAfter(q, QueueAt(w.disk.queue, key), LaneAt(w.lanes, key).since, w.now, x);
      RouteAwayLane(w, env, stamp, now);
      ShedsCut(w, ApplyRoute(w, env, stamp, now), key, q + [x], now);
    } else {
      RouteOtherLane(w, env, stamp, now, key);
      ShedsNothing(w, ApplyRoute(w, env, stamp, now), key, now);
    }
  }

  lemma RegisterLane(w: World, key: string, c: ConnId, now: int, k: string)
    ensures var q := QueueAt(w.hub.queue, k);
            LaneAt(ApplyRegister(w, key, c, now).lanes, k).removed
              == if k == key then LaneAt(w.lanes, k).removed + (Bag(q) - Bag(Pruned(q, now)))
                 else LaneAt(w.lanes, k).removed
  {
    PruneKeyAt(w.hub.queue, key, now, key);
    hide PruneKey, Bag, Pruned, Drained;
  }

  lemma RegisterSheds(w: World, key: string, c: ConnId, now: int, k: string)
    requires LaneInv(w, k)
    ensures var (q, t) := PrunedBy(w, Register(key, c, now), k);
            Sheds(w, ApplyRegister(w, key, c, now), k, q, t)
  {
    hide LaneInv, ApplyRegister, LaneAt, QueueAt, Sheds, Sorted, Bag, Pruned;
    RegisterLane(w, key, c, now, k);
    LaneQueues(w, k);
    if k == key {
      ShedsCut(w, ApplyRegister(w, key, c, now), k, QueueAt(w.hub.queue, k), now);
    } else {
      ShedsNothing(w, ApplyRegister(w, key, c, now), k, now);
    }
  }

  lemma RestartSheds(w: World, clock: map<string, int>, now: int, key: string)
    requires LaneInv(w, key) && Enabled(w, Restart(clock, now))
    ensures var (q, t) := PrunedBy(w, Restart(clock, now), key);
            Sheds(w, ApplyRestart(w, clock, now), key, q, t)
  {
    var (q, t) := PrunedBy(w, Restart(clock, now), key);
    var w' := ApplyRestart(w, clock, now);
    RestartedQueue(w, clock, now, key);
    CrashLaneAt(w, clock, now, key);
    hide *;
    CrashRemoves(LaneAt(w.lanes, key), q, Pruned(q, t));
    ShedsCut(w, w', key, q, t);
  }

  lemma CrashRemoves(lane: Lane, before: seq<Queued>, after: seq<Queued>)
    ensures Crash(lane, before, after).removed == lane.removed + (Bag(before) - Bag(after))
  {}

  lemma RestartedQueue(w: World, clock: map<string, int>, now: int, key: string)
    requires LaneInv(w, key) && Enabled(w, Restart(clock, now))
    ensures var (q, t) := PrunedBy(w, Restart(clock, now), key);
            && q == QueueAt(w.hub.queue, key) && Sorted(q)
            && QueueAt(ApplyRestart(w, clock, now).hub.queue, key) == Pruned(q, t)
  {
    hide LaneInv, QueueInv, Pruned, Sorted, LoadedQueue, Crash, Bag, LaneAt;
    var (q, t) := PrunedBy(w, Restart(clock, now), key);
    LoadedAt(w.disk, clock, key);
    LaneQueues(w, key);
    RestartQueue(q, QueueAt(w.disk.queue, key), LaneAt(w.lanes, key).since, w.now, t, now);
    NothingToPrune(t);
  }

  lemma LaneQueues(w: World, key: string)
    requires LaneInv(w, key)
    ensures QueueInv(QueueAt(w.hub.queue, key), QueueAt(w.disk.queue, key), LaneAt(w.lanes, key).since, w.now)
    ensures Sorted(QueueAt(w.hub.queue, key))
  {
    hide Accounted, ConnInv, AlikeFrom;
  }

  /** On every step of every run, what joins the removed envelopes of a recipient is exactly
      what pruning cuts off its queue, crashes included. */
  lemma RemovedByPruning(w: World, e: Event, key: string)
    requires Reachable(w) && Enabled(w, e)
    ensures var (q, t) := PrunedBy(w, e, key);
            Sorted(q) && LaneAt(Apply(w, e).lanes, key).removed == LaneAt(w.lanes, key).removed + Bag(Cut(q, t))
  {
    ReachableInv(w);
    assert LaneInv(w, key);
    StepSheds(w, e, key);
    hide Reachable, Inv, LaneInv, Enabled, Apply, PrunedBy, Cut, Bag, LaneAt, Sorted;
  }

  lemma StepSheds(w: World, e: Event, key: string)
    requires LaneInv(w, key) && Enabled(w, e)
    ensures Sheds(w, Apply(w, e), key, PrunedBy(w, e, key).0, PrunedBy(w, e, key).1)
  {
    hide LaneInv, Sheds, ApplyRoute, ApplyRegister, ApplyRestart, PrunedBy;
    match e
    case Route(env, stamp, now) => RouteSheds(w, env, stamp, now, key);
    case Register(k, c, now) => RegisterSheds(w, k, c, now, key);
    case Restart(clock, now) => RestartSheds(w, clock, now, key);
    case _ =>
      OthersRemoveNothing(w, e, key);
      hide Enabled, Apply;
      ShedsNothing(w, Apply(w, e), key, PrunedBy(w, e, key).1);
  }

  lemma OthersRemoveNothing(w: World, e: Event, key: string)
    requires Enabled(w, e) && !e.Route? && !e.Register? && !e.Restart?
    ensures PrunedBy(w, e, key).0 == [] && LaneAt(Apply(w, e).lanes, key).removed == LaneAt(w.lanes, key).removed
  {
    hide Unregistering, Offered;
  }

  lemma SettledWasIssued(w: World, key: string, i: nat) returns (k: nat)
    requires Reachable(w) && i < |LaneAt(w.lanes, key).settled|
    ensures k < |w.issued| && w.issued[k] == LaneAt(w.lanes, key).settled[i].env && KeyOf(w.issued[k]) == key
  {
    ReachableInv(w);
    assert LaneInv(w, key);
    var lane := LaneAt(w.lanes, key);
    var e := lane.settled[i].env;
    assert SettledEnvs(lane.settled)[i] == e;
    hide Reachable, RoutedTo, Bag, HandoffEnvs, SettledEnvs, KeyOf;
    assert e in Places(QueueAt(w.hub.queue, key), lane);
    RoutedToCount(w.issued, key, e);
    assert e in w.issued;
    k :| 0 <= k < |w.issued| && w.issued[k] == e;
  }

  lemma TwicePresent(s: seq<Message>, i: nat, j: nat)
    requires i < j < |s| && s[i] == s[j]
    ensures multiset(s)[s[i]] >= 2
  {
    assert s == s[..j] + s[j..];
    assert s[i] in s[..j] && s[j] in s[j..];
  }

  /** No envelope id is handed to connections twice, by any two hand-overs of the whole run,
      crashes and restarts included. */
  lemma HandedOnce(w: World, key: string, i: nat, key': string, j: nat)
    requires Reachable(w) && |w.issued| <= TWO64
    requires i < |LaneAt(w.lanes, key).settled| && j < |LaneAt(w.lanes, key').settled| && (key, i) != (key', j)
    ensures LaneAt(w.lanes, key).settled[i].env.id != LaneAt(w.lanes, key').settled[j].env.id
  {
    hide Reachable, KeyOf, LaneAt;
    var a := SettledWasIssued(w, key, i);
    var b := SettledWasIssued(w, key', j);
    if a < b {
      IdsDistinct(w, a, b);
    } else if b < a {
      IdsDistinct(w, b, a);
    } else {
      SettledTwice(w, key, i, j, a);
    }
  }

  lemma SettledTwice(w: World, key: string, i: nat, j: nat, a: nat)
    requires Reachable(w) && a < |w.issued| <= TWO64
    requires i < |LaneAt(w.lanes, key).settled| && j < |LaneAt(w.lanes, key).settled|
    requires LaneAt(w.lanes, key).settled[i].env == w.issued[a] == LaneAt(w.lanes, key).settled[j].env
    ensures i == j
  {
    var s := SettledEnvs(LaneAt(w.lanes, key).settled);
    hide Reachable, KeyOf, LaneAt, Bag, HandoffEnvs;
    if i != j {
      TwicePresent(s, if i < j then i else j, if i < j then j else i);
      InExactlyOnePlace(w, a, key);
      assert false;
    }
  }

  /** An envelope only ever reaches connections of the device it is addressed to. */
  lemma OnlyToItsRecipient(w: World, key: string, i: nat)
    requires Reachable(w) && i < |LaneAt(w.lanes, key).settled|
    ensures var s := LaneAt(w.lanes, key).settled[i];
            s.conn in w.clients && w.clients[s.conn].key == key == KeyOf(s.env)
  {
    ReachableInv(w);
    assert LaneInv(w, key);
    var k := SettledWasIssued(w, key, i);
  }
}
