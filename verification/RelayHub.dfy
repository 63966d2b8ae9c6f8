/** The relay hub: who is connected, what is queued for whom, what is on disk. The locked
    sections are functions on a value state, generic in what stands for a connection; the
    classes change their fields in place and are tied to those functions. */
module RelayHub {
  import opened Envelope
  import opened Options
  import opened RelayQueue

  type Queues = map<string, seq<Queued>>

  datatype State<C> = State(conns: map<string, C>, queue: Queues, pushTokens: map<string, string>, nextID: UInt64)

  /** The persistence file. A missing file reads as EMPTY_DISK. */
  datatype Disk = Disk(nextID: UInt64, queue: Queues)

  const EMPTY_DISK := Disk(0, map[])

  // --- the locked sections ---

  function QueueAt(queue: Queues, key: string): seq<Queued> {
    if key in queue then queue[key] else []
  }

  function PruneKey(queue: Queues, key: string, now: int): Queues {
    if QueueAt(queue, key) == [] then queue
    else
      var kept := Pruned(queue[key], now);
      if kept == [] then queue - {key} else queue[key := kept]
  }

  function KeyOf(env: Message): string { RouteKey(env.recipientID, env.recipientDevice) }

  /** The counter is a uint64 and wraps. */
  function Next(id: UInt64): UInt64 { if id + 1 == TWO64 then 0 else id + 1 }

  datatype Routed<C> = Routed(env: Message, target: Option<C>, pushToken: string)

  function Enqueue(queue: Queues, env: Message, stamp: int, now: int): Queues {
    var key := KeyOf(env);
    PruneKey(queue[key := QueueAt(queue, key) + [Queued(env, stamp)]], key, now)
  }

  /** The clock is read twice: once to stamp the envelope, once to prune. */
  function Routing<C>(s: State<C>, env: Message, stamp: int, now: int): (State<C>, Routed<C>) {
    var key, id := KeyOf(env), Next(s.nextID);
    var stamped := env.(id := EnvelopeId(id));
    if key in s.conns then (s.(nextID := id), Routed(stamped, Some(s.conns[key]), ""))
    else (s.(nextID := id, queue := Enqueue(s.queue, stamped, stamp, now)),
          Routed(stamped, None, if key in s.pushTokens then s.pushTokens[key] else ""))
  }

  /** What is handed to the new connection is taken off the queue. */
  function Registering<C>(s: State<C>, key: string, c: C, now: int): (State<C>, seq<Queued>) {
    var queue := PruneKey(s.queue, key, now);
    var pending := QueueAt(queue, key);
    (s.(conns := s.conns[key := c], queue := if pending == [] then queue else queue - {key}), pending)
  }

  function Unregistering<C(==)>(s: State<C>, key: string, c: C): State<C> {
    if key in s.conns && s.conns[key] == c then s.(conns := s.conns - {key}) else s
  }

  function DiskOf<C>(s: State<C>): Disk { Disk(s.nextID, s.queue) }

  /** Every recipient's queue is pruned by its own reading of the clock. */
  function Loaded<C>(d: Disk, clock: map<string, int>): State<C>
    requires d.queue.Keys <= clock.Keys
  {
    State(map[], LoadedQueue(d.queue, clock, d.queue.Keys), map[], d.nextID)
  }

  function LoadedQueue(queue: Queues, clock: map<string, int>, keys: set<string>): Queues
    requires keys <= queue.Keys <= clock.Keys
  {
    map k | k in queue && (k !in keys || queue[k] == [] || Pruned(queue[k], clock[k]) != [])
      :: if k in keys then Pruned(queue[k], clock[k]) else queue[k]
  }

  // --- a connection's bounded buffer ---

  const BUFFER := 64

  datatype Outgoing = Deliver(env: Message) | Ack(envelopeID: string, acceptedAt: int, clientRef: string)
                    | Status(envelopeID: string, status: string)

  function Offered(out: seq<Outgoing>, m: Outgoing): seq<Outgoing> {
    if |out| < BUFFER then out + [m] else out
  }

  function OfferedAll(out: seq<Outgoing>, q: seq<Queued>): seq<Outgoing> {
    if q == [] then out
    else Offered(OfferedAll(out, q[..|q| - 1]), Deliver(q[|q| - 1].env))
  }

  /** The writer of a connection starts only after its queue has been handed over, so of a
      drained queue the first 64 fit and the rest are dropped. */
  lemma {:induction false} DrainKeepsFirst64(q: seq<Queued>)
    ensures |OfferedAll([], q)| == if |q| < 64 then |q| else 64
    ensures forall k :: 0 <= k < |OfferedAll([], q)| ==> OfferedAll([], q)[k] == Deliver(q[k].env)
  {
    if q != [] {
      DrainKeepsFirst64(q[..|q| - 1]);
    }
  }

  class Client {
    const hub: Hub
    const userID: string
    const deviceID: Int64
    const routeKey: string
    var out: seq<Outgoing>

    constructor (hub: Hub, userID: string, deviceID: Int64)
      ensures this.hub == hub && this.userID == userID && this.deviceID == deviceID
      ensures routeKey == RouteKey(userID, deviceID) && out == []
    {
      this.hub := hub;
      this.userID := userID;
      this.deviceID := deviceID;
      routeKey := RouteKey(userID, deviceID);
      out := [];
    }

    method Send(m: Outgoing)
      modifies this`out
      ensures out == Offered(old(out), m)
      ensures out == if |old(out)| < 64 then old(out) + [m] else old(out)
    {
      if |out| < BUFFER {
        out := out + [m];
      }
    }

    /** A routed envelope is acked to its sender, after it was handed over. */
    method Submit(env: Message, clientRef: string, stamp: int, now: int, accepted: int)
      modifies hub, this`out, hub.conns.Values
      ensures var (s, r) := Routing(old(hub.View()), env, stamp, now);
              && hub.View() == s && hub.disk == hub.Written(old(hub.disk), s)
              && out == Offered(if r.target == Some(this) then Offered(old(out), Deliver(r.env)) else old(out),
                                Ack(r.env.id, accepted, clientRef))
              && (r.target.Some? && r.target != Some(this) ==>
                    r.target.value.out == Offered(old(r.target.value.out), Deliver(r.env)))
              && forall c :: c in old(hub.conns.Values) && c != this && Some(c) != r.target ==> c.out == old(c.out)
    {
      hide Offered, Enqueue, EnvelopeId, KeyOf, Next;
      var id := hub.Route(env, stamp, now);
      Send(Ack(id, accepted, clientRef));
    }

    /** One frame of the read loop. A sent envelope is routed as it is, but under the sender
        that the connection has authenticated. */
    method HandleFrame(f: Frame, stamp: int, now: int, accepted: int)
      modifies hub, this`out, hub.conns.Values
      ensures !(f.kind == "send" && f.envelope.Some?) && !(f.kind == "register-push" && f.token != "") ==>
                hub.View() == old(hub.View()) && hub.disk == old(hub.disk)
      ensures f.kind == "send" && f.envelope.Some? ==>
                var env := f.envelope.value.(senderID := userID, senderDevice := deviceID);
                var (s, r) := Routing(old(hub.View()), env, stamp, now);
                && r.env == f.envelope.value.(id := r.env.id, senderID := userID, senderDevice := deviceID)
                && hub.View() == s && hub.disk == hub.Written(old(hub.disk), s)
                && out == Offered(if r.target == Some(this) then Offered(old(out), Deliver(r.env)) else old(out),
                                  Ack(r.env.id, accepted, f.clientRef))
                && (r.target.Some? && r.target != Some(this) ==>
                      r.target.value.out == Offered(old(r.target.value.out), Deliver(r.env)))
                && forall c :: c in old(hub.conns.Values) && c != this && Some(c) != r.target ==> c.out == old(c.out)
      ensures f.kind == "register-push" && f.token != "" ==>
                hub.View() == old(hub.View()).(pushTokens := old(hub.pushTokens)[routeKey := f.token])
                && hub.disk == old(hub.disk)
      ensures f.kind == "receipt" && f.targetID != "" && f.status in {"delivered", "read"} ==>
                var key := RouteKey(f.targetID, f.targetDevice);
                forall c :: c in old(hub.conns.Values) || c == this ==>
                  c.out == if key in hub.conns && hub.conns[key] == c
                           then Offered(old(c.out), Status(f.envelopeID, f.status)) else old(c.out)
      ensures !(f.kind == "send" && f.envelope.Some?)
              && !(f.kind == "receipt" && f.targetID != "" && f.status in {"delivered", "read"}) ==>
                forall c :: c in old(hub.conns.Values) || c == this ==> c.out == old(c.out)
    {
      hide Offered, Enqueue, EnvelopeId, KeyOf, Next;
      if f.kind == "send" {
        if f.envelope.Some? {
          Submit(f.envelope.value.(senderID := userID, senderDevice := deviceID), f.clientRef, stamp, now, accepted);
        }
      } else if f.kind == "register-push" {
        if f.token != "" {
          hub.RegisterPushToken(routeKey, f.token);
        }
      } else if f.kind == "receipt" {
        if f.targetID != "" && (f.status == "delivered" || f.status == "read") {
          hub.ForwardStatus(f.targetID, f.targetDevice, Status(f.envelopeID, f.status));
        }
      }
    }
  }

  /** What a client may send; fields that its kind does not use are empty. */
  datatype Frame = Frame(kind: string, envelope: Option<Message>, envelopeID: string, clientRef: string,
                         status: string, targetID: string, targetDevice: Int64, token: string)

  class Hub {
    const persistent: bool
    var conns: map<string, Client>
    var queue: Queues
    var pushTokens: map<string, string>
    var nextID: UInt64
    /** The file, as this process last found or left it. */
    var disk: Disk

    ghost function View(): State<Client>
      reads this
    {
      State(conns, queue, pushTokens, nextID)
    }

    constructor InMemory()
      ensures !persistent && View() == State(map[], map[], map[], 0) && disk == EMPTY_DISK
    {
      persistent := false;
      conns, queue, pushTokens, nextID := map[], map[], map[], 0;
      disk := EMPTY_DISK;
    }

    constructor Persistent(file: Disk, clock: map<string, int>)
      requires file.queue.Keys <= clock.Keys
      ensures persistent && View() == Loaded(file, clock) && disk == file
    {
      persistent := true;
      conns, pushTokens := map[], map[];
      queue, nextID := file.queue, file.nextID;
      disk := file;
      new;
      LoadedNothing(file.queue, clock);
      var rest, done := queue.Keys, {};
      while rest != {}
        invariant rest + done == file.queue.Keys && rest !! done
        invariant conns == map[] && pushTokens == map[] && nextID == file.nextID && disk == file
        invariant queue == LoadedQueue(file.queue, clock, done)
      {
        var key :| key in rest;
        var _ := PruneQueueLocked(key, clock[key]);
        LoadedOneMore(file.queue, clock, done, key);
        rest, done := rest - {key}, done + {key};
      }
      assert done == file.queue.Keys;
    }

    method PruneQueueLocked(key: string, now: int) returns (dropped: bool)
      modifies this`queue
      ensures queue == PruneKey(old(queue), key, now)
      ensures dropped <==> queue != old(queue)
    {
      var q := QueueAt(queue, key);
      if |q| == 0 {
        return false;
      }
      var kept := Prune(q, now);
      if |kept| == |q| {
        PrunedFull(q, now);
        return false;
      }
      if |kept| == 0 {
        queue := queue - {key};
      } else {
        queue := queue[key := kept];
        assert queue[key] != old(queue)[key];
      }
      dropped := true;
    }

    /** The file after a state is written: unchanged for a hub that has none. */
    function Written(d: Disk, s: State<Client>): Disk {
      if persistent then DiskOf(s) else d
    }

    method PersistLocked()
      modifies this`disk
      ensures disk == Written(old(disk), View())
    {
      if !persistent {
        return;
      }
      disk := Disk(nextID, queue);
    }

    /** The locked section of register. It writes only when it hands something over. */
    method RegisterLocked(c: Client, now: int) returns (pending: seq<Queued>)
      modifies this
      ensures (View(), pending) == Registering(old(View()), c.routeKey, c, now)
      ensures disk == if pending != [] then Written(old(disk), View()) else old(disk)
    {
      conns := conns[c.routeKey := c];
      var _ := PruneQueueLocked(c.routeKey, now);
      pending := QueueAt(queue, c.routeKey);
      if |pending| > 0 {
        queue := queue - {c.routeKey};
        PersistLocked();
      }
    }

    method Register(c: Client, now: int)
      modifies this, c`out
      ensures View() == Registering(old(View()), c.routeKey, c, now).0
      ensures disk == if Registering(old(View()), c.routeKey, c, now).1 != [] then Written(old(disk), View()) else old(disk)
      ensures c.out == OfferedAll(old(c.out), Registering(old(View()), c.routeKey, c, now).1)
    {
      var pending := RegisterLocked(c, now);
      var i := 0;
      while i < |pending|
        invariant 0 <= i <= |pending|
        invariant View() == Registering(old(View()), c.routeKey, c, now).0
        invariant disk == if pending != [] then Written(old(disk), View()) else old(disk)
        invariant c.out == OfferedAll(old(c.out), pending[..i])
      {
        assert pending[..i + 1][..i] == pending[..i];
        c.Send(Deliver(pending[i].env));
        i := i + 1;
      }
      assert pending[..i] == pending;
    }

    method Unregister(c: Client)
      modifies this`conns
      ensures View() == Unregistering(old(View()), c.routeKey, c)
    {
      if c.routeKey in conns && conns[c.routeKey] == c {
        conns := conns - {c.routeKey};
      }
    }

    method RegisterPushToken(key: string, token: string)
      modifies this`pushTokens
      ensures pushTokens == old(pushTokens)[key := token]
    {
      pushTokens := pushTokens[key := token];
    }

    /** The locked section of route. */
    method RouteLocked(e: Message, stamp: int, now: int) returns (r: Routed<Client>)
      modifies this
      ensures (View(), r) == Routing(old(View()), e, stamp, now)
      ensures disk == Written(old(disk), View())
    {
      var key := RouteKey(e.recipientID, e.recipientDevice);
      nextID := Next(nextID);
      var env := e.(id := EnvelopeId(nextID));
      if key in conns {
        r := Routed(env, Some(conns[key]), "");
      } else {
        queue := queue[key := QueueAt(queue, key) + [Queued(env, stamp)]];
        var _ := PruneQueueLocked(key, now);
        r := Routed(env, None, if key in pushTokens then pushTokens[key] else "");
      }
      PersistLocked();
    }

    method Route(e: Message, stamp: int, now: int) returns (id: string)
      modifies this, conns.Values
      ensures var (s, r) := Routing(old(View()), e, stamp, now);
              && View() == s && disk == Written(old(disk), s) && id == r.env.id
              && (r.target.Some? ==> r.target.value.out == Offered(old(r.target.value.out), Deliver(r.env)))
              && forall c :: c in old(conns.Values) && Some(c) != r.target ==> c.out == old(c.out)
    {
      var r := RouteLocked(e, stamp, now);
      if r.target.Some? {
        r.target.value.Send(Deliver(r.env));
      }
      id := r.env.id;
    }

    /** Best effort: nothing is queued for a sender that is away. */
    method ForwardStatus(userID: string, deviceID: Int64, m: Outgoing)
      modifies conns.Values
      ensures var key := RouteKey(userID, deviceID);
              forall c :: c in conns.Values ==>
                c.out == if key in conns && conns[key] == c then Offered(old(c.out), m) else old(c.out)
    {
      var key := RouteKey(userID, deviceID);
      if key in conns {
        conns[key].Send(m);
      }
    }
  }

  lemma PrunedFull(q: seq<Queued>, now: int)
    requires |Pruned(q, now)| == |q|
    ensures Pruned(q, now) == q
  {
    LiveFull(q, now);
  }

  lemma LoadedNothing(queue: Queues, clock: map<string, int>)
    requires queue.Keys <= clock.Keys
    ensures LoadedQueue(queue, clock, {}) == queue
  {}

  lemma LoadedOneMore(queue: Queues, clock: map<string, int>, done: set<string>, key: string)
    requires done <= queue.Keys <= clock.Keys && key in queue && key !in done
    ensures LoadedQueue(queue, clock, done + {key}) == PruneKey(LoadedQueue(queue, clock, done), key, clock[key])
  {
    assert Pruned([], clock[key]) == [];
    hide Pruned;
    var q, r := LoadedQueue(queue, clock, done), LoadedQueue(queue, clock, done + {key});
    assert r.Keys == PruneKey(q, key, clock[key]).Keys;
  }
}
