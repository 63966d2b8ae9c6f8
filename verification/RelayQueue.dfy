/** One recipient's store-and-forward queue: expiry, the cap, and why pruning early, late or
    repeatedly never shows. */
module RelayQueue {
  import opened Envelope

  datatype Message = Message(
    id: string, recipientID: string, recipientDevice: Int64,
    senderID: string, senderDevice: Int64, kind: int, ciphertext: string, timestamp: int)

  datatype Queued = Queued(env: Message, at: int)

  /** 30 days in milliseconds. */
  const QUEUE_TTL := 30 * 24 * 60 * 60 * 1000
  const MAX_QUEUE := 1000

  // --- the one-shot specification ---

  predicate IsLive(e: Queued, now: int) { e.at >= now - QUEUE_TTL }

  /** The entries that have not expired, in order. */
  function Live(q: seq<Queued>, now: int): (r: seq<Queued>)
    ensures |r| <= |q|
  {
    if q == [] then []
    else
      var n := |q| - 1;
      Live(q[..n], now) + if IsLive(q[n], now) then [q[n]] else []
  }

  function Newest(q: seq<Queued>): (r: seq<Queued>)
    ensures |r| <= |q| && |r| <= MAX_QUEUE
  {
    if |q| > MAX_QUEUE then q[|q| - MAX_QUEUE..] else q
  }

  function Pruned(q: seq<Queued>, now: int): seq<Queued> { Newest(Live(q, now)) }

  /** Server enqueue times do not decrease along the queue. */
  ghost predicate Sorted(q: seq<Queued>) {
    forall i, j :: 0 <= i < j < |q| ==> q[i].at <= q[j].at
  }

  // --- Live ---

  lemma LiveOneMore(q: seq<Queued>, x: Queued, now: int)
    ensures Live(q + [x], now) == Live(q, now) + if IsLive(x, now) then [x] else []
  {
    assert (q + [x])[..|q|] == q;
  }

  lemma {:induction false} LiveAppend(a: seq<Queued>, b: seq<Queued>, now: int)
    ensures Live(a + b, now) == Live(a, now) + Live(b, now)
  {
    if b == [] {
      assert a + b == a && Live(a, now) + [] == Live(a, now);
    } else {
      var c, x := b[..|b| - 1], b[|b| - 1];
      hide *;
      LiveAppend(a, c, now);
      LiveOneMore(a + c, x, now);
      LiveOneMore(c, x, now);
      Regroup(a, c, [x]);
      Regroup(Live(a, now), Live(c, now), if IsLive(x, now) then [x] else []);
      assert b == c + [x];
    }
  }

  lemma Regroup<T>(a: seq<T>, b: seq<T>, c: seq<T>)
    ensures a + b + c == a + (b + c)
  {}

  lemma {:induction false} LiveMembers(q: seq<Queued>, now: int, e: Queued)
    ensures e in Live(q, now) <==> e in q && IsLive(e, now)
  {
    if q != [] {
      var n := |q| - 1;
      LiveMembers(q[..n], now, e);
      assert q == q[..n] + [q[n]];
    }
  }

  lemma {:induction false} LiveAll(q: seq<Queued>, now: int)
    requires forall k :: 0 <= k < |q| ==> IsLive(q[k], now)
    ensures Live(q, now) == q
  {
    if q != [] {
      LiveAll(q[..|q| - 1], now);
    }
  }

  lemma {:induction false} LiveNone(q: seq<Queued>, now: int)
    requires forall k :: 0 <= k < |q| ==> !IsLive(q[k], now)
    ensures Live(q, now) == []
  {
    if q != [] {
      LiveNone(q[..|q| - 1], now);
    }
  }

  /** Only the whole queue is as long as the whole queue. */
  lemma {:induction false} LiveFull(q: seq<Queued>, now: int)
    requires |Live(q, now)| == |q|
    ensures Live(q, now) == q
  {
    if q != [] {
      var n := |q| - 1;
      LiveFull(q[..n], now);
      assert q == q[..n] + [q[n]];
    }
  }

  /** How many entries at the front of a sorted queue have expired. */
  function Expired(q: seq<Queued>, now: int): (k: nat)
    ensures k <= |q|
    ensures forall i :: 0 <= i < k ==> !IsLive(q[i], now)
    ensures k < |q| ==> IsLive(q[k], now)
  {
    if q != [] && !IsLive(q[0], now) then 1 + Expired(q[1..], now) else 0
  }

  lemma LiveOfParts(a: seq<Queued>, b: seq<Queued>, now: int)
    requires (forall i :: 0 <= i < |a| ==> !IsLive(a[i], now)) && forall i :: 0 <= i < |b| ==> IsLive(b[i], now)
    ensures Live(a + b, now) == b
  {
    hide *;
    LiveAppend(a, b, now);
    LiveNone(a, now);
    LiveAll(b, now);
    assert [] + b == b;
  }

  /** In a sorted queue the expired entries are a prefix. */
  lemma LiveIsSuffix(q: seq<Queued>, now: int)
    requires Sorted(q)
    ensures Live(q, now) == q[Expired(q, now)..]
  {
    hide Live, Expired;
    var k := Expired(q, now);
    assert q == q[..k] + q[k..];
    LiveOfParts(q[..k], q[k..], now);
  }

  lemma {:induction false} ExpiredMonotone(q: seq<Queued>, t: int, now: int)
    requires t <= now
    ensures Expired(q, t) <= Expired(q, now)
  {
    if q != [] && !IsLive(q[0], t) {
      ExpiredMonotone(q[1..], t, now);
    }
  }

  // --- Pruned ---

  function Larger(a: int, b: int): int { if a < b then b else a }

  /** Of a sorted queue, pruning keeps a suffix. */
  lemma PrunedIsSuffix(q: seq<Queued>, now: int)
    requires Sorted(q)
    ensures Pruned(q, now) == q[Larger(Expired(q, now), |q| - MAX_QUEUE)..]
  {
    hide Live, Expired;
    LiveIsSuffix(q, now);
  }

  /** No longer suffix has at most 1000 entries, none of them expired. */
  lemma PrunedIsLongest(q: seq<Queued>, now: int, k: nat)
    requires Sorted(q) && k <= |q| && |q| - k <= 1000
    requires forall i :: k <= i < |q| ==> q[i].at >= now - 30 * 24 * 60 * 60 * 1000
    ensures |q[k..]| <= |Pruned(q, now)|
  {
    hide Live;
    PrunedIsSuffix(q, now);
    assert k < |q| ==> IsLive(q[k], now);
  }

  lemma SortedSuffix(q: seq<Queued>, k: nat)
    requires Sorted(q) && k <= |q|
    ensures Sorted(q[k..])
  {}

  lemma DropTwice<T>(q: seq<T>, k: nat, m: nat)
    requires k + m <= |q|
    ensures q[k..][m..] == q[k + m..]
  {}

  /** Cutting at the earlier position and then further on cuts at the later one. */
  lemma CutTwice(n: nat, early: nat, late: nat)
    requires early <= late <= n
    ensures var k := Larger(early, n - MAX_QUEUE);
            0 <= k <= n && k + Larger(Larger(late, k) - k, n - k - MAX_QUEUE) == Larger(late, n - MAX_QUEUE)
  {}

  /** Whatever was pruned away earlier would be pruned away now. */
  lemma PruneTwice(q: seq<Queued>, t: int, now: int)
    requires Sorted(q) && t <= now
    ensures Pruned(Pruned(q, t), now) == Pruned(q, now)
  {
    hide *;
    var k := Larger(Expired(q, t), |q| - MAX_QUEUE);
    ExpiredMonotone(q, t, now);
    CutTwice(|q|, Expired(q, t), Expired(q, now));
    PrunedIsSuffix(q, t);
    PrunedIsSuffix(q, now);
    SortedSuffix(q, k);
    PrunedIsSuffix(q[k..], now);
    ExpiredOfSuffix(q, k, now);
    CutAt(q, k, Larger(Expired(q, now), k) - k);
  }

  lemma CutAt(q: seq<Queued>, k: nat, e: nat)
    requires k <= |q| && e <= |q| - k
    ensures var m := Larger(e, |q[k..]| - MAX_QUEUE);
            |q[k..]| == |q| - k && 0 <= m <= |q[k..]| && q[k..][m..] == q[k + m..]
  {
    DropTwice(q, k, Larger(e, |q[k..]| - MAX_QUEUE));
  }

  lemma ExpiredOfSuffix(q: seq<Queued>, k: nat, now: int)
    requires Sorted(q) && k <= |q|
    ensures Expired(q[k..], now) == Larger(Expired(q, now), k) - k
  {
    hide Expired;
    ExpiredIs(q[k..], now, Larger(Expired(q, now), k) - k);
  }

  lemma {:induction false} ExpiredIs(q: seq<Queued>, now: int, k: nat)
    requires k <= |q| && (forall i :: 0 <= i < k ==> !IsLive(q[i], now)) && (k < |q| ==> IsLive(q[k], now))
    ensures Expired(q, now) == k
  {
    if k > 0 {
      ExpiredIs(q[1..], now, k - 1);
    }
  }

  /** Entries added later do not bring pruned ones back. */
  lemma PruneThenAppend(q: seq<Queued>, s: seq<Queued>, now: int)
    ensures Pruned(Pruned(q, now) + s, now) == Pruned(q + s, now)
  {
    hide Live;
    var p := Pruned(q, now);
    LiveAppend(p, s, now);
    LiveAppend(q, s, now);
    LiveAgain(q, now);
  }

  lemma LiveAgain(q: seq<Queued>, now: int)
    ensures Live(Pruned(q, now), now) == Pruned(q, now)
  {
    var p := Pruned(q, now);
    forall k | 0 <= k < |p| ensures IsLive(p[k], now) {
      LiveMembers(q, now, p[k]);
    }
    LiveAll(p, now);
  }

  /** Two queues that prune alike still do after the same entries are added to both. */
  lemma SameAfterAppend(q: seq<Queued>, h: seq<Queued>, s: seq<Queued>, now: int)
    requires Pruned(q, now) == Pruned(h, now)
    ensures Pruned(q + s, now) == Pruned(h + s, now)
  {
    hide Pruned;
    PruneThenAppend(q, s, now);
    PruneThenAppend(h, s, now);
  }

  /** Pruning at any moment, between any two additions, changes nothing that is observed at
      that moment or later. */
  lemma PruneEarly(q: seq<Queued>, s: seq<Queued>, t: int, now: int)
    requires Sorted(q) && t <= now
    ensures Pruned(Pruned(q, t) + s, now) == Pruned(q + s, now)
  {
    hide Pruned;
    PruneTwice(q, t, now);
    SameAfterAppend(Pruned(q, t), q, s, now);
  }

  lemma PrunedSorted(q: seq<Queued>, now: int)
    requires Sorted(q)
    ensures Sorted(Pruned(q, now))
    ensures forall e :: e in Pruned(q, now) ==> e in q && IsLive(e, now)
  {
    PrunedIsSuffix(q, now);
    forall e | e in Pruned(q, now) ensures IsLive(e, now) {
      LiveMembers(q, now, e);
    }
  }

  /** Any clock that runs backwards shows: the entry that is just about to expire at the
      earlier time is gone once it was pruned at the later one. */
  lemma EarlierClock(e: Message, t: int, now: int)
    requires now < t
    ensures var q := [Queued(e, now - QUEUE_TTL)];
            Sorted(q) && Pruned(Pruned(q, t), now) != Pruned(q, now)
  {
    var q := [Queued(e, now - QUEUE_TTL)];
    LiveNone(q, t);
    LiveAll(q, now);
  }

  /** Pruning at time t is invisible to every queue, with whatever is added afterwards,
      exactly when the clock is not behind t at the next look. */
  lemma InvisibleExactlyForward(t: int, now: int)
    ensures (forall q, s :: Sorted(q) ==> Pruned(Pruned(q, t) + s, now) == Pruned(q + s, now)) <==> t <= now
  {
    hide Live, Newest, Sorted;
    if t <= now {
      forall q, s | Sorted(q) ensures Pruned(Pruned(q, t) + s, now) == Pruned(q + s, now) {
        PruneEarly(q, s, t, now);
      }
    } else {
      var e := Message("", "", 0, "", 0, 0, "", 0);
      var q := [Queued(e, now - QUEUE_TTL)];
      EarlierClock(e, t, now);
      assert Pruned(q, t) + [] == Pruned(q, t) && q + [] == q;
    }
  }

  // --- the loop ---

  /** The kept slice, capped. */
  method Prune(q: seq<Queued>, now: int) returns (kept: seq<Queued>)
    ensures kept == Pruned(q, now)
  {
    var cutoff := now - QUEUE_TTL;
    kept := [];
    var i := 0;
    while i < |q|
      invariant 0 <= i <= |q|
      invariant kept == Live(q[..i], now)
    {
      assert q[..i + 1][..i] == q[..i];
      var qe := q[i];
      i := i + 1;
      if qe.at < cutoff {
        continue;
      }
      kept := kept + [qe];
    }
    assert q[..i] == q;
    if |kept| > MAX_QUEUE {
      kept := kept[|kept| - MAX_QUEUE..];
    }
  }
}
