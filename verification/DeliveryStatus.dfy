/** Delivery ticks: acks bind a client reference to an envelope, reports about an envelope
    become updates of the bound reference, and an update never lowers a message's status. */
module DeliveryStatus {
  import opened Options

  datatype Status = Sending | Sent | Delivered | Read

  function Rank(s: Status): nat {
    match s
    case Sending => 0
    case Sent => 1
    case Delivered => 2
    case Read => 3
  }

  /** An outbound message has a reference and a status; an inbound one may have an envelope
      id, for its read receipt. */
  datatype Msg = Msg(id: string, text: string, mine: bool, at: int, clientRef: Option<string>, status: Option<Status>,
                     envelopeId: Option<string>, readSent: bool, senderId: Option<string>)

  datatype Thread = Thread(peer: string, messages: seq<Msg>, unread: nat, lastAt: int, group: bool)

  datatype Update = Update(clientRef: string, status: Status)

  // --- one update ---

  function RankOf(s: Option<Status>): int { if s.Some? then Rank(s.value) else -1 }

  function IndexOfRef(ms: seq<Msg>, ref: string): (i: nat)
    ensures i <= |ms| && (i < |ms| ==> ms[i].clientRef == Some(ref))
    ensures forall k :: 0 <= k < i ==> ms[k].clientRef != Some(ref)
  {
    if ms == [] || ms[0].clientRef == Some(ref) then 0 else 1 + IndexOfRef(ms[1..], ref)
  }

  function Raised(m: Msg, s: Status): Msg {
    if Rank(s) > RankOf(m.status) then m.(status := Some(s)) else m
  }

  /** The first thread that has the reference is the only one looked at. */
  function Applied(ts: seq<Thread>, u: Update): (r: seq<Thread>)
    ensures |r| == |ts|
  {
    if ts == [] then []
    else
      var ms := ts[0].messages;
      var i := IndexOfRef(ms, u.clientRef);
      if i < |ms| then [ts[0].(messages := ms[i := Raised(ms[i], u.status)])] + ts[1..]
      else [ts[0]] + Applied(ts[1..], u)
  }

  function AppliedAll(ts: seq<Thread>, us: seq<Update>): (r: seq<Thread>)
    ensures |r| == |ts|
  {
    if us == [] then ts else Applied(AppliedAll(ts, us[..|us| - 1]), us[|us| - 1])
  }

  // --- the running maximum ---

  /** The highest ranked of a status and all updates of a reference. */
  function Best(s: Option<Status>, us: seq<Update>, ref: string): Option<Status> {
    if us == [] then s
    else
      var n := |us| - 1;
      var b := Best(s, us[..n], ref);
      if us[n].clientRef == ref && Rank(us[n].status) > RankOf(b) then Some(us[n].status) else b
  }

  /** A message as any sequence of updates leaves it. */
  function After(m: Msg, us: seq<Update>): Msg {
    if m.clientRef.Some? then m.(status := Best(m.status, us, m.clientRef.value)) else m
  }

  function ThreadAfter(t: Thread, us: seq<Update>): Thread {
    t.(messages := seq(|t.messages|, i requires 0 <= i < |t.messages| => After(t.messages[i], us)))
  }

  /** No two messages of the store carry the same reference. */
  ghost predicate UniqueRefs(ts: seq<Thread>) {
    forall a, i, b, j :: 0 <= a < |ts| && 0 <= i < |ts[a].messages| && 0 <= b < |ts| && 0 <= j < |ts[b].messages|
      && ts[a].messages[i].clientRef.Some? && ts[a].messages[i].clientRef == ts[b].messages[j].clientRef
      ==> a == b && i == j
  }

  /** What one update does to one message, by its reference alone. */
  function Step(m: Msg, u: Update): Msg { if m.clientRef == Some(u.clientRef) then Raised(m, u.status) else m }

  function ThreadStep(t: Thread, u: Update): Thread {
    t.(messages := seq(|t.messages|, i requires 0 <= i < |t.messages| => Step(t.messages[i], u)))
  }

  lemma {:induction false} AppliedIsStep(ts: seq<Thread>, u: Update, a: nat)
    requires UniqueRefs(ts) && a < |ts|
    ensures Applied(ts, u)[a] == ThreadStep(ts[a], u)
  {
    var ms := ts[0].messages;
    var k := IndexOfRef(ms, u.clientRef);
    if k < |ms| {
      assert ts[0].messages[k].clientRef == Some(u.clientRef);
      if a > 0 {
        assert Applied(ts, u)[a] == ts[a];
      }
      assert Applied(ts, u)[a].messages == ThreadStep(ts[a], u).messages;
    } else if a > 0 {
      TailUnique(ts);
      AppliedIsStep(ts[1..], u, a - 1);
    } else {
      assert ms == ThreadStep(ts[0], u).messages;
    }
  }

  lemma TailUnique(ts: seq<Thread>)
    requires UniqueRefs(ts) && ts != []
    ensures UniqueRefs(ts[1..])
  {
    forall a, i, b, j | 0 <= a < |ts[1..]| && 0 <= i < |ts[1..][a].messages|
      && 0 <= b < |ts[1..]| && 0 <= j < |ts[1..][b].messages|
      && ts[1..][a].messages[i].clientRef.Some? && ts[1..][a].messages[i].clientRef == ts[1..][b].messages[j].clientRef
      ensures a == b && i == j
    {
      assert ts[a + 1].messages[i].clientRef == ts[b + 1].messages[j].clientRef;
    }
  }

  /** References are never touched, so uniqueness lasts. */
  lemma AfterUnique(ts: seq<Thread>, r: seq<Thread>, us: seq<Update>)
    requires UniqueRefs(ts) && |r| == |ts| && forall a :: 0 <= a < |ts| ==> r[a] == ThreadAfter(ts[a], us)
    ensures UniqueRefs(r)
  {
    forall a, i, b, j | 0 <= a < |r| && 0 <= i < |r[a].messages| && 0 <= b < |r| && 0 <= j < |r[b].messages|
      && r[a].messages[i].clientRef.Some? && r[a].messages[i].clientRef == r[b].messages[j].clientRef
      ensures a == b && i == j
    {
      assert ts[a].messages[i].clientRef == ts[b].messages[j].clientRef;
    }
  }

  /** A message's status is the running maximum of its own updates; nothing else about it
      changes, and no other message changes. */
  lemma {:induction false} RunningMaximum(ts: seq<Thread>, us: seq<Update>, a: nat)
    requires UniqueRefs(ts) && a < |ts|
    ensures AppliedAll(ts, us)[a] == ThreadAfter(ts[a], us)
    decreases |us|
  {
    if us == [] {
      assert ts[a].messages == ThreadAfter(ts[a], us).messages;
    } else {
      var n := |us| - 1;
      var r := AppliedAll(ts, us[..n]);
      forall b | 0 <= b < |ts| ensures r[b] == ThreadAfter(ts[b], us[..n]) {
        RunningMaximum(ts, us[..n], b);
      }
      AfterUnique(ts, r, us[..n]);
      AppliedIsStep(r, us[n], a);
      assert ThreadStep(r[a], us[n]).messages == ThreadAfter(ts[a], us).messages;
    }
  }

  // --- order and repetition do not matter ---

  lemma {:induction false} BestIsMaximum(s: Option<Status>, us: seq<Update>, ref: string)
    ensures var b := Best(s, us, ref);
            && RankOf(b) >= RankOf(s) && (forall u :: u in us && u.clientRef == ref ==> RankOf(b) >= Rank(u.status))
            && (b == s || (b.Some? && Update(ref, b.value) in us))
  {
    if us != [] {
      var n := |us| - 1;
      BestIsMaximum(s, us[..n], ref);
      assert us == us[..n] + [us[n]];
    }
  }

  lemma RankInjective(s: Option<Status>, t: Option<Status>)
    requires RankOf(s) == RankOf(t)
    ensures s == t
  {}

  /** Any reordering, duplication or merging of the same updates gives every message the
      same tick. */
  lemma OrderDoesNotMatter(ts: seq<Thread>, us: seq<Update>, vs: seq<Update>)
    requires UniqueRefs(ts) && forall u :: u in us <==> u in vs
    ensures AppliedAll(ts, us) == AppliedAll(ts, vs)
  {
    forall a | 0 <= a < |ts| ensures AppliedAll(ts, us)[a] == AppliedAll(ts, vs)[a] {
      RunningMaximum(ts, us, a);
      RunningMaximum(ts, vs, a);
      forall i | 0 <= i < |ts[a].messages| ensures After(ts[a].messages[i], us) == After(ts[a].messages[i], vs) {
        SameBest(ts[a].messages[i], us, vs);
      }
      assert ThreadAfter(ts[a], us).messages == ThreadAfter(ts[a], vs).messages;
    }
  }

  lemma SameBest(m: Msg, us: seq<Update>, vs: seq<Update>)
    requires forall u :: u in us <==> u in vs
    ensures After(m, us) == After(m, vs)
  {
    if m.clientRef.Some? {
      var ref := m.clientRef.value;
      BestIsMaximum(m.status, us, ref);
      BestIsMaximum(m.status, vs, ref);
      RankInjective(Best(m.status, us, ref), Best(m.status, vs, ref));
    }
  }

  // --- where updates come from ---

  /** What reaches the client: the relay's ack of a send, or a report about an envelope. */
  datatype Event = AckArrived(clientRef: Option<string>, envelopeId: string) | ReportArrived(envelopeId: string, status: Status)

  datatype Correlation = Correlation(refToEnvelope: map<string, string>, envelopeToRef: map<string, string>)

  const NOTHING_BOUND := Correlation(map[], map[])

  /** The empty string is falsy: it is neither bound nor looked up. */
  function Handled(c: Correlation, e: Event): (Correlation, Option<Update>) {
    match e
    case AckArrived(ref, env) =>
      if ref == None || ref.value == "" then (c, None)
      else (Correlation(c.refToEnvelope[ref.value := env], c.envelopeToRef[env := ref.value]), Some(Update(ref.value, Sent)))
    case ReportArrived(env, status) =>
      if env in c.envelopeToRef && c.envelopeToRef[env] != "" then (c, Some(Update(c.envelopeToRef[env], status))) else (c, None)
  }

  function Bound(es: seq<Event>): Correlation {
    if es == [] then NOTHING_BOUND else Handled(Bound(es[..|es| - 1]), es[|es| - 1]).0
  }

  /** The updates that the events from position since on emit, in order. What is bound then
      may have been bound by earlier ones. */
  function Emitted(es: seq<Event>, since: nat): seq<Update> {
    if |es| <= since then []
    else
      var n := |es| - 1;
      var u := Handled(Bound(es[..n]), es[n]).1;
      Emitted(es[..n], since) + if u.Some? then [u.value] else []
  }

  lemma OneMoreEvent(es: seq<Event>, e: Event, since: nat)
    requires since <= |es|
    ensures Bound(es + [e]) == Handled(Bound(es), e).0
    ensures var u := Handled(Bound(es), e).1;
            Emitted(es + [e], since) == Emitted(es, since) + if u.Some? then [u.value] else []
  {
    assert (es + [e])[..|es|] == es;
  }

  predicate IsAck(e: Event, ref: string, env: string) { e == AckArrived(Some(ref), env) && ref != "" }

  /** A binding is the latest ack of its envelope. */
  lemma {:induction false} BoundByAck(es: seq<Event>, env: string)
    ensures env in Bound(es).envelopeToRef ==>
              exists i :: 0 <= i < |es| && IsAck(es[i], Bound(es).envelopeToRef[env], env)
  {
    if es != [] && env in Bound(es).envelopeToRef {
      var n := |es| - 1;
      var ref := Bound(es).envelopeToRef[env];
      BoundByAck(es[..n], env);
      if !IsAck(es[n], ref, env) {
        var i :| 0 <= i < n && IsAck(es[..n][i], ref, env);
        assert IsAck(es[i], ref, env);
      } else {
        assert IsAck(es[n], ref, env);
      }
    }
  }

  /** Event j, not before position since, reports this status of an envelope that an earlier
      event i bound to ref. */
  ghost predicate Reported(es: seq<Event>, since: nat, i: int, j: int, ref: string, status: Status) {
    && 0 <= i < j < |es| && since <= j
    && es[j].ReportArrived? && es[j].status == status && IsAck(es[i], ref, es[j].envelopeId)
  }

  lemma {:induction false} EmittedFrom(es: seq<Event>, since: nat, u: Update)
    requires u in Emitted(es, since) && Rank(u.status) > Rank(Sent)
    ensures exists i, j :: Reported(es, since, i, j, u.clientRef, u.status)
  {
    var n := |es| - 1;
    if u in Emitted(es[..n], since) {
      EmittedFrom(es[..n], since, u);
      var i, j :| Reported(es[..n], since, i, j, u.clientRef, u.status);
      assert Reported(es, since, i, j, u.clientRef, u.status);
    } else {
      BoundByAck(es[..n], es[n].envelopeId);
      var i :| 0 <= i < n && IsAck(es[..n][i], u.clientRef, es[n].envelopeId);
      assert Reported(es, since, i, n, u.clientRef, u.status);
    }
  }

  /** From a status of at most "sent", updates get a message beyond it only by a report on an
      envelope that an ack bound to its reference. */
  lemma BestNeedsAck(s: Option<Status>, es: seq<Event>, since: nat, ref: string)
    requires RankOf(s) <= Rank(Sent)
    ensures var b := Best(s, Emitted(es, since), ref);
            RankOf(b) > Rank(Sent) ==> exists i, j :: Reported(es, since, i, j, ref, b.value)
  {
    var b := Best(s, Emitted(es, since), ref);
    BestIsMaximum(s, Emitted(es, since), ref);
    if RankOf(b) > Rank(Sent) {
      EmittedFrom(es, since, Update(ref, b.value));
    }
  }

  /** A message that is there from position since on: a tick beyond "sent" shows that the
      relay acked this very message and that its recipient then reported on the envelope the
      ack named. */
  lemma TickNeedsAck(ts: seq<Thread>, es: seq<Event>, since: nat, a: nat, i: nat, ref: string)
    requires UniqueRefs(ts) && a < |ts| && i < |ts[a].messages|
    requires ts[a].messages[i].clientRef == Some(ref) && RankOf(ts[a].messages[i].status) <= Rank(Sent)
    ensures var m := AppliedAll(ts, Emitted(es, since))[a].messages;
            i < |m| && (RankOf(m[i].status) > Rank(Sent) ==>
              exists k, j :: Reported(es, since, k, j, ref, m[i].status.value))
  {
    RunningMaximum(ts, Emitted(es, since), a);
    BestNeedsAck(ts[a].messages[i].status, es, since, ref);
    var m := AppliedAll(ts, Emitted(es, since))[a].messages;
    assert m[i] == After(ts[a].messages[i], Emitted(es, since));
  }

  // --- exactly what a message has heard ---

  /** An ack that binds this envelope, to whatever reference. */
  predicate Binds(e: Event, env: string) {
    e.AckArrived? && e.envelopeId == env && e.clientRef.Some? && e.clientRef.value != ""
  }

  /** Of the acks before position n that bound this envelope, the latest named ref. */
  ghost predicate BoundTo(es: seq<Event>, n: nat, env: string, ref: string)
    requires n <= |es|
  {
    exists i :: 0 <= i < n && IsAck(es[i], ref, env) && forall k :: i < k < n ==> !Binds(es[k], env)
  }

  lemma BoundToLater(es: seq<Event>, n: nat, env: string, ref: string)
    requires n < |es|
    ensures BoundTo(es, n + 1, env, ref) <==> IsAck(es[n], ref, env) || (BoundTo(es, n, env, ref) && !Binds(es[n], env))
  {
    if BoundTo(es, n + 1, env, ref) {
      var i :| 0 <= i < n + 1 && IsAck(es[i], ref, env) && forall k :: i < k < n + 1 ==> !Binds(es[k], env);
      assert i < n ==> !Binds(es[n], env);
    }
    if BoundTo(es, n, env, ref) && !Binds(es[n], env) {
      var i :| 0 <= i < n && IsAck(es[i], ref, env) && forall k :: i < k < n ==> !Binds(es[k], env);
      assert forall k :: i < k < n + 1 ==> !Binds(es[k], env);
    }
  }

  /** What is bound is what the latest ack of the envelope named. */
  lemma {:induction false} BoundExactly(es: seq<Event>, n: nat, env: string, ref: string)
    requires n <= |es| && ref != ""
    ensures env in Bound(es[..n]).envelopeToRef && Bound(es[..n]).envelopeToRef[env] == ref <==> BoundTo(es, n, env, ref)
  {
    if n > 0 {
      BoundExactly(es, n - 1, env, ref);
      BoundToLater(es, n - 1, env, ref);
      assert es[..n][..n - 1] == es[..n - 1];
      hide BoundTo;
    }
  }

  /** Event j tells the message with this reference its status: an ack of the reference, or a
      report on an envelope then bound to it. */
  ghost predicate Tells(es: seq<Event>, j: int, ref: string, s: Status) {
    && 0 <= j < |es|
    && match es[j]
       case AckArrived(r, env) => r == Some(ref) && s == Sent
       case ReportArrived(env, status) => status == s && BoundTo(es, j, env, ref)
  }

  ghost predicate Heard(es: seq<Event>, since: nat, ref: string, s: Status) {
    exists j :: since <= j && Tells(es, j, ref, s)
  }

  lemma TellsEmits(es: seq<Event>, j: nat, ref: string, s: Status)
    requires j < |es| && ref != ""
    ensures Handled(Bound(es[..j]), es[j]).1 == Some(Update(ref, s)) <==> Tells(es, j, ref, s)
  {
    if es[j].ReportArrived? {
      BoundExactly(es, j, es[j].envelopeId, ref);
    }
    hide BoundTo, Bound;
  }

  lemma EmittedNext(es: seq<Event>, n: nat, since: nat, u: Update)
    requires since < n <= |es|
    ensures u in Emitted(es[..n], since) <==>
              u in Emitted(es[..n - 1], since) || Handled(Bound(es[..n - 1]), es[n - 1]).1 == Some(u)
  {
    assert es[..n][..n - 1] == es[..n - 1];
    hide Bound, Handled;
  }

  /** One of the events from position since on, before n, tells it. */
  ghost predicate TellsBefore(es: seq<Event>, since: nat, n: nat, ref: string, s: Status) {
    exists j :: since <= j < n && Tells(es, j, ref, s)
  }

  lemma TellsNext(es: seq<Event>, since: nat, n: nat, ref: string, s: Status)
    requires since < n
    ensures TellsBefore(es, since, n, ref, s) <==> TellsBefore(es, since, n - 1, ref, s) || Tells(es, n - 1, ref, s)
  {
    hide Tells;
  }

  lemma {:induction false} EmittedExactly(es: seq<Event>, n: nat, since: nat, ref: string, s: Status)
    requires n <= |es| && ref != ""
    ensures Update(ref, s) in Emitted(es[..n], since) <==> TellsBefore(es, since, n, ref, s)
  {
    if n <= since {
      assert Emitted(es[..n], since) == [];
    } else {
      hide *;
      EmittedExactly(es, n - 1, since, ref, s);
      TellsEmits(es, n - 1, ref, s);
      TellsNext(es, since, n, ref, s);
      EmittedNext(es, n, since, Update(ref, s));
    }
  }

  lemma HeardExactly(es: seq<Event>, since: nat, ref: string, s: Status)
    requires ref != ""
    ensures Update(ref, s) in Emitted(es, since) <==> Heard(es, since, ref, s)
  {
    EmittedExactly(es, |es|, since, ref, s);
    assert es[..|es|] == es;
    if Heard(es, since, ref, s) {
      var j :| since <= j && Tells(es, j, ref, s);
      assert j < |es|;
    }
    hide Emitted, BoundTo;
  }

  /** The status that was heard, the farthest one if there are several. */
  ghost function Farthest(es: seq<Event>, since: nat, ref: string): Status {
    if Heard(es, since, ref, Read) then Read
    else if Heard(es, since, ref, Delivered) then Delivered
    else if Heard(es, since, ref, Sent) then Sent
    else Sending
  }

  lemma BestWasHeard(es: seq<Event>, since: nat, ref: string, s: Status)
    requires ref != ""
    ensures var b := Best(Some(Sending), Emitted(es, since), ref);
            && (Heard(es, since, ref, s) ==> RankOf(b) >= Rank(s))
            && b.Some? && (b.value == Sending || Heard(es, since, ref, b.value))
  {
    var us := Emitted(es, since);
    var b := Best(Some(Sending), us, ref);
    BestIsMaximum(Some(Sending), us, ref);
    hide Best, Emitted, Heard, Rank;
    HeardExactly(es, since, ref, s);
    HeardExactly(es, since, ref, b.value);
    if Update(ref, s) in us {
      assert Update(ref, s).clientRef == ref;
    }
  }

  /** Starting from "sending", the running maximum is the farthest status heard. */
  lemma BestIsFarthest(es: seq<Event>, since: nat, ref: string)
    requires ref != ""
    ensures Best(Some(Sending), Emitted(es, since), ref) == Some(Farthest(es, since, ref))
  {
    hide Best, Emitted, Heard;
    BestWasHeard(es, since, ref, Read);
    BestWasHeard(es, since, ref, Delivered);
    BestWasHeard(es, since, ref, Sent);
  }
}
