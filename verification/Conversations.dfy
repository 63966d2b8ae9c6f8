/** The app's conversation store: threads in insertion order, whose records the store's
    methods change in place, and the client's correlation of references with envelopes. */
module Conversations {
  import opened Envelope
  import opened DeliveryStatus
  import opened Options

  // --- references ---

  /** `c${counter}-${at.toString(36)}`; the clock's part is any string. */
  function RefFor(counter: nat, at36: string): string {
    "c" + Digits(counter) + "-" + at36
  }

  /** The counter alone makes references differ, whatever the clock says. */
  lemma RefInjective(b: nat, x: string, c: nat, y: string)
    requires RefFor(b, x) == RefFor(c, y)
    ensures b == c
  {
    DigitsSpell(b);
    DigitsSpell(c);
    hide Digits, Spelled;
    FirstDash(Digits(b), x, Digits(c), y);
  }

  lemma FirstDash(s: string, x: string, t: string, y: string)
    requires '-' !in s && '-' !in t && "c" + s + "-" + x == "c" + t + "-" + y
    ensures s == t
  {
    var k := "c" + s + "-" + x;
    if |s| < |t| {
      EarlierDash(s, x, t, y);
    } else if |t| < |s| {
      EarlierDash(t, y, s, x);
    } else {
      assert s == k[1..|s| + 1] && t == k[1..|t| + 1];
    }
  }

  lemma EarlierDash(s: string, x: string, t: string, y: string)
    requires |s| < |t| && "c" + s + "-" + x == "c" + t + "-" + y
    ensures '-' in t
  {
    assert ("c" + s + "-" + x)[|s| + 1] == '-' && ("c" + t + "-" + y)[|s| + 1] == t[|s|];
  }

  /** A reference that one of the counter values so far was used for. */
  ghost predicate IssuedBy(ref: string, counter: nat) {
    exists k: nat, x :: k <= counter && ref == RefFor(k, x)
  }

  ghost predicate RefsInv(ts: seq<Thread>, counter: nat) {
    && UniqueRefs(ts)
    && forall a, i :: 0 <= a < |ts| && 0 <= i < |ts[a].messages| && ts[a].messages[i].clientRef.Some?
                      ==> IssuedBy(ts[a].messages[i].clientRef.value, counter)
  }

  // --- what the operations do to the threads ---

  function IndexOfPeer(ts: seq<Thread>, peer: string): (i: nat)
    ensures i <= |ts| && (i < |ts| ==> ts[i].peer == peer)
    ensures forall k :: 0 <= k < i ==> ts[k].peer != peer
  {
    if ts == [] || ts[0].peer == peer then 0 else 1 + IndexOfPeer(ts[1..], peer)
  }

  /** A thread for the peer, appended empty if there is none. */
  function Ensured(ts: seq<Thread>, peer: string): (r: seq<Thread>)
    ensures IndexOfPeer(ts, peer) < |r| && |ts| <= |r|
  {
    if IndexOfPeer(ts, peer) < |ts| then ts else ts + [Thread(peer, [], 0, 0, false)]
  }

  function MessageId(counter: nat): string { "m" + if counter == 0 then "0" else Digits(counter) }

  function Blank(counter: nat, text: string, mine: bool, at: int): Msg {
    Msg(MessageId(counter), text, mine, at, None, None, None, false, None)
  }

  /** A message to a group carries neither reference nor status. */
  function Outbound(counter: nat, text: string, at: int, at36: string, group: bool): Msg {
    var m := Blank(counter, text, true, at);
    if group then m else m.(clientRef := Some(RefFor(counter + 1, at36)), status := Some(Sending))
  }

  function Appended(t: Thread, m: Msg, unread: nat, at: int): Thread {
    t.(messages := t.messages + [m], unread := t.unread + unread, lastAt := at)
  }

  function SentTo(ts: seq<Thread>, counter: nat, peer: string, text: string, at: int, at36: string): seq<Thread> {
    var r, i := Ensured(ts, peer), IndexOfPeer(ts, peer);
    r[i := Appended(r[i], Outbound(counter, text, at, at36, r[i].group), 0, at)]
  }

  /** An empty envelope id is falsy and not recorded. */
  function Inbound(counter: nat, text: string, at: int, envelopeId: Option<string>): Msg {
    Blank(counter, text, false, at).(envelopeId := if envelopeId == Some("") then None else envelopeId)
  }

  function ReceivedFrom(ts: seq<Thread>, counter: nat, peer: string, text: string, at: int, envelopeId: Option<string>)
    : seq<Thread>
  {
    var r, i := Ensured(ts, peer), IndexOfPeer(ts, peer);
    r[i := Appended(r[i], Inbound(counter, text, at, envelopeId), 1, at)]
  }

  /** The thread becomes a group's, whatever it was before. */
  function GroupEnsured(ts: seq<Thread>, gid: string): (r: seq<Thread>)
    ensures IndexOfPeer(ts, gid) < |r|
  {
    var r, i := Ensured(ts, gid), IndexOfPeer(ts, gid);
    r[i := r[i].(group := true)]
  }

  function GroupCreated(ts: seq<Thread>, gid: string, at: int): seq<Thread> {
    var r, i := GroupEnsured(ts, gid), IndexOfPeer(ts, gid);
    r[i := r[i].(lastAt := at)]
  }

  function GroupInbound(counter: nat, sender: string, text: string, at: int, envelopeId: Option<string>): Msg {
    Inbound(counter, text, at, envelopeId).(senderId := Some(sender))
  }

  /** A group message goes to the group's thread and names its sender. */
  function GroupReceived(ts: seq<Thread>, counter: nat, gid: string, sender: string, text: string, at: int,
                         envelopeId: Option<string>): seq<Thread>
  {
    var r, i := GroupEnsured(ts, gid), IndexOfPeer(ts, gid);
    r[i := Appended(r[i], GroupInbound(counter, sender, text, at, envelopeId), 1, at)]
  }

  predicate Unreceipted(m: Msg) { !m.mine && !m.readSent && m.envelopeId.Some? && m.envelopeId.value != "" }

  function Receipted(m: Msg): Msg { if Unreceipted(m) then m.(readSent := true) else m }

  function MarkedRead(t: Thread): Thread {
    t.(messages := seq(|t.messages|, i requires 0 <= i < |t.messages| => Receipted(t.messages[i])), unread := 0)
  }

  function ReadThread(ts: seq<Thread>, peer: string): (r: seq<Thread>)
    ensures |r| == |ts|
  {
    var i := IndexOfPeer(ts, peer);
    if i < |ts| then ts[i := MarkedRead(ts[i])] else ts
  }

  /** A receipt names the real sender and the envelope. */
  function Receipts(ms: seq<Msg>, peer: string): seq<(string, string)> {
    if ms == [] then []
    else
      var n := |ms| - 1;
      Receipts(ms[..n], peer)
      + if Unreceipted(ms[n]) then [(if ms[n].senderId.Some? then ms[n].senderId.value else peer, ms[n].envelopeId.value)]
        else []
  }

  // --- references stay unique ---

  /** One more message at the end of one thread, without a reference or with a new one. */
  lemma AppendKeepsRefs(ts: seq<Thread>, counter: nat, i: nat, m: Msg, unread: nat, at: int, at36: string)
    requires RefsInv(ts, counter) && i < |ts|
    requires m.clientRef == None || m.clientRef == Some(RefFor(counter + 1, at36))
    ensures RefsInv(ts[i := Appended(ts[i], m, unread, at)], counter + 1)
  {
    hide RefFor;
    var r := ts[i := Appended(ts[i], m, unread, at)];
    forall a, j | 0 <= a < |r| && 0 <= j < |r[a].messages| && r[a].messages[j].clientRef.Some?
      ensures IssuedBy(r[a].messages[j].clientRef.value, counter + 1)
      ensures (a == i && j == |ts[i].messages|) || r[a].messages[j].clientRef != m.clientRef
    {
      if a == i && j == |ts[i].messages| {
        assert RefFor(counter + 1, at36) == r[a].messages[j].clientRef.value;
      } else {
        var old' := ts[a].messages[j].clientRef.value;
        assert IssuedBy(old', counter);
        if old' == RefFor(counter + 1, at36) {
          var k: nat, x :| k <= counter && old' == RefFor(k, x);
          RefInjective(k, x, counter + 1, at36);
          assert false;
        }
      }
    }
  }

  lemma EnsuredKeepsRefs(ts: seq<Thread>, counter: nat, peer: string)
    requires RefsInv(ts, counter)
    ensures RefsInv(Ensured(ts, peer), counter)
  {}

  /** Changes that keep every message's reference. */
  lemma SameRefs(ts: seq<Thread>, r: seq<Thread>, counter: nat)
    requires RefsInv(ts, counter) && |r| == |ts|
    requires forall a :: 0 <= a < |ts| ==> |r[a].messages| == |ts[a].messages|
    requires forall a, i :: 0 <= a < |ts| && 0 <= i < |ts[a].messages|
                            ==> r[a].messages[i].clientRef == ts[a].messages[i].clientRef
    ensures RefsInv(r, counter)
  {
    forall a, i, b, j | 0 <= a < |r| && 0 <= i < |r[a].messages| && 0 <= b < |r| && 0 <= j < |r[b].messages|
      && r[a].messages[i].clientRef.Some? && r[a].messages[i].clientRef == r[b].messages[j].clientRef
      ensures a == b && i == j
    {
      assert ts[a].messages[i].clientRef == ts[b].messages[j].clientRef;
    }
    forall a, i | 0 <= a < |r| && 0 <= i < |r[a].messages| && r[a].messages[i].clientRef.Some?
      ensures IssuedBy(r[a].messages[i].clientRef.value, counter)
    {
      assert IssuedBy(ts[a].messages[i].clientRef.value, counter);
    }
  }

  lemma GroupEnsuredKeepsRefs(ts: seq<Thread>, counter: nat, gid: string)
    requires RefsInv(ts, counter)
    ensures RefsInv(GroupEnsured(ts, gid), counter)
  {
    hide RefsInv;
    EnsuredKeepsRefs(ts, counter, gid);
    SameRefs(Ensured(ts, gid), GroupEnsured(ts, gid), counter);
  }

  lemma CreateKeepsRefs(ts: seq<Thread>, counter: nat, gid: string, at: int)
    requires RefsInv(ts, counter)
    ensures RefsInv(GroupCreated(ts, gid, at), counter)
  {
    hide RefsInv;
    GroupEnsuredKeepsRefs(ts, counter, gid);
    SameRefs(GroupEnsured(ts, gid), GroupCreated(ts, gid, at), counter);
  }

  lemma GroupReceiveKeepsRefs(ts: seq<Thread>, counter: nat, gid: string, sender: string, text: string, at: int,
                              envelopeId: Option<string>)
    requires RefsInv(ts, counter)
    ensures RefsInv(GroupReceived(ts, counter, gid, sender, text, at, envelopeId), counter + 1)
  {
    hide RefsInv, RefFor, MessageId;
    var r, i := GroupEnsured(ts, gid), IndexOfPeer(ts, gid);
    GroupEnsuredKeepsRefs(ts, counter, gid);
    AppendKeepsRefs(r, counter, i, GroupInbound(counter, sender, text, at, envelopeId), 1, at, "");
  }

  lemma SendKeepsRefs(ts: seq<Thread>, counter: nat, peer: string, text: string, at: int, at36: string)
    requires RefsInv(ts, counter)
    ensures RefsInv(SentTo(ts, counter, peer, text, at, at36), counter + 1)
  {
    hide RefsInv, RefFor, MessageId;
    var r, i := Ensured(ts, peer), IndexOfPeer(ts, peer);
    EnsuredKeepsRefs(ts, counter, peer);
    AppendKeepsRefs(r, counter, i, Outbound(counter, text, at, at36, r[i].group), 0, at, at36);
  }

  lemma ReceiveKeepsRefs(ts: seq<Thread>, counter: nat, peer: string, text: string, at: int, envelopeId: Option<string>)
    requires RefsInv(ts, counter)
    ensures RefsInv(ReceivedFrom(ts, counter, peer, text, at, envelopeId), counter + 1)
  {
    hide RefsInv, RefFor, MessageId;
    var r, i := Ensured(ts, peer), IndexOfPeer(ts, peer);
    EnsuredKeepsRefs(ts, counter, peer);
    AppendKeepsRefs(r, counter, i, Inbound(counter, text, at, envelopeId), 1, at, "");
  }

  lemma StatusKeepsRefs(ts: seq<Thread>, counter: nat, us: seq<Update>)
    requires RefsInv(ts, counter)
    ensures RefsInv(AppliedAll(ts, us), counter)
  {
    var r := AppliedAll(ts, us);
    forall a | 0 <= a < |ts|
      ensures |r[a].messages| == |ts[a].messages|
      ensures forall i :: 0 <= i < |ts[a].messages| ==> r[a].messages[i].clientRef == ts[a].messages[i].clientRef
    {
      RunningMaximum(ts, us, a);
    }
    hide AppliedAll, RefsInv;
    SameRefs(ts, r, counter);
  }

  lemma ReadKeepsRefs(ts: seq<Thread>, counter: nat, peer: string)
    requires RefsInv(ts, counter)
    ensures RefsInv(ReadThread(ts, peer), counter)
  {
    hide RefsInv;
    SameRefs(ts, ReadThread(ts, peer), counter);
  }

  // --- receipts ---

  /** Marking a thread read asks for one receipt per inbound envelope not yet receipted, and
      after it no receipt is due. */
  lemma {:induction false} ReceiptsOnce(ms: seq<Msg>, peer: string)
    ensures var after := seq(|ms|, i requires 0 <= i < |ms| => Receipted(ms[i]));
            Receipts(after, peer) == []
  {
    if ms != [] {
      var n := |ms| - 1;
      var after := seq(|ms|, i requires 0 <= i < |ms| => Receipted(ms[i]));
      ReceiptsOnce(ms[..n], peer);
      assert after[..n] == seq(n, i requires 0 <= i < n => Receipted(ms[..n][i]));
    }
  }

  /** A receipt due to s for envelope e: an inbound message that came with e and has not been
      receipted, its real sender if it names one and else the peer. */
  predicate Due(m: Msg, peer: string, s: string, e: string) {
    !m.mine && !m.readSent && m.envelopeId == Some(e) && e != "" && s == if m.senderId.Some? then m.senderId.value else peer
  }

  /** Receipts are asked for exactly where they are due. */
  lemma {:induction false} ReceiptsExactly(ms: seq<Msg>, peer: string, s: string, e: string)
    ensures (s, e) in Receipts(ms, peer) <==> exists m :: m in ms && Due(m, peer, s, e)
  {
    if ms != [] {
      var n := |ms| - 1;
      ReceiptsExactly(ms[..n], peer, s, e);
      assert ms == ms[..n] + [ms[n]];
      assert (s, e) in Receipts(ms, peer) <==> (s, e) in Receipts(ms[..n], peer) || Due(ms[n], peer, s, e);
      hide Due, Receipts;
    }
  }
}
