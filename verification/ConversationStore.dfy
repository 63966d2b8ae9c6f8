/** The imperative side of delivery status: the conversation store, whose conversations are
    changed in place, and the client's correlation maps. */
module ConversationStore {
  import opened DeliveryStatus
  import opened Conversations
  import opened Options

  class Conversation {
    /** Its place in the store. */
    ghost const index: nat
    const peerUserId: string
    var messages: seq<Msg>
    var unread: nat
    var lastAt: int
    var group: bool

    constructor (peerUserId: string, ghost index: nat)
      ensures View() == Thread(peerUserId, [], 0, 0, false) && this.index == index
    {
      this.index, this.peerUserId := index, peerUserId;
      messages, unread, lastAt, group := [], 0, 0, false;
    }

    function View(): Thread
      reads this
    {
      Thread(peerUserId, messages, unread, lastAt, group)
    }
  }

  lemma AppliedNowhere(ts: seq<Thread>, u: Update)
    requires forall k :: 0 <= k < |ts| ==> IndexOfRef(ts[k].messages, u.clientRef) == |ts[k].messages|
    ensures Applied(ts, u) == ts
  {
    if ts != [] {
      AppliedNowhere(ts[1..], u);
    }
  }

  lemma {:induction false} AppliedAt(ts: seq<Thread>, u: Update, i: nat)
    requires i < |ts| && IndexOfRef(ts[i].messages, u.clientRef) < |ts[i].messages|
    requires forall k :: 0 <= k < i ==> IndexOfRef(ts[k].messages, u.clientRef) == |ts[k].messages|
    ensures var ms, j := ts[i].messages, IndexOfRef(ts[i].messages, u.clientRef);
            Applied(ts, u) == ts[i := ts[i].(messages := ms[j := Raised(ms[j], u.status)])]
  {
    if i > 0 {
      AppliedAt(ts[1..], u, i - 1);
    }
  }

  lemma {:induction false} ReceiptedPrefix(ms: seq<Msg>, peer: string, i: nat)
    requires i < |ms|
    ensures Receipts(ms[..i + 1], peer)
         == Receipts(ms[..i], peer)
            + if Unreceipted(ms[i]) then [(if ms[i].senderId.Some? then ms[i].senderId.value else peer, ms[i].envelopeId.value)]
              else []
  {
    assert ms[..i + 1][..i] == ms[..i];
  }

  class Store {
    /** In insertion order. */
    var convs: seq<Conversation>
    var counter: nat
    ghost var view: seq<Thread>

    ghost predicate Valid()
      reads this, convs
    {
      |view| == |convs| && forall i :: 0 <= i < |convs| ==> convs[i].index == i && view[i] == convs[i].View()
    }

    constructor ()
      ensures Valid() && view == [] && counter == 0
    {
      convs, counter, view := [], 0, [];
    }

    method Find(peer: string) returns (i: nat)
      requires Valid()
      ensures i == IndexOfPeer(view, peer)
    {
      i := 0;
      while i < |convs|
        invariant i <= |convs| && forall k :: 0 <= k < i ==> view[k].peer != peer
      {
        if convs[i].peerUserId == peer {
          return;
        }
        i := i + 1;
      }
    }

    method Ensure(peer: string) returns (i: nat)
      requires Valid()
      modifies this`convs, this`view
      ensures Valid() && view == Ensured(old(view), peer)
      ensures i == IndexOfPeer(old(view), peer) && i < |convs|
      ensures fresh(convs[i]) || (i < |old(convs)| && convs == old(convs))
      ensures forall c :: c in old(convs) ==> c in convs
    {
      i := Find(peer);
      if i == |convs| {
        var conv := new Conversation(peer, i);
        convs := convs + [conv];
        view := view + [conv.View()];
      }
    }

    method Append(i: nat, m: Msg, unread: nat, at: int)
      requires Valid() && i < |convs|
      modifies this`view, convs[i]
      ensures Valid() && view == old(view)[i := Appended(old(view)[i], m, unread, at)]
    {
      var conv := convs[i];
      conv.messages := conv.messages + [m];
      conv.unread := conv.unread + unread;
      conv.lastAt := at;
      view := view[i := Appended(view[i], m, unread, at)];
    }

    method SetMessages(i: nat, ms: seq<Msg>, unread: nat)
      requires Valid() && i < |convs|
      modifies this`view, convs[i]
      ensures Valid() && view == old(view)[i := old(view)[i].(messages := ms, unread := unread)]
    {
      var conv := convs[i];
      conv.messages := ms;
      conv.unread := unread;
      view := view[i := view[i].(messages := ms, unread := unread)];
    }

    method Make(text: string, mine: bool, at: int) returns (m: Msg)
      modifies this`counter
      ensures m == Blank(old(counter), text, mine, at) && counter == old(counter) + 1
    {
      m := Blank(counter, text, mine, at);
      counter := counter + 1;
    }

    /** The reference uses the counter after it has moved on. What is handed to the client to
        be sent is the reference, or nothing for a group. */
    method Send(peer: string, text: string, at: int, at36: string) returns (clientRef: Option<string>)
      requires Valid()
      modifies this, convs
      ensures Valid() && counter == old(counter) + 1
      ensures view == SentTo(old(view), old(counter), peer, text, at, at36)
      ensures clientRef == if Ensured(old(view), peer)[IndexOfPeer(old(view), peer)].group then None
                           else Some(RefFor(counter, at36))
    {
      hide Valid;
      var i := Ensure(peer);
      Agrees(i);
      var message := Make(text, true, at);
      if convs[i].group {
        clientRef := None;
      } else {
        clientRef := Some(RefFor(counter, at36));
        message := message.(clientRef := clientRef, status := Some(Sending));
      }
      Append(i, message, 0, at);
    }

    /** A plain text from a peer. */
    method Receive(peer: string, text: string, at: int, envelopeId: Option<string>)
      requires Valid()
      modifies this, convs
      ensures Valid() && counter == old(counter) + 1
      ensures view == ReceivedFrom(old(view), old(counter), peer, text, at, envelopeId)
    {
      hide Valid;
      var i := Ensure(peer);
      var message := Make(text, false, at);
      if envelopeId != Some("") {
        message := message.(envelopeId := envelopeId);
      }
      Append(i, message, 1, at);
    }

    method EnsureGroup(gid: string) returns (i: nat)
      requires Valid()
      modifies this`convs, this`view, convs
      ensures Valid() && view == GroupEnsured(old(view), gid)
      ensures i == IndexOfPeer(old(view), gid) && i < |convs|
      ensures fresh(convs[i]) || (i < |old(convs)| && convs == old(convs))
    {
      i := Ensure(gid);
      var conv := convs[i];
      conv.group := true;
      view := view[i := view[i].(group := true)];
    }

    method CreateGroup(gid: string, at: int)
      requires Valid()
      modifies this`convs, this`view, convs
      ensures Valid() && view == GroupCreated(old(view), gid, at)
    {
      var i := EnsureGroup(gid);
      var conv := convs[i];
      conv.lastAt := at;
      view := view[i := view[i].(lastAt := at)];
    }

    /** A group message from one of its members. */
    method ReceiveGroup(gid: string, sender: string, text: string, at: int, envelopeId: Option<string>)
      requires Valid()
      modifies this, convs
      ensures Valid() && counter == old(counter) + 1
      ensures view == GroupReceived(old(view), old(counter), gid, sender, text, at, envelopeId)
    {
      hide Valid;
      var i := EnsureGroup(gid);
      var message := Make(text, false, at);
      message := message.(senderId := Some(sender));
      if envelopeId != Some("") {
        message := message.(envelopeId := envelopeId);
      }
      Append(i, message, 1, at);
    }

    lemma Agrees(i: nat)
      requires Valid() && i < |convs|
      ensures |view| == |convs| && view[i] == convs[i].View()
    {}

    /** Listeners are told exactly when a message changed. */
    method ApplyStatus(clientRef: string, status: Status) returns (emitted: bool)
      requires Valid()
      modifies this`view, convs
      ensures Valid() && view == Applied(old(view), Update(clientRef, status))
      ensures emitted <==> view != old(view)
    {
      var i := 0;
      while i < |convs|
        invariant 0 <= i <= |convs| && Valid() && view == old(view)
        invariant forall k :: 0 <= k < i ==> IndexOfRef(view[k].messages, clientRef) == |view[k].messages|
      {
        var ms := convs[i].messages;
        var idx := IndexOfRef(ms, clientRef);
        if idx < |ms| {
          AppliedAt(view, Update(clientRef, status), i);
          emitted := Raise(i, idx, status);
          return;
        }
        i := i + 1;
      }
      AppliedNowhere(view, Update(clientRef, status));
      emitted := false;
    }

    method Raise(i: nat, idx: nat, status: Status) returns (changed: bool)
      requires Valid() && i < |convs| && idx < |view[i].messages|
      modifies this`view, convs[i]
      ensures Valid()
      ensures var ms := old(view)[i].messages;
              view == old(view)[i := old(view)[i].(messages := ms[idx := Raised(ms[idx], status)])]
      ensures changed <==> view != old(view)
    {
      hide Valid;
      Agrees(i);
      var ms := convs[i].messages;
      if Rank(status) <= RankOf(ms[idx].status) {
        assert ms[idx := ms[idx]] == ms;
        return false;
      }
      var updated := ms[idx].(status := Some(status));
      SetMessages(i, ms[..idx] + [updated] + ms[idx + 1..], convs[i].unread);
      assert ms[..idx] + [updated] + ms[idx + 1..] == ms[idx := updated];
      assert view[i].messages[idx] != old(view)[i].messages[idx];
      changed := true;
    }

    /** Returns the read receipts to send: who gets them, and for which envelopes. */
    method MarkRead(peer: string) returns (receipts: seq<(string, string)>, emitted: bool)
      requires Valid()
      modifies this`view, convs
      ensures Valid()
      ensures view == ReadThread(old(view), peer)
      ensures var i := IndexOfPeer(old(view), peer);
              receipts == if i < |old(view)| then Receipts(old(view)[i].messages, peer) else []
      ensures emitted <==> view != old(view)
    {
      hide Valid;
      receipts, emitted := [], false;
      var i := Find(peer);
      Counts();
      if i == |convs| {
        return;
      }
      Agrees(i);
      var ms := convs[i].messages;
      var out;
      out, receipts, emitted := ReceiptAll(ms, peer);
      var unread := convs[i].unread;
      SetMessages(i, out, 0);
      if unread != 0 {
        emitted := true;
        assert view[i].unread != old(view)[i].unread;
      }
      assert out == MarkedRead(old(view)[i]).messages;
      if out != ms {
        assert view[i].messages != old(view)[i].messages;
      } else {
        assert unread == 0 ==> view[i] == old(view)[i];
      }
    }

    lemma Counts()
      requires Valid()
      ensures |view| == |convs|
    {}

    static method ReceiptAll(ms: seq<Msg>, peer: string)
      returns (out: seq<Msg>, receipts: seq<(string, string)>, changed: bool)
      ensures out == AllReceipted(ms, |ms|)
      ensures receipts == Receipts(ms, peer)
      ensures changed <==> out != ms
    {
      out, receipts, changed := [], [], false;
      assert AllReceipted(ms, 0) == [] && ms[..0] == [];
      for i := 0 to |ms|
        invariant out == AllReceipted(ms, i)
        invariant receipts == Receipts(ms[..i], peer)
        invariant changed <==> out != ms[..i]
      {
        hide Receipts, AllReceipted;
        var m := ms[i];
        ReceiptedPrefix(ms, peer, i);
        OneMoreReceipted(ms, i);
        OneMoreDiffers(out, ms, i, Receipted(m));
        if m.mine || m.readSent || m.envelopeId == None || m.envelopeId.value == "" {
          out := out + [m];
        } else {
          receipts := receipts + [(if m.senderId.Some? then m.senderId.value else peer, m.envelopeId.value)];
          changed := true;
          out := out + [m.(readSent := true)];
        }
      }
      assert ms[..|ms|] == ms;
    }

    /** The first n messages, each marked if its receipt was due. */
    static function AllReceipted(ms: seq<Msg>, n: nat): (r: seq<Msg>)
      requires n <= |ms|
      ensures |r| == n
    {
      seq(n, i requires 0 <= i < n => Receipted(ms[i]))
    }

    static lemma OneMoreReceipted(ms: seq<Msg>, i: nat)
      requires i < |ms|
      ensures AllReceipted(ms, i + 1) == AllReceipted(ms, i) + [Receipted(ms[i])]
    {
      hide Receipted;
    }

    static lemma OneMoreDiffers(out: seq<Msg>, ms: seq<Msg>, i: nat, m: Msg)
      requires |out| == i < |ms|
      ensures out + [m] != ms[..i + 1] <==> out != ms[..i] || m != ms[i]
    {
      assert ms[..i + 1] == ms[..i] + [ms[i]];
      assert out + [m] == ms[..i + 1] ==> out == (out + [m])[..i] && (out + [m])[i] == m;
    }

    method Reset()
      modifies this
      ensures Valid() && view == [] && counter == 0
    {
      convs, counter, view := [], 0, [];
    }
  }

  /** The client's two maps. */
  class Correlator {
    var refToEnvelope: map<string, string>
    var envelopeToRef: map<string, string>

    function View(): Correlation
      reads this
    {
      Correlation(refToEnvelope, envelopeToRef)
    }

    constructor ()
      ensures View() == NOTHING_BOUND
    {
      refToEnvelope, envelopeToRef := map[], map[];
    }

    method HandleAck(clientRef: Option<string>, envelopeId: string) returns (u: Option<Update>)
      modifies this
      ensures (View(), u) == Handled(old(View()), AckArrived(clientRef, envelopeId))
    {
      if clientRef == None || clientRef.value == "" {
        return None;
      }
      refToEnvelope := refToEnvelope[clientRef.value := envelopeId];
      envelopeToRef := envelopeToRef[envelopeId := clientRef.value];
      u := Some(Update(clientRef.value, Sent));
    }

    method HandleStatus(envelopeId: string, status: Status) returns (u: Option<Update>)
      ensures (View(), u) == Handled(View(), ReportArrived(envelopeId, status))
    {
      if envelopeId in envelopeToRef && envelopeToRef[envelopeId] != "" {
        return Some(Update(envelopeToRef[envelopeId], status));
      }
      u := None;
    }
  }
}
