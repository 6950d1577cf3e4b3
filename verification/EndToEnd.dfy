/** The whole delivery path: what the retrying sender puts on the network, a network that
    drops, duplicates and reorders at will, and the filtering receiver. */
module EndToEnd {
  import opened MessageKeys
  import opened RetryMonitors
  import opened Participants
  import RetryRuns

  /** Any HISTORY_SIZE + 1 consecutive numbers are pairwise distinct. */
  ghost predicate WindowDistinct(a: seq<uint16>) {
    forall i, j | 0 <= i < j < |a| && j - i <= HISTORY_SIZE :: a[i] != a[j]
  }

  /** A copy is dropped exactly when fewer than HISTORY_SIZE numbers have been accepted
      since the number itself was last accepted. */
  lemma DroppedIff(a: seq<uint16>, seqNum: uint16)
    ensures seqNum in Recent(a) <==> exists i :: 0 <= i < |a| && a[i] == seqNum && |a| - 1 - i < HISTORY_SIZE
  {
    if i :| 0 <= i < |a| && a[i] == seqNum && |a| - 1 - i < HISTORY_SIZE {
      var k := if |a| <= HISTORY_SIZE then i else i - (|a| - HISTORY_SIZE);
      assert Recent(a)[k] == seqNum;
    }
    if seqNum in Recent(a) {
      var k :| 0 <= k < |Recent(a)| && Recent(a)[k] == seqNum;
      var i := if |a| <= HISTORY_SIZE then k else |a| - HISTORY_SIZE + k;
      assert a[i] == seqNum;
    }
  }

  lemma AppendWindow(a: seq<uint16>, seqNum: uint16)
    requires WindowDistinct(a) && seqNum !in Recent(a)
    ensures WindowDistinct(a + [seqNum])
  {
    DroppedIff(a, seqNum);
  }

  // The sequence numbers of the packets of one id, in order.
  function Nums(packets: seq<Packet>, id: uint16): seq<uint16> {
    if packets == [] then []
    else
      var last := packets[|packets| - 1];
      Nums(packets[..|packets| - 1], id) + if last.header.id == id then [last.header.seqNum] else []
  }

  lemma {:induction false} NumsConcat(a: seq<Packet>, b: seq<Packet>, id: uint16)
    ensures Nums(a + b, id) == Nums(a, id) + Nums(b, id)
  {
    if b == [] {
      assert a + b == a;
    } else {
      var n := |b| - 1;
      assert (a + b)[..|a + b| - 1] == a + b[..n];
      NumsConcat(a, b[..n], id);
    }
  }

  lemma NumsOne(p: Packet, id: uint16)
    ensures Nums([p], id) == if p.header.id == id then [p.header.seqNum] else []
  {
    assert [p][..0] == [];
    assert Nums([], id) == [];
  }

  /** Per registered id the handler has run for exactly the accepted numbers, in order,
      and those are distinct within every window. */
  ghost predicate Inv(r: Receiver) {
    && (forall id: uint16 | id != ACK_REMOTE_ID :: AcceptedBy(r, id) == Nums(r.invoked, id))
    && (forall id | id in r.accepted :: WindowDistinct(r.accepted[id]))
  }

  lemma AcceptedFollows(r: Receiver, p: Packet, id: uint16)
    requires id != ACK_REMOTE_ID && AcceptedBy(r, id) == Nums(r.invoked, id)
    ensures var r' := Receive(r, Arrive(p)); AcceptedBy(r', id) == Nums(r'.invoked, id)
  {
    var r' := Receive(r, Arrive(p));
    if r'.invoked != r.invoked {
      assert r'.invoked == r.invoked + [p];
      NumsConcat(r.invoked, [p], id);
      NumsOne(p, id);
    }
  }

  lemma ReceiveKeepsInv(r: Receiver, event: Event)
    requires Inv(r)
    ensures Inv(Receive(r, event))
  {
    if event.Arrive? {
      var p := event.packet;
      forall id: uint16 | id != ACK_REMOTE_ID
        ensures AcceptedBy(Receive(r, event), id) == Nums(Receive(r, event).invoked, id)
      {
        AcceptedFollows(r, p, id);
      }
      ReceiveKeepsDistinct(r, p);
    }
  }

  lemma ReceiveKeepsDistinct(r: Receiver, p: Packet)
    requires forall id | id in r.accepted :: WindowDistinct(r.accepted[id])
    ensures var r' := Receive(r, Arrive(p)); forall id | id in r'.accepted :: WindowDistinct(r'.accepted[id])
  {
    if p.header.seqNum !in Recent(AcceptedBy(r, p.header.id)) {
      AppendWindow(AcceptedBy(r, p.header.id), p.header.seqNum);
    }
  }

  // Every packet a handler saw has arrived.
  ghost predicate FromEvents(r: Receiver, events: seq<Event>) {
    forall i | 0 <= i < |r.invoked| :: Arrive(r.invoked[i]) in events
  }

  lemma ReceiveKeepsFrom(r: Receiver, event: Event, all: seq<Event>)
    requires FromEvents(r, all) && event in all
    ensures FromEvents(Receive(r, event), all)
  {
  }

  lemma {:induction false} ReceiveAllKeepsInv(r: Receiver, events: seq<Event>, all: seq<Event>)
    requires Inv(r) && FromEvents(r, all) && forall e | e in events :: e in all
    ensures Inv(ReceiveAll(r, events)) && FromEvents(ReceiveAll(r, events), all)
    decreases |events|
  {
    if events != [] {
      ReceiveKeepsInv(r, events[0]);
      ReceiveKeepsFrom(r, events[0], all);
      ReceiveAllKeepsInv(Receive(r, events[0]), events[1..], all);
    }
  }

  // Where the i-th packet's number stands among the numbers of its id.
  lemma NumsAt(packets: seq<Packet>, i: nat)
    requires i < |packets|
    ensures var id, k := packets[i].header.id, |Nums(packets[..i], packets[i].header.id)|;
            k < |Nums(packets, id)| && Nums(packets, id)[k] == packets[i].header.seqNum
  {
    var id := packets[i].header.id;
    assert packets == packets[..i] + [packets[i]] + packets[i + 1..];
    NumsConcat(packets[..i] + [packets[i]], packets[i + 1..], id);
    NumsConcat(packets[..i], [packets[i]], id);
    NumsOne(packets[i], id);
  }

  lemma NumsBetween(packets: seq<Packet>, i: nat, j: nat)
    requires i < j < |packets|
    ensures var id := packets[i].header.id;
            |Nums(packets[..j], id)| == |Nums(packets[..i], id)| + 1 + |Nums(packets[i + 1..j], id)|
  {
    var id := packets[i].header.id;
    assert packets[..j] == packets[..i] + [packets[i]] + packets[i + 1..j];
    NumsConcat(packets[..i] + [packets[i]], packets[i + 1..j], id);
    NumsConcat(packets[..i], [packets[i]], id);
    NumsOne(packets[i], id);
  }

  /** Whatever arrives, two runs of a handler for the same id and sequence number have at
      least HISTORY_SIZE other messages of that id accepted between them. */
  lemma HandlerRunsApart(events: seq<Event>, i: nat, j: nat)
    requires var r := ReceiveAll(NO_CHANNELS, events);
             && i < j < |r.invoked|
             && r.invoked[i].header.id == r.invoked[j].header.id != ACK_REMOTE_ID
             && r.invoked[i].header.seqNum == r.invoked[j].header.seqNum
    ensures var r := ReceiveAll(NO_CHANNELS, events);
            |Nums(r.invoked[i + 1..j], r.invoked[i].header.id)| >= HISTORY_SIZE
  {
    var r := ReceiveAll(NO_CHANNELS, events);
    var id := r.invoked[i].header.id;
    ReceiveAllKeepsInv(NO_CHANNELS, events, events);
    NumsAt(r.invoked, i);
    NumsAt(r.invoked, j);
    NumsBetween(r.invoked, i, j);
    assert AcceptedBy(r, id) == Nums(r.invoked, id);
  }

  // ---------------------------------------------------------------- what becomes of each packet

  // A handler has been registered for the id before event i.
  ghost predicate RegisteredBefore(events: seq<Event>, i: nat, id: uint16)
    requires i <= |events|
  {
    exists j :: 0 <= j < i && events[j].Register? && events[j].id == id
  }

  // Event j is the first registration of its id.
  ghost predicate FirstRegistration(events: seq<Event>, j: nat)
    requires j < |events|
  {
    events[j].Register? && forall k | 0 <= k < j && events[k].Register? :: events[k].id != events[j].id
  }

  lemma {:induction false} ReceiveAllConcat(r: Receiver, a: seq<Event>, b: seq<Event>)
    ensures ReceiveAll(r, a + b) == ReceiveAll(ReceiveAll(r, a), b)
    decreases |a|
  {
    if a == [] {
      assert a + b == b;
    } else {
      assert (a + b)[1..] == a[1..] + b;
      ReceiveAllConcat(Receive(r, a[0]), a[1..], b);
    }
  }

  lemma ReceiveNext(events: seq<Event>, i: nat)
    requires i < |events|
    ensures ReceiveAll(NO_CHANNELS, events[..i + 1]) == Receive(ReceiveAll(NO_CHANNELS, events[..i]), events[i])
  {
    assert events[..i + 1] == events[..i] + [events[i]];
    ReceiveAllConcat(NO_CHANNELS, events[..i], [events[i]]);
    assert [events[i]][1..] == [];
    var r := ReceiveAll(NO_CHANNELS, events[..i]);
    assert ReceiveAll(r, [events[i]]) == ReceiveAll(Receive(r, events[i]), []);
  }

  /** An id has a channel if and only if it has been registered, and the channel's type is
      that of the first registration. */
  lemma {:induction false} ChannelsAre(events: seq<Event>, i: nat, id: uint16)
    requires i <= |events|
    ensures var channels := ReceiveAll(NO_CHANNELS, events[..i]).channels;
            && (id in channels <==> RegisteredBefore(events, i, id))
            && forall j | 0 <= j < i && FirstRegistration(events, j) && events[j].id == id ::
                 id in channels && channels[id] == events[j].typeId
  {
    if i > 0 {
      ChannelsAre(events, i - 1, id);
      ReceiveNext(events, i - 1);
      var event := events[i - 1];
      if event.Register? && event.id == id {
        assert RegisteredBefore(events, i, id);
      } else {
        assert RegisteredBefore(events, i, id) <==> RegisteredBefore(events, i - 1, id);
      }
    }
  }

  // The number is among the last HISTORY_SIZE of these.
  ghost predicate AmongLast(nums: seq<uint16>, seqNum: uint16) {
    exists k :: 0 <= k < |nums| && |nums| - HISTORY_SIZE <= k && nums[k] == seqNum
  }

  // The packets handled before event i.
  function HandledBefore(events: seq<Event>, i: nat): seq<Packet>
    requires i <= |events|
  {
    ReceiveAll(NO_CHANNELS, events[..i]).invoked
  }

  lemma InvBefore(events: seq<Event>, i: nat)
    requires i <= |events|
    ensures Inv(ReceiveAll(NO_CHANNELS, events[..i]))
  {
    ReceiveAllKeepsInv(NO_CHANNELS, events[..i], events[..i]);
  }

  // What one more event does, in terms of what has been handled and registered.
  lemma ArriveIs(r: Receiver, p: Packet)
    requires Inv(r)
    ensures var id, registered := p.header.id, p.header.id in r.channels;
            var r' := Receive(r, Arrive(p));
            && r'.invoked == r.invoked + (if p.header.marker == MARKER && registered
                                             && (id == ACK_REMOTE_ID || !AmongLast(Nums(r.invoked, id), p.header.seqNum))
                                          then [p] else [])
            && r'.errors == r.errors + (if p.header.marker == MARKER && !registered then [(id, NO_DISPATCHER)] else [])
  {
    var id := p.header.id;
    if id != ACK_REMOTE_ID {
      DroppedIff(AcceptedBy(r, id), p.header.seqNum);
      assert AcceptedBy(r, id) == Nums(r.invoked, id);
    }
    assert r.invoked + [] == r.invoked && r.errors + [] == r.errors;
  }

  /** What becomes of each packet that arrives, whatever came before: it is given to the
      handler if and only if its marker is right, its id has been registered before, and it
      is an acknowledgement or its number is not among the last HISTORY_SIZE numbers handled
      for the id; and the missing handler is reported if and only if the marker is right and
      the id has not been registered. Nothing else changes either list. */
  lemma ArrivalIff(events: seq<Event>, i: nat)
    requires i < |events| && events[i].Arrive?
    ensures var p := events[i].packet;
            var id, handled := p.header.id, HandledBefore(events, i);
            && HandledBefore(events, i + 1)
               == handled + (if p.header.marker == MARKER && RegisteredBefore(events, i, id)
                                && (id == ACK_REMOTE_ID || !AmongLast(Nums(handled, id), p.header.seqNum))
                             then [p] else [])
            && ReceiveAll(NO_CHANNELS, events[..i + 1]).errors
               == ReceiveAll(NO_CHANNELS, events[..i]).errors
                  + (if p.header.marker == MARKER && !RegisteredBefore(events, i, id) then [(id, NO_DISPATCHER)] else [])
  {
    ReceiveNext(events, i);
    InvBefore(events, i);
    ChannelsAre(events, i, events[i].packet.header.id);
    ArriveIs(ReceiveAll(NO_CHANNELS, events[..i]), events[i].packet);
  }

  /** And a registration reports a mismatch if and only if the first one of its id was of
      another type; it hands nothing to a handler. */
  lemma RegistrationIff(events: seq<Event>, i: nat)
    requires i < |events| && events[i].Register?
    ensures HandledBefore(events, i + 1) == HandledBefore(events, i)
    ensures var before, after := ReceiveAll(NO_CHANNELS, events[..i]).errors, ReceiveAll(NO_CHANNELS, events[..i + 1]).errors;
            var id := events[i].id;
            var mismatch := exists j :: 0 <= j < i && FirstRegistration(events, j) && events[j].id == id
                                        && events[j].typeId != events[i].typeId;
            after == before + if mismatch then [(id, TYPE_MISMATCH)] else []
  {
    ReceiveNext(events, i);
    ChannelsAre(events, i, events[i].id);
    var r := ReceiveAll(NO_CHANNELS, events[..i]);
    assert r.errors + [] == r.errors;
    if RegisteredBefore(events, i, events[i].id) {
      var j := FirstOf(events, i, events[i].id);
    }
  }

  lemma {:induction false} FirstOf(events: seq<Event>, i: nat, id: uint16) returns (j: nat)
    requires i <= |events| && RegisteredBefore(events, i, id)
    ensures j < i && events[j].Register? && events[j].id == id && FirstRegistration(events, j)
  {
    j :| 0 <= j < i && events[j].Register? && events[j].id == id;
    if k :| 0 <= k < j && events[k].Register? && events[k].id == id {
      j := FirstOf(events, j, id);
    }
  }

  // What a network may deliver: any sequence of copies of what was transmitted.
  ghost predicate Delivers(s: RetryRuns.State, events: seq<Event>) {
    forall e | e in events && e.Arrive? :: exists t :: t in s.log && t.packet == e.packet
  }

  /** End to end: every packet a handler is given is, header and bytes, the packet of some
      SendWithRetry call; and if fewer than HISTORY_SIZE other messages of its id were
      handled between two deliveries of it, the handler ran at most once. */
  lemma DeliveredOnce(cap: nat, maxRetries: int, steps: seq<RetryRuns.Step>, events: seq<Event>)
    requires Delivers(RetryRuns.Exec(RetryRuns.Init(cap, maxRetries), steps), events)
    ensures var s := RetryRuns.Exec(RetryRuns.Init(cap, maxRetries), steps);
            var r := ReceiveAll(NO_CHANNELS, events);
            && (forall i | 0 <= i < |r.invoked| :: exists m :: 0 <= m < |s.origin| && s.origin[m].packet == r.invoked[i])
            && (forall i, j | 0 <= i < j < |r.invoked| && r.invoked[i] == r.invoked[j]
                              && r.invoked[i].header.id != ACK_REMOTE_ID ::
                  |Nums(r.invoked[i + 1..j], r.invoked[i].header.id)| >= HISTORY_SIZE)
  {
    var s := RetryRuns.Exec(RetryRuns.Init(cap, maxRetries), steps);
    var r := ReceiveAll(NO_CHANNELS, events);
    ReceiveAllKeepsInv(NO_CHANNELS, events, events);
    RetryRuns.SendBudget(cap, maxRetries, steps, 0);
    forall i | 0 <= i < |r.invoked| ensures exists m :: 0 <= m < |s.origin| && s.origin[m].packet == r.invoked[i] {
      var e := Arrive(r.invoked[i]);
      assert e in events && e.Arrive?;
      var t :| t in s.log && t.packet == e.packet;
      var k :| 0 <= k < |s.log| && s.log[k] == t;
      assert s.origin[t.msg].packet == r.invoked[i];
    }
    forall i, j | 0 <= i < j < |r.invoked| && r.invoked[i] == r.invoked[j] && r.invoked[i].header.id != ACK_REMOTE_ID
      ensures |Nums(r.invoked[i + 1..j], r.invoked[i].header.id)| >= HISTORY_SIZE
    {
      HandlerRunsApart(events, i, j);
    }
  }
}
