/** The receiving end: Participant's channel table and its per-id ring of recently
    accepted sequence numbers, which filters out retransmissions. */
module Participants {
  import opened MessageKeys
  import opened RetryMonitors

  const HISTORY_SIZE: nat := 8

  // The last HISTORY_SIZE accepted sequence numbers.
  function Recent(accepted: seq<uint16>): seq<uint16> {
    if |accepted| <= HISTORY_SIZE then accepted else accepted[|accepted| - HISTORY_SIZE..]
  }

  // The ring is held by value in Participant's map.
  datatype SeqHistory = SeqHistory(buffer: seq<uint16>, valid: seq<bool>, head: nat)

  const EMPTY_HISTORY := SeqHistory(seq(HISTORY_SIZE, _ => 0), seq(HISTORY_SIZE, _ => false), 0)

  /** The ring holds exactly the last accepted numbers: `accepted` lists every number
      that was not a duplicate, oldest first. */
  ghost predicate Holds(h: SeqHistory, accepted: seq<uint16>) {
    && |h.buffer| == HISTORY_SIZE && |h.valid| == HISTORY_SIZE
    && h.head == |accepted| % HISTORY_SIZE
    && (forall i | 0 <= i < HISTORY_SIZE && h.valid[i] :: i < |accepted|)
    && (forall i | 0 <= i < |accepted| && |accepted| - HISTORY_SIZE <= i ::
          h.valid[i % HISTORY_SIZE] && h.buffer[i % HISTORY_SIZE] == accepted[i])
  }

  // Slot i holds the newest accepted number whose index is congruent to i.
  function NewestAt(n: nat, i: nat): int {
    if i < n % HISTORY_SIZE then n - n % HISTORY_SIZE + i else n - n % HISTORY_SIZE + i - HISTORY_SIZE
  }

  lemma NewestIs(n: nat, i: nat)
    requires i < HISTORY_SIZE
    ensures n - HISTORY_SIZE <= NewestAt(n, i) < n && NewestAt(n, i) % HISTORY_SIZE == i
    ensures i < n ==> NewestAt(n, i) >= 0
  {
  }

  lemma SlotIsRecent(h: SeqHistory, accepted: seq<uint16>, i: nat)
    requires Holds(h, accepted) && i < HISTORY_SIZE && h.valid[i]
    ensures h.buffer[i] in Recent(accepted)
  {
    var n, newest := |accepted|, NewestAt(|accepted|, i);
    NewestIs(n, i);
    assert h.buffer[i] == accepted[newest];
    var k := if n <= HISTORY_SIZE then newest else newest - (n - HISTORY_SIZE);
    assert Recent(accepted)[k] == accepted[newest];
  }

  lemma RecentHasSlot(h: SeqHistory, accepted: seq<uint16>, seqNum: uint16)
    requires Holds(h, accepted) && seqNum in Recent(accepted)
    ensures exists i :: 0 <= i < HISTORY_SIZE && h.valid[i] && h.buffer[i] == seqNum
  {
    var n := |accepted|;
    var k :| 0 <= k < |Recent(accepted)| && Recent(accepted)[k] == seqNum;
    var i := if n <= HISTORY_SIZE then k else n - HISTORY_SIZE + k;
    assert h.valid[i % HISTORY_SIZE] && h.buffer[i % HISTORY_SIZE] == accepted[i];
  }

  function Record(h: SeqHistory, seqNum: uint16): SeqHistory
    requires |h.buffer| == |h.valid| == HISTORY_SIZE && h.head < HISTORY_SIZE
  {
    SeqHistory(h.buffer[h.head := seqNum], h.valid[h.head := true], (h.head + 1) % HISTORY_SIZE)
  }

  lemma RecordHolds(h: SeqHistory, accepted: seq<uint16>, seqNum: uint16)
    requires Holds(h, accepted)
    ensures Holds(Record(h, seqNum), accepted + [seqNum])
  {
    var h', accepted' := Record(h, seqNum), accepted + [seqNum];
    forall i | 0 <= i < |accepted'| && |accepted'| - HISTORY_SIZE <= i
      ensures h'.valid[i % HISTORY_SIZE] && h'.buffer[i % HISTORY_SIZE] == accepted'[i]
    {
      if i < |accepted| {
        assert i % HISTORY_SIZE != |accepted| % HISTORY_SIZE;
        assert h.valid[i % HISTORY_SIZE] && h.buffer[i % HISTORY_SIZE] == accepted[i];
      }
    }
  }

  /** is_duplicate: true exactly when the number is among the last HISTORY_SIZE accepted;
      otherwise it becomes the newest of them. */
  method IsDuplicate(h: SeqHistory, seqNum: uint16, ghost accepted: seq<uint16>)
    returns (duplicate: bool, h': SeqHistory)
    requires Holds(h, accepted)
    ensures duplicate == (seqNum in Recent(accepted))
    ensures Holds(h', if duplicate then accepted else accepted + [seqNum])
  {
    for i := 0 to HISTORY_SIZE
      invariant forall j | 0 <= j < i && h.valid[j] :: h.buffer[j] != seqNum
    {
      if h.valid[i] && h.buffer[i] == seqNum {
        SlotIsRecent(h, accepted, i);
        return true, h;
      }
    }
    if seqNum in Recent(accepted) {
      RecentHasSlot(h, accepted, seqNum);
    }
    RecordHolds(h, accepted, seqNum);
    h' := Record(h, seqNum);
    duplicate := false;
  }

  // ---------------------------------------------------------------- the participant

  type TypeId = nat

  datatype ChannelError = NO_DISPATCHER | TYPE_MISMATCH

  datatype Receiver = Receiver(
    channels: map<uint16, TypeId>,          // registered remote ids and their argument types
    accepted: map<uint16, seq<uint16>>,     // accepted sequence numbers, for ids that have a ring
    invoked: seq<Packet>,                   // packets given to a handler, in order
    errors: seq<(uint16, ChannelError)>)

  const NO_CHANNELS := Receiver(map[], map[], [], [])

  function AcceptedBy(r: Receiver, id: uint16): seq<uint16> {
    if id in r.accepted then r.accepted[id] else []
  }

  datatype Event = Register(id: uint16, typeId: TypeId) | Arrive(packet: Packet)

  function Receive(r: Receiver, event: Event): Receiver {
    match event
    case Register(id, typeId) =>
      if id !in r.channels then r.(channels := r.channels[id := typeId])
      else if r.channels[id] != typeId then r.(errors := r.errors + [(id, TYPE_MISMATCH)])
      else r
    case Arrive(p) =>
      var id := p.header.id;
      if p.header.marker != MARKER then r
      else if id !in r.channels then r.(errors := r.errors + [(id, NO_DISPATCHER)])
      else if id == ACK_REMOTE_ID then r.(invoked := r.invoked + [p])
      else if p.header.seqNum in Recent(AcceptedBy(r, id)) then r
      else r.(accepted := r.accepted[id := AcceptedBy(r, id) + [p.header.seqNum]], invoked := r.invoked + [p])
  }

  function ReceiveAll(r: Receiver, events: seq<Event>): Receiver
    decreases |events|
  {
    if events == [] then r else ReceiveAll(Receive(r, events[0]), events[1..])
  }

  /** A registered id keeps its channel and its argument type for good. */
  lemma {:induction false} ChannelTypeFixed(r: Receiver, events: seq<Event>, id: uint16)
    requires id in r.channels
    ensures var r' := ReceiveAll(r, events); id in r'.channels && r'.channels[id] == r.channels[id]
    decreases |events|
  {
    if events != [] {
      ChannelTypeFixed(Receive(r, events[0]), events[1..], id);
    }
  }

  class Participant {
    var channels: map<uint16, TypeId>
    var history: map<uint16, SeqHistory>
    var invoked: seq<Packet>
    var errors: seq<(uint16, ChannelError)>
    // The sequence numbers accepted so far, for each id that has a ring.
    ghost var accepted: map<uint16, seq<uint16>>

    ghost predicate Valid()
      reads this
    {
      && history.Keys == accepted.Keys
      && forall id | id in history :: id in channels && id != ACK_REMOTE_ID && Holds(history[id], accepted[id])
    }

    ghost function View(): Receiver
      reads this
    {
      Receiver(channels, accepted, invoked, errors)
    }

    constructor ()
      ensures Valid() && View() == NO_CHANNELS
    {
      channels, history, invoked, errors, accepted := map[], map[], [], [], map[];
    }

    /** GetOrCreateChannelLocked: the channel's type is fixed by its first use. After a
        mismatch the caller reports the error and enters the fault handler. */
    method GetOrCreateChannel(id: uint16, typeId: TypeId) returns (typeMismatch: bool)
      requires Valid()
      modifies this
      ensures Valid() && View() == Receive(old(View()), Register(id, typeId))
      ensures typeMismatch <==> id in old(channels) && old(channels)[id] != typeId
    {
      typeMismatch := false;
      if id in channels {
        if channels[id] != typeId {
          typeMismatch := true;
        }
      } else {
        channels := channels[id := typeId];
      }
      if typeMismatch {
        errors := errors + [(id, TYPE_MISMATCH)];
      }
    }

    /** ProcessIncoming: `received` is what the transport's Receive returns, and `p` the
        packet it delivers if that is zero. */
    method ProcessIncoming(received: int, p: Packet) returns (result: int)
      requires Valid()
      modifies this
      ensures Valid() && View() == if received == 0 then Receive(old(View()), Arrive(p)) else old(View())
      ensures result == if received == 0 && p.header.marker != MARKER then -1 else received
    {
      if received != 0 {
        return received;
      }
      if p.header.marker != MARKER {
        return -1;
      }
      var id := p.header.id;
      if id in channels {
        if id != ACK_REMOTE_ID {
          var ring := if id in history then history[id] else EMPTY_HISTORY;
          ghost var before := if id in accepted then accepted[id] else [];
          var duplicate, ring' := IsDuplicate(ring, p.header.seqNum, before);
          history := history[id := ring'];
          if duplicate {
            return 0;
          }
          accepted := accepted[id := before + [p.header.seqNum]];
        }
        invoked := invoked + [p];
      } else {
        errors := errors + [(id, NO_DISPATCHER)];
      }
      return 0;
    }
  }
}
