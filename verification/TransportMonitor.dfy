/** TransportMonitor: the map of unacknowledged messages, its cap and collision
    checks, and the batched drain of expired entries with status callbacks. */
module TransportMonitors {
  import opened Common
  import opened MessageKeys

  const MAX_PENDING: nat := 100
  const MAX_TIMER_EXPIRED: nat := 16

  datatype Status = SUCCESS | TIMEOUT
  datatype TimeoutData = TimeoutData(remoteId: uint16, seqNum: uint16, timeStamp: int)
  datatype SendStatus = SendStatus(remoteId: uint16, seqNum: uint16, status: Status)

  type Reactions = seq<seq<Request>>

  type PendingMap = map<Key, TimeoutData>

  // What a status subscriber asks of the monitor while it is being notified.
  datatype Request = Request(seqNum: uint16, remoteId: uint16)

  ghost predicate WellKeyed(pending: PendingMap) {
    forall k | k in pending :: k == KeyOf(pending[k].remoteId, pending[k].seqNum)
  }

  predicate Expired(d: TimeoutData, now: int, timeout: int) {
    now - d.timeStamp > timeout
  }

  ghost predicate NoneExpired(pending: PendingMap, now: int, timeout: int) {
    forall k | k in pending :: !Expired(pending[k], now, timeout)
  }

  function TimeoutOf(d: TimeoutData): SendStatus {
    SendStatus(d.remoteId, d.seqNum, TIMEOUT)
  }

  /** What one locked pass of Process may take: at most MAX_TIMER_EXPIRED distinct
      expired entries in ascending key order, and all of them when there are fewer. */
  ghost predicate IsBatch(pending: PendingMap, taken: seq<Key>, now: int, timeout: int) {
    && |taken| <= MAX_TIMER_EXPIRED
    && (forall k | k in taken :: k in pending && Expired(pending[k], now, timeout))
    && (forall i, j | 0 <= i < j < |taken| :: taken[i] < taken[j])
    && (|taken| < MAX_TIMER_EXPIRED ==> forall k | k in pending && Expired(pending[k], now, timeout) :: k in taken)
  }

  ghost predicate Without(pending: PendingMap, taken: seq<Key>, rest: PendingMap) {
    && (forall k :: k in rest <==> k in pending && k !in taken)
    && (forall k | k in rest :: rest[k] == pending[k])
  }

  /** The locked region of Add: whether the entry is accepted, and the map after it. */
  predicate Accepts(pending: PendingMap, key: Key) {
    |pending| < MAX_PENDING && key !in pending
  }

  /** The entry an ACK takes: the exact key, or, when the id is unknown (0), the
      entry of the smallest key that carries the sequence number. */
  ghost predicate Victim(pending: PendingMap, seqNum: uint16, remoteId: uint16, k: Key) {
    && k in pending
    && if remoteId != 0 then k == KeyOf(remoteId, seqNum)
       else pending[k].seqNum == seqNum && forall j | j in pending && pending[j].seqNum == seqNum :: k <= j
  }

  /** An ACK without an id is credited to the right message exactly when no other
      remote id with a smaller number has the same sequence number pending. */
  lemma AckWithoutId(pending: PendingMap, seqNum: uint16, remoteId: uint16)
    requires WellKeyed(pending) && remoteId != 0 && KeyOf(remoteId, seqNum) in pending
    ensures Victim(pending, seqNum, 0, KeyOf(remoteId, seqNum))
            <==> forall id: uint16 | id < remoteId :: KeyOf(id, seqNum) !in pending
  {
    var key := KeyOf(remoteId, seqNum);
    KeyInjective(remoteId, seqNum, pending[key].remoteId, pending[key].seqNum);
    if Victim(pending, seqNum, 0, key) {
      forall id: uint16 | id < remoteId ensures KeyOf(id, seqNum) !in pending {
        if KeyOf(id, seqNum) in pending {
          KeyInjective(id, seqNum, pending[KeyOf(id, seqNum)].remoteId, pending[KeyOf(id, seqNum)].seqNum);
        }
      }
    }
    if forall id: uint16 | id < remoteId :: KeyOf(id, seqNum) !in pending {
      forall j | j in pending && pending[j].seqNum == seqNum ensures key <= j {
        assert j == KeyOf(pending[j].remoteId, seqNum);
      }
    }
  }

  /** Otherwise it takes another remote's message: of two messages with one number, an
      ACK without an id always takes the one whose id is smaller. */
  lemma AckWithoutIdTakesOther(first: uint16, second: uint16, seqNum: uint16, now: int)
    requires 0 < first < second
    ensures var pending := map[KeyOf(first, seqNum) := TimeoutData(first, seqNum, now),
                               KeyOf(second, seqNum) := TimeoutData(second, seqNum, now)];
            WellKeyed(pending) && forall k: Key :: Victim(pending, seqNum, 0, k) <==> k == KeyOf(first, seqNum)
  {
    var pending := map[KeyOf(first, seqNum) := TimeoutData(first, seqNum, now),
                       KeyOf(second, seqNum) := TimeoutData(second, seqNum, now)];
    var least := KeyOf(first, seqNum);
    assert least in pending && pending[least].seqNum == seqNum && least < KeyOf(second, seqNum);
    forall k: Key ensures Victim(pending, seqNum, 0, k) <==> k == least {
      if Victim(pending, seqNum, 0, k) {
        assert k <= least;
      }
    }
  }

  lemma MapSmaller<K, V>(m: map<K, V>, k: K)
    requires k in m
    ensures |m - {k}| == |m| - 1
  {
    assert (m - {k}).Keys == m.Keys - {k};
  }

  // An iterator over the map visits the keys in ascending order.
  ghost predicate IsNext(pending: PendingMap, cursor: int, k: Key) {
    k in pending && cursor < k && forall j | j in pending && cursor < j :: k <= j
  }

  lemma {:induction false} NextExists(pending: PendingMap, cursor: int, k: Key)
    requires k in pending && cursor < k
    ensures exists n :: IsNext(pending, cursor, n)
    decreases k - cursor
  {
    if j :| j in pending && cursor < j < k {
      NextExists(pending, cursor, j);
    } else {
      assert IsNext(pending, cursor, k);
    }
  }

  function KeysAfter(pending: PendingMap, cursor: int): set<Key> {
    set k | k in pending && cursor < k
  }

  /** The linear scan for a sequence number whose remote id is unknown. */
  method FindSeqNum(pending: PendingMap, seqNum: uint16) returns (found: Option<Key>)
    ensures found.Some? ==> Victim(pending, seqNum, 0, found.value)
    ensures found.None? ==> forall k | k in pending :: pending[k].seqNum != seqNum
  {
    var cursor: int := -1;
    while exists k :: k in pending && cursor < k
      invariant forall k | k in pending && k <= cursor :: pending[k].seqNum != seqNum
      decreases KeysAfter(pending, cursor)
    {
      var some :| some in pending && cursor < some;
      NextExists(pending, cursor, some);
      var k :| k in pending && cursor < k && forall j | j in pending && cursor < j :: k <= j;
      assert k in KeysAfter(pending, cursor) && k !in KeysAfter(pending, k);
      if pending[k].seqNum == seqNum {
        return Some(k);
      }
      cursor := k;
    }
    return None;
  }

  /** Process's locked pass over the map: up to MAX_TIMER_EXPIRED expired entries
      move out in key order; `remaining` is set when the buffer filled up early. */
  method ExtractExpired(pending: PendingMap, now: int, timeout: int)
    returns (rest: PendingMap, remaining: nat, taken: seq<Key>)
    ensures IsBatch(pending, taken, now, timeout)
    ensures Without(pending, taken, rest)
    ensures remaining == if NoneExpired(rest, now, timeout) then 0 else |rest|
  {
    rest, remaining, taken := pending, 0, [];
    var cursor: int := -1;
    while exists k :: k in pending && cursor < k
      invariant Scanned(pending, taken, cursor, now, timeout) && Without(pending, taken, rest)
      decreases KeysAfter(pending, cursor)
    {
      var some :| some in pending && cursor < some;
      NextExists(pending, cursor, some);
      var k :| k in pending && cursor < k && forall j | j in pending && cursor < j :: k <= j;
      ScanStep(pending, taken, cursor, k, now, timeout);
      if Expired(pending[k], now, timeout) {
        if |taken| >= MAX_TIMER_EXPIRED {
          remaining := |rest|;
          assert k in rest;
          return;
        }
        rest := rest - {k};
        taken := taken + [k];
      }
      cursor := k;
    }
  }

  // A pass that has looked at every key up to the cursor.
  ghost predicate Scanned(pending: PendingMap, taken: seq<Key>, cursor: int, now: int, timeout: int) {
    && |taken| <= MAX_TIMER_EXPIRED
    && (forall k | k in pending && k <= cursor && Expired(pending[k], now, timeout) :: k in taken)
    && (forall k | k in taken :: k <= cursor && k in pending && Expired(pending[k], now, timeout))
    && (forall i, j | 0 <= i < j < |taken| :: taken[i] < taken[j])
  }

  lemma ScanStep(pending: PendingMap, taken: seq<Key>, cursor: int, k: Key, now: int, timeout: int)
    requires Scanned(pending, taken, cursor, now, timeout) && IsNext(pending, cursor, k)
    ensures !Expired(pending[k], now, timeout) ==> Scanned(pending, taken, k, now, timeout)
    ensures Expired(pending[k], now, timeout) && |taken| < MAX_TIMER_EXPIRED ==>
              Scanned(pending, taken + [k], k, now, timeout)
    ensures KeysAfter(pending, k) < KeysAfter(pending, cursor)
    ensures k !in taken
  {
    assert k in KeysAfter(pending, cursor) && k !in KeysAfter(pending, k);
    forall i | 0 <= i < |taken| ensures taken[i] < k {
      assert taken[i] in taken;
    }
  }

  function ExpiredKeys(pending: PendingMap, now: int, timeout: int): set<Key> {
    set k | k in pending && Expired(pending[k], now, timeout)
  }

  function Entries(keys: seq<Key>, pending: PendingMap): seq<TimeoutData>
    requires forall i | 0 <= i < |keys| :: keys[i] in pending
  {
    seq(|keys|, i requires 0 <= i < |keys| => pending[keys[i]])
  }

  function TimeoutsOf(items: seq<TimeoutData>): seq<SendStatus> {
    seq(|items|, i requires 0 <= i < |items| => TimeoutOf(items[i]))
  }

  // `after` is `before` with entries added at time `now`.
  ghost predicate Extends(before: PendingMap, after: PendingMap, now: int) {
    && (forall k | k in before :: k in after && after[k] == before[k])
    && (forall k | k in after && k !in before :: after[k].timeStamp == now)
  }

  /** Between two notifications of one Process call that began with `start`: the keys
      of `fired` have been taken out, each once, and nothing else has been lost. */
  ghost predicate Drained(start: PendingMap, fired: seq<Key>, pending: PendingMap, now: int, timeout: int) {
    && Distinct(fired)
    && (forall i | 0 <= i < |fired| :: fired[i] in start && Expired(start[fired[i]], now, timeout))
    && (forall k | k in start && k !in fired :: k in pending && pending[k] == start[k])
    && (forall k | k in pending && (k !in start || k in fired) :: pending[k].timeStamp == now)
  }

  // Since they had seen `seen`, subscribers have been told of exactly the keys of `fired`.
  ghost predicate Told(start: PendingMap, fired: seq<Key>, seen: seq<SendStatus>, statuses: seq<SendStatus>) {
    && (forall i | 0 <= i < |fired| :: fired[i] in start)
    && statuses == seen + TimeoutsOf(Entries(fired, start))
  }

  // These are the entries that were added more than the timeout ago.
  ghost predicate OlderThan(start: PendingMap, fired: seq<Key>, now: int, timeout: int) {
    forall k :: k in fired <==> k in start && now - start[k].timeStamp > timeout
  }

  // One TIMEOUT for each of these keys, with the two halves of the key.
  ghost predicate TimeoutsFor(fired: seq<Key>, told: seq<SendStatus>) {
    |told| == |fired| && forall i | 0 <= i < |fired| ::
      told[i].status == TIMEOUT && KeyOf(told[i].remoteId, told[i].seqNum) == fired[i]
  }

  lemma ToldAre(start: PendingMap, fired: seq<Key>, seen: seq<SendStatus>, statuses: seq<SendStatus>)
    requires WellKeyed(start) && Told(start, fired, seen, statuses)
    ensures |seen| <= |statuses| && statuses[..|seen|] == seen && TimeoutsFor(fired, statuses[|seen|..])
  {
    assert statuses[|seen|..] == TimeoutsOf(Entries(fired, start));
  }

  // After the last pass nothing is left out.
  lemma AllOlder(start: PendingMap, fired: seq<Key>, pending: PendingMap, now: int, timeout: int)
    requires Drained(start, fired, pending, now, timeout) && NoneExpired(pending, now, timeout)
    ensures OlderThan(start, fired, now, timeout)
  {
    forall k ensures k in fired <==> k in start && now - start[k].timeStamp > timeout {
      if k in fired {
        var i :| 0 <= i < |fired| && fired[i] == k;
        assert k in start && Expired(start[k], now, timeout);
      } else if k in start {
        assert k in pending && !Expired(pending[k], now, timeout);
      }
    }
  }

  lemma TakenFromStart(start: PendingMap, fired: seq<Key>, before: PendingMap, taken: seq<Key>, now: int, timeout: int)
    requires 0 <= timeout
    requires Drained(start, fired, before, now, timeout) && IsBatch(before, taken, now, timeout)
    ensures forall i | 0 <= i < |taken| ::
              taken[i] in before && taken[i] in start && taken[i] !in fired && before[taken[i]] == start[taken[i]]
  {
    forall i | 0 <= i < |taken| ensures taken[i] in start && taken[i] !in fired && before[taken[i]] == start[taken[i]] {
      assert taken[i] in taken && Expired(before[taken[i]], now, timeout);
    }
  }

  lemma DrainStep(start: PendingMap, fired: seq<Key>, before: PendingMap, taken: seq<Key>,
                  rest: PendingMap, pending: PendingMap, now: int, timeout: int)
    requires 0 <= timeout
    requires Drained(start, fired, before, now, timeout)
    requires IsBatch(before, taken, now, timeout) && Without(before, taken, rest) && Extends(rest, pending, now)
    ensures Drained(start, fired + taken, pending, now, timeout)
    ensures forall i | 0 <= i < |taken| :: taken[i] in start && before[taken[i]] == start[taken[i]]
    ensures |taken| < MAX_TIMER_EXPIRED ==> NoneExpired(pending, now, timeout)
  {
    TakenFromStart(start, fired, before, taken, now, timeout);
  }

  lemma EntriesConcat(fired: seq<Key>, taken: seq<Key>, start: PendingMap, before: PendingMap)
    requires forall i | 0 <= i < |fired| :: fired[i] in start
    requires forall i | 0 <= i < |taken| :: taken[i] in before && taken[i] in start && before[taken[i]] == start[taken[i]]
    ensures Entries(fired + taken, start) == Entries(fired, start) + Entries(taken, before)
  {
  }

  lemma TimeoutsOfConcat(a: seq<TimeoutData>, b: seq<TimeoutData>)
    ensures TimeoutsOf(a + b) == TimeoutsOf(a) + TimeoutsOf(b)
  {
  }

  // After a pass subscribers have also been told of what it took.
  lemma ToldMore(start: PendingMap, fired: seq<Key>, seen: seq<SendStatus>, before: PendingMap, taken: seq<Key>,
      was: seq<SendStatus>, statuses: seq<SendStatus>)
    requires Told(start, fired, seen, was)
    requires forall i | 0 <= i < |taken| :: taken[i] in before && taken[i] in start && before[taken[i]] == start[taken[i]]
    requires statuses == was + TimeoutsOf(Entries(taken, before))
    ensures Told(start, fired + taken, seen, statuses)
  {
    EntriesConcat(fired, taken, start, before);
    TimeoutsOfConcat(Entries(fired, start), Entries(taken, before));
  }

  // A repeated pass leaves MAX_TIMER_EXPIRED fewer expired entries, so the drain ends.
  lemma FewerExpired(before: PendingMap, taken: seq<Key>, rest: PendingMap, pending: PendingMap, now: int, timeout: int)
    requires 0 <= timeout && |taken| == MAX_TIMER_EXPIRED
    requires IsBatch(before, taken, now, timeout) && Without(before, taken, rest) && Extends(rest, pending, now)
    ensures |ExpiredKeys(pending, now, timeout)| == |ExpiredKeys(before, now, timeout)| - MAX_TIMER_EXPIRED
  {
    var gone := set k | k in taken;
    DistinctSize(taken);
    assert taken[0] in gone;
    assert ExpiredKeys(pending, now, timeout) == ExpiredKeys(before, now, timeout) - gone;
    assert gone <= ExpiredKeys(before, now, timeout);
  }

  lemma RestFits(pending: PendingMap, taken: seq<Key>, rest: PendingMap)
    requires Without(pending, taken, rest)
    ensures |rest| <= |pending|
  {
    var gone := set k | k in taken;
    assert rest.Keys == pending.Keys - gone;
  }

  lemma {:induction false} DistinctSize<T>(s: seq<T>)
    requires Distinct(s)
    ensures |set x | x in s| == |s|
  {
    if s != [] {
      var init, last := s[..|s| - 1], s[|s| - 1];
      DistinctSize(init);
      assert (set x | x in s) == (set x | x in init) + {last};
    }
  }

  class TransportMonitor {
    const timeout: int
    var pending: PendingMap
    // The filled part of the fixed buffer of expired entries.
    var expired: seq<TimeoutData>
    // What the subscribers of OnSendStatus, OnCapExceeded and OnPendingExceeded have seen.
    var statuses: seq<SendStatus>
    var capExceeded: seq<nat>
    var pendingExceeded: seq<nat>

    ghost predicate Valid()
      reads this
    {
      |expired| <= MAX_TIMER_EXPIRED && WellKeyed(pending) && |pending| <= MAX_PENDING
    }

    constructor (timeout: int)
      ensures Valid()
      ensures this.timeout == timeout && pending == map[] && statuses == [] && capExceeded == [] && pendingExceeded == []
    {
      this.timeout := timeout;
      pending, expired, statuses, capExceeded, pendingExceeded := map[], [], [], [], [];
    }

    method Add(seqNum: uint16, remoteId: uint16, now: int) returns (added: bool)
      requires Valid()
      modifies this`pending, this`capExceeded
      ensures Valid()
      ensures added == old(Accepts(pending, KeyOf(remoteId, seqNum)))
      ensures pending == if added then old(pending)[KeyOf(remoteId, seqNum) := TimeoutData(remoteId, seqNum, now)]
                         else old(pending)
      ensures capExceeded == if |old(pending)| >= MAX_PENDING then old(capExceeded) + [|old(pending)|]
                             else old(capExceeded)
    {
      var capSize := 0;
      var key := KeyOf(remoteId, seqNum);
      if |pending| >= MAX_PENDING {
        capSize := |pending|;
      } else if key in pending {
        return false;
      } else {
        pending := pending[key := TimeoutData(remoteId, seqNum, now)];
      }
      if capSize > 0 {
        capExceeded := capExceeded + [capSize];
        return false;
      }
      return true;
    }

    /** An id of 0 means the id is unknown: the entry of the smallest key with this
        sequence number is taken. */
    method Remove(seqNum: uint16, remoteId: uint16)
      requires Valid()
      modifies this`pending, this`statuses
      ensures Valid()
      ensures (forall k :: !Victim(old(pending), seqNum, remoteId, k)) ==>
                pending == old(pending) && statuses == old(statuses)
      ensures forall k :: Victim(old(pending), seqNum, remoteId, k) ==>
                && pending == old(pending) - {k}
                && statuses == old(statuses) + [SendStatus(old(pending)[k].remoteId, seqNum, SUCCESS)]
    {
      var found := None;
      if remoteId != 0 {
        var key := KeyOf(remoteId, seqNum);
        if key in pending {
          found := Some(key);
        }
      } else {
        found := FindSeqNum(pending, seqNum);
      }
      assert found.Some? ==> Victim(pending, seqNum, remoteId, found.value);
      if found.Some? {
        var d := pending[found.value];
        MapSmaller(pending, found.value);
        pending := pending - {found.value};
        statuses := statuses + [SendStatus(d.remoteId, seqNum, SUCCESS)];
      }
    }

    /** A subscriber that adds entries while it is being notified. */
    method React(requests: seq<Request>, now: int)
      requires Valid()
      modifies this`pending, this`capExceeded
      ensures Valid()
      ensures Extends(old(pending), pending, now)
    {
      for i := 0 to |requests|
        invariant Valid() && Extends(old(pending), pending, now)
      {
        var _ := Add(requests[i].seqNum, requests[i].remoteId, now);
      }
    }

    /** The notifications of one pass, fired without the lock: every subscriber sees the
        buffered entries in order, and may add entries in between. */
    method Notify(emitted: nat, reactions: Reactions, now: int)
      requires Valid()
      modifies this`pending, this`capExceeded, this`statuses
      ensures Valid()
      ensures Extends(old(pending), pending, now)
      ensures statuses == old(statuses) + TimeoutsOf(expired)
    {
      for i := 0 to |expired|
        invariant Valid() && Extends(old(pending), pending, now)
        invariant statuses == old(statuses) + TimeoutsOf(expired[..i])
      {
        statuses := statuses + [TimeoutOf(expired[i])];
        assert TimeoutsOf(expired[..i + 1]) == TimeoutsOf(expired[..i]) + [TimeoutOf(expired[i])];
        if emitted + i < |reactions| {
          React(reactions[emitted + i], now);
        }
      }
      assert expired[..|expired|] == expired;
    }

    /** One pass of Process; `again` tells that the buffer filled up. */
    method Pass(emitted: nat, reactions: Reactions, now: int)
      returns (again: bool, rest: PendingMap, taken: seq<Key>)
      requires Valid()
      modifies this
      ensures Valid()
      ensures IsBatch(old(pending), taken, now, timeout) && Without(old(pending), taken, rest)
      ensures Extends(rest, pending, now)
      ensures statuses == old(statuses) + TimeoutsOf(Entries(taken, old(pending)))
      ensures again == (|taken| == MAX_TIMER_EXPIRED)
      ensures pendingExceeded == old(pendingExceeded) + if NoneExpired(rest, now, timeout) then [] else [|rest|]
    {
      var remaining;
      rest, remaining, taken := ExtractExpired(pending, now, timeout);
      expired, pending := Entries(taken, pending), rest;
      RestFits(old(pending), taken, rest);
      Notify(emitted, reactions, now);
      if remaining > 0 {
        pendingExceeded := pendingExceeded + [remaining];
      }
      again := |taken| == MAX_TIMER_EXPIRED;
    }

    /** Process, with the clock read as `now` throughout. Subscribers react to the i-th
        notification of this call by adding the entries `reactions[i]`. */
    method Process(now: int, reactions: Reactions)
      requires Valid() && 0 <= timeout
      modifies this
      ensures Valid()
      ensures NoneExpired(pending, now, timeout)
      ensures exists fired: seq<Key> ::
                && Drained(old(pending), fired, pending, now, timeout) && Told(old(pending), fired, old(statuses), statuses)
                && OlderThan(old(pending), fired, now, timeout)
                && TimeoutsFor(fired, statuses[|old(statuses)|..])
    {
      var again := true;
      var emitted: nat := 0;
      ghost var fired: seq<Key> := [];
      while again && pending != map[]
        invariant Valid()
        invariant again || NoneExpired(pending, now, timeout)
        invariant Drained(old(pending), fired, pending, now, timeout) && Told(old(pending), fired, old(statuses), statuses)
        decreases |ExpiredKeys(pending, now, timeout)|, again
      {
        again, emitted, fired := DrainOnce(emitted, reactions, now, old(pending), fired, old(statuses));
      }
      AllOlder(old(pending), fired, pending, now, timeout);
      ToldAre(old(pending), fired, old(statuses), statuses);
    }

    // One pass of Process, in a call that began with `start` and has fired `fired`.
    method DrainOnce(emitted: nat, reactions: Reactions, now: int, ghost start: PendingMap, ghost fired: seq<Key>,
                     ghost seen: seq<SendStatus>)
      returns (again: bool, emitted': nat, ghost fired': seq<Key>)
      requires Valid() && 0 <= timeout
      requires Drained(start, fired, pending, now, timeout) && Told(start, fired, seen, statuses)
      modifies this
      ensures Valid()
      ensures Drained(start, fired', pending, now, timeout) && Told(start, fired', seen, statuses)
      ensures !again ==> NoneExpired(pending, now, timeout)
      ensures again ==> |ExpiredKeys(pending, now, timeout)| < |old(ExpiredKeys(pending, now, timeout))|
    {
      ghost var before := pending;
      var rest, taken;
      again, rest, taken := Pass(emitted, reactions, now);
      emitted' := emitted + |taken|;
      fired' := fired + taken;
      DrainStep(start, fired, before, taken, rest, pending, now, timeout);
      ToldMore(start, fired, seen, before, taken, old(statuses), statuses);
      if again {
        FewerExpired(before, taken, rest, pending, now, timeout);
      }
    }
  }
}
