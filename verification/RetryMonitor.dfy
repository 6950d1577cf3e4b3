/** RetryMonitor: stores every outgoing packet, resends it when the transport monitor
    reports a timeout, and forgets it on success, on failure or when its retries are
    used up. Each function below is one region executed under the store's lock. */
module RetryMonitors {
  import opened MessageKeys
  import opened TransportMonitors

  type Bytes = seq<bv8>

  datatype RetryEntry = RetryEntry(packetData: Bytes, header: Header, attemptsRemaining: int, isSent: bool)
  type Store = map<Key, RetryEntry>

  datatype Packet = Packet(header: Header, payload: Bytes)

  // What OnStatusChanged goes on to do once it has released the lock.
  datatype Decision =
    | Nothing
    | Retry(header: Header, payload: Bytes)
    | Reregister(header: Header)

  function HeaderKey(h: Header): Key {
    KeyOf(h.id, h.seqNum)
  }

  function StoreRegion(store: Store, header: Header, payload: Bytes, maxRetries: int): Store {
    store[HeaderKey(header) := RetryEntry(payload, header, maxRetries, false)]
  }

  function MarkSentRegion(store: Store, key: Key): Store {
    if key in store then store[key := store[key].(isSent := true)] else store
  }

  function StatusRegion(store: Store, key: Key, status: Status): (Store, Decision) {
    if key !in store then (store, Nothing)
    else if status == SUCCESS then (store - {key}, Nothing)
    else
      var e := store[key];
      if e.attemptsRemaining > 0 && e.isSent then
        (store[key := e.(attemptsRemaining := e.attemptsRemaining - 1)], Retry(e.header, e.packetData))
      else if e.attemptsRemaining > 0 then (store, Reregister(e.header))
      else (store - {key}, Nothing)
  }

  class RetryMonitor {
    const monitor: TransportMonitor
    const maxRetries: int
    var store: Store
    // Every packet handed to the transport's Send, in order.
    var transport: seq<Packet>

    ghost predicate Valid()
      reads this, monitor
    {
      monitor.Valid() && forall k | k in store :: HeaderKey(store[k].header) == k
    }

    constructor (monitor: TransportMonitor, maxRetries: int)
      requires monitor.Valid()
      ensures Valid() && this.monitor == monitor && this.maxRetries == maxRetries
      ensures store == map[] && transport == []
    {
      this.monitor, this.maxRetries := monitor, maxRetries;
      store, transport := map[], [];
    }

    method LockedStore(header: Header, payload: Bytes)
      requires Valid()
      modifies this`store
      ensures Valid() && store == StoreRegion(old(store), header, payload, maxRetries)
    {
      var entry := RetryEntry(payload, header, maxRetries, false);
      store := store[HeaderKey(header) := entry];
    }

    method LockedErase(key: Key)
      requires Valid()
      modifies this`store
      ensures Valid() && store == old(store) - {key}
    {
      store := store - {key};
    }

    method LockedMarkSent(key: Key)
      requires Valid()
      modifies this`store
      ensures Valid() && store == MarkSentRegion(old(store), key)
    {
      if key in store {
        store := store[key := store[key].(isSent := true)];
      }
    }

    method LockedStatus(key: Key, status: Status) returns (decision: Decision)
      requires Valid()
      modifies this`store
      ensures Valid() && (store, decision) == StatusRegion(old(store), key, status)
      ensures decision != Nothing ==> HeaderKey(decision.header) == key
    {
      decision := Nothing;
      if key !in store {
        return;
      }
      var e := store[key];
      if status == SUCCESS {
        store := store - {key};
      } else if e.attemptsRemaining > 0 && e.isSent {
        store := store[key := e.(attemptsRemaining := e.attemptsRemaining - 1)];
        decision := Retry(e.header, e.packetData);
      } else if e.attemptsRemaining > 0 && !e.isSent {
        decision := Reregister(e.header);
      } else if e.attemptsRemaining <= 0 {
        store := store - {key};
      }
    }

    /** SendWithRetry when nothing else runs in between; `sendResult` is what the
        transport's Send returns (0 is success). */
    method SendWithRetry(payload: Bytes, header: Header, now: int, sendResult: int) returns (result: int)
      requires Valid()
      modifies this, monitor`pending, monitor`capExceeded
      ensures Valid()
      ensures var key := HeaderKey(header);
              var added := Accepts(old(monitor.pending), key);
              && result == (if added then sendResult else -1)
              && transport == old(transport) + (if added then [Packet(header, payload)] else [])
              && store == (if result == 0 && added then old(store)[key := RetryEntry(payload, header, maxRetries, true)]
                           else old(store) - {key})
              && monitor.pending == (if added then old(monitor.pending)[key := TimeoutData(header.id, header.seqNum, now)]
                                     else old(monitor.pending))
    {
      var key := HeaderKey(header);
      LockedStore(header, payload);
      var added := monitor.Add(header.seqNum, header.id, now);
      if !added {
        LockedErase(key);
        return -1;
      }
      transport := transport + [Packet(header, payload)];
      result := sendResult;
      if result != 0 {
        LockedErase(key);
      } else {
        LockedMarkSent(key);
      }
    }

    /** OnStatusChanged when nothing else runs in between. The result of the transport's
        Send and of the re-registering Add are ignored, as in the source. */
    method OnStatusChanged(id: uint16, seqNum: uint16, status: Status, now: int)
      requires Valid()
      modifies this, monitor`pending, monitor`capExceeded
      ensures Valid()
      ensures var key := KeyOf(id, seqNum);
              var (after, decision) := StatusRegion(old(store), key, status);
              var added := Accepts(old(monitor.pending), key);
              && transport == old(transport)
                   + (if decision.Retry? && added then [Packet(decision.header, decision.payload)] else [])
              && store == (if decision.Retry? && !added then old(store) - {key} else after)
              && monitor.pending.Keys == old(monitor.pending).Keys
                   + (if decision != Nothing && added then {key} else {})
    {
      var key := KeyOf(id, seqNum);
      var decision := LockedStatus(key, status);
      if decision.Retry? {
        var added := monitor.Add(decision.header.seqNum, decision.header.id, now);
        if added {
          transport := transport + [Packet(decision.header, decision.payload)];
        } else {
          LockedErase(key);
        }
      }
      if decision.Reregister? {
        var _ := monitor.Add(decision.header.seqNum, decision.header.id, now);
      }
    }
  }

  /** A refused send leaves the store as it was exactly when its key was not stored:
      otherwise the older message under that key is lost, even though it was in flight. */
  lemma RefusedSend(store: Store, header: Header, payload: Bytes, maxRetries: int)
    ensures StoreRegion(store, header, payload, maxRetries) - {HeaderKey(header)} == store
            <==> HeaderKey(header) !in store
  {
    var key := HeaderKey(header);
    if key !in store {
      assert store[key := RetryEntry(payload, header, maxRetries, false)] - {key} == store;
    } else {
      assert key !in StoreRegion(store, header, payload, maxRetries) - {key};
    }
  }
}
