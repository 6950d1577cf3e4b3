/** The early-status reconciliation of RemoteInvokeWaitInternal: the wait for one remote
    call's status, when that status may arrive before the call's sequence number is known. */
module NetworkWait {
  import opened TransportMonitors

  // The fields that the status callback and the send lambda share under the lock.
  datatype Shared = Shared(complete: bool, success: bool, seqSet: bool, expectedSeq: nat, early: map<nat, Status>)

  const FRESH := Shared(false, false, false, 0, map[])

  // The status callback: what it leaves, and whether it notifies.
  function StatusRegion(w: Shared, mine: bool, seqNum: nat, status: Status): (Shared, bool) {
    if !mine then (w, false)
    else if !w.seqSet then (w.(early := w.early[seqNum := status]), false)
    else if !w.complete && seqNum == w.expectedSeq then (w.(complete := true, success := status == SUCCESS), true)
    else (w, false)
  }

  // The send lambda, once the message has its number.
  function RecordRegion(w: Shared, seqNum: nat): (Shared, bool) {
    var known := w.(expectedSeq := seqNum, seqSet := true, early := map[]);
    if seqNum in w.early then (known.(complete := true, success := w.early[seqNum] == SUCCESS), true) else (known, false)
  }

  class InvokeWaitState {
    const remoteId: nat
    var complete: bool
    var success: bool
    var seqSet: bool
    var expectedSeq: nat
    var early: map<nat, Status>

    ghost function View(): Shared
      reads this
    {
      Shared(complete, success, seqSet, expectedSeq, early)
    }

    constructor (remoteId: nat)
      ensures this.remoteId == remoteId && View() == FRESH
    {
      this.remoteId := remoteId;
      complete, success, seqSet, expectedSeq, early := false, false, false, 0, map[];
    }

    method OnStatus(id: nat, seqNum: nat, status: Status) returns (notify: bool)
      modifies this
      ensures (View(), notify) == StatusRegion(old(View()), id == remoteId, seqNum, status)
    {
      notify := false;
      if id != remoteId {
        return;
      }
      if !seqSet {
        early := early[seqNum := status];
      } else if !complete && seqNum == expectedSeq {
        complete := true;
        success := status == SUCCESS;
        notify := true;
      }
    }

    method RecordSeq(seqNum: nat) returns (notify: bool)
      modifies this
      ensures (View(), notify) == RecordRegion(old(View()), seqNum)
    {
      notify := false;
      expectedSeq := seqNum;
      seqSet := true;
      if expectedSeq in early {
        complete := true;
        success := early[expectedSeq] == SUCCESS;
        notify := true;
      }
      early := map[];
    }
  }

  // ---------------------------------------------------------------- every interleaving

  // The send lambda runs once, in the step Record; statuses of any message come at any time.
  datatype Event = Handled(id: nat, seqNum: nat, status: Status) | Record(seqNum: nat)

  function Next(w: Shared, remoteId: nat, e: Event): (Shared, bool) {
    match e
    case Handled(id, seqNum, status) => StatusRegion(w, id == remoteId, seqNum, status)
    case Record(seqNum) => RecordRegion(w, seqNum)
  }

  function Exec(w: Shared, remoteId: nat, events: seq<Event>): Shared {
    if events == [] then w
    else Next(Exec(w, remoteId, events[..|events| - 1]), remoteId, events[|events| - 1]).0
  }

  function Notified(w: Shared, remoteId: nat, events: seq<Event>): nat {
    if events == [] then 0
    else Notified(w, remoteId, events[..|events| - 1])
         + if Next(Exec(w, remoteId, events[..|events| - 1]), remoteId, events[|events| - 1]).1 then 1 else 0
  }

  // The statuses handled for one message, in order.
  function StatusesOf(events: seq<Event>, id: nat, seqNum: nat): seq<Status> {
    if events == [] then []
    else
      var last := events[|events| - 1];
      StatusesOf(events[..|events| - 1], id, seqNum)
      + if last.Handled? && last.id == id && last.seqNum == seqNum then [last.status] else []
  }

  ghost predicate NoRecord(events: seq<Event>) {
    forall i | 0 <= i < |events| :: events[i].Handled?
  }

  // The last status that came early, and otherwise the first that came later.
  function Verdict(before: seq<Status>, after: seq<Status>): Status
    requires before + after != []
  {
    if before != [] then before[|before| - 1] else after[0]
  }

  lemma {:induction false} BeforeRecord(remoteId: nat, before: seq<Event>)
    requires NoRecord(before)
    ensures var w := Exec(FRESH, remoteId, before);
            && !w.complete && !w.success && !w.seqSet && Notified(FRESH, remoteId, before) == 0
            && forall n: nat ::
                 && (n in w.early <==> StatusesOf(before, remoteId, n) != [])
                 && (n in w.early ==> w.early[n] == Verdict(StatusesOf(before, remoteId, n), []))
  {
    if before != [] {
      BeforeRecord(remoteId, before[..|before| - 1]);
    }
  }

  lemma {:induction false} AfterRecord(remoteId: nat, w: Shared, after: seq<Event>)
    requires NoRecord(after) && w.seqSet
    ensures var r, later := Exec(w, remoteId, after), StatusesOf(after, remoteId, w.expectedSeq);
            && r.seqSet && r.expectedSeq == w.expectedSeq
            && (r.complete <==> w.complete || later != [])
            && r.success == (if w.complete || later == [] then w.success else later[0] == SUCCESS)
            && Notified(w, remoteId, after) == if !w.complete && later != [] then 1 else 0
  {
    if after != [] {
      AfterRecord(remoteId, w, after[..|after| - 1]);
    }
  }

  lemma {:induction false} ExecConcat(w: Shared, remoteId: nat, a: seq<Event>, b: seq<Event>)
    ensures Exec(w, remoteId, a + b) == Exec(Exec(w, remoteId, a), remoteId, b)
    ensures Notified(w, remoteId, a + b) == Notified(w, remoteId, a) + Notified(Exec(w, remoteId, a), remoteId, b)
  {
    if b == [] {
      assert a + b == a;
    } else {
      assert (a + b)[..|a + b| - 1] == a + b[..|b| - 1];
      ExecConcat(w, remoteId, a, b[..|b| - 1]);
    }
  }

  /** In every interleaving the wait is complete exactly when the number is recorded and
      some status for it has been handled; its verdict is the last status that came early,
      and otherwise the first that came later; and the waiting caller is notified exactly
      once, so that no early status is lost. */
  lemma WaitCompletes(remoteId: nat, before: seq<Event>, seqNum: nat, after: seq<Event>)
    requires NoRecord(before) && NoRecord(after)
    ensures var events := before + [Record(seqNum)] + after;
            var w := Exec(FRESH, remoteId, events);
            var early, later := StatusesOf(before, remoteId, seqNum), StatusesOf(after, remoteId, seqNum);
            && !Exec(FRESH, remoteId, before).complete
            && (w.complete <==> early + later != [])
            && (w.success <==> early + later != [] && Verdict(early, later) == SUCCESS)
            && Notified(FRESH, remoteId, events) == if w.complete then 1 else 0
  {
    BeforeRecord(remoteId, before);
    ExecConcat(FRESH, remoteId, before, [Record(seqNum)]);
    ExecConcat(FRESH, remoteId, before + [Record(seqNum)], after);
    assert [Record(seqNum)][..0] == [];
    AfterRecord(remoteId, Exec(FRESH, remoteId, before + [Record(seqNum)]), after);
  }

  lemma VerdictOfOne(early: seq<Status>, later: seq<Status>, status: Status)
    requires early + later == [status]
    ensures Verdict(early, later) == status
  {
    assert (early + later)[0] == status;
    if early != [] {
      assert (early + later)[0] == early[0] && |early| == 1;
    }
  }

  /** With one status for the number, the outcome is that status, and does not depend on
      whether it came before the number was recorded or after, nor on anything else. */
  lemma OrderDoesNotMatter(remoteId: nat, seqNum: nat, before: seq<Event>, after: seq<Event>, status: Status)
    requires NoRecord(before) && NoRecord(after)
    requires StatusesOf(before, remoteId, seqNum) + StatusesOf(after, remoteId, seqNum) == [status]
    ensures var w := Exec(FRESH, remoteId, before + [Record(seqNum)] + after);
            w.complete && (w.success <==> status == SUCCESS)
  {
    WaitCompletes(remoteId, before, seqNum, after);
    VerdictOfOne(StatusesOf(before, remoteId, seqNum), StatusesOf(after, remoteId, seqNum), status);
  }

  /** What the caller may have read stays: once complete, neither field changes. */
  lemma CompleteIsFinal(remoteId: nat, w: Shared, after: seq<Event>)
    requires NoRecord(after) && w.seqSet && w.complete
    ensures var r := Exec(w, remoteId, after); r.complete && r.success == w.success
  {
    AfterRecord(remoteId, w, after);
  }

  /** With more statuses than one the order can matter: TIMEOUT and then SUCCESS is a
      success if both come early, and a failure if both come late. */
  lemma TwoStatusesDependOnOrder(remoteId: nat, seqNum: nat)
    ensures var both := [Handled(remoteId, seqNum, TIMEOUT), Handled(remoteId, seqNum, SUCCESS)];
            Exec(FRESH, remoteId, both + [Record(seqNum)] + []).success
            && !Exec(FRESH, remoteId, [] + [Record(seqNum)] + both).success
  {
    var first, second := Handled(remoteId, seqNum, TIMEOUT), Handled(remoteId, seqNum, SUCCESS);
    var both := [first, second];
    WaitCompletes(remoteId, both, seqNum, []);
    WaitCompletes(remoteId, [], seqNum, both);
    assert both[..1] == [first] && [first][..0] == [];
    assert StatusesOf(both, remoteId, seqNum) == [TIMEOUT, SUCCESS];
  }

  // ---------------------------------------------------------------- when the order does not matter

  ghost predicate AllEqual(statuses: seq<Status>) {
    forall i, j | 0 <= i < j < |statuses| :: statuses[i] == statuses[j]
  }

  // The wait in which the number is recorded after the first p of these events.
  function RecordedAt(remoteId: nat, seqNum: nat, events: seq<Event>, p: nat): Shared
    requires p <= |events|
  {
    Exec(FRESH, remoteId, events[..p] + [Record(seqNum)] + events[p..])
  }

  lemma {:induction false} StatusesConcat(a: seq<Event>, b: seq<Event>, id: nat, seqNum: nat)
    ensures StatusesOf(a + b, id, seqNum) == StatusesOf(a, id, seqNum) + StatusesOf(b, id, seqNum)
  {
    if b == [] {
      assert a + b == a;
    } else {
      assert (a + b)[..|a + b| - 1] == a + b[..|b| - 1];
      StatusesConcat(a, b[..|b| - 1], id, seqNum);
    }
  }

  // Some prefix of the events has exactly the first n statuses.
  lemma {:induction false} PrefixWith(events: seq<Event>, id: nat, seqNum: nat, n: nat) returns (p: nat)
    requires n <= |StatusesOf(events, id, seqNum)|
    ensures p <= |events| && StatusesOf(events[..p], id, seqNum) == StatusesOf(events, id, seqNum)[..n]
  {
    if n == |StatusesOf(events, id, seqNum)| {
      p := |events|;
      assert events[..p] == events;
    } else {
      var before := events[..|events| - 1];
      p := PrefixWith(before, id, seqNum, n);
      assert events[..p] == before[..p];
    }
  }

  lemma OutcomeAt(remoteId: nat, seqNum: nat, events: seq<Event>, p: nat)
    requires NoRecord(events) && p <= |events| && StatusesOf(events, remoteId, seqNum) != []
    ensures var early, later := StatusesOf(events[..p], remoteId, seqNum), StatusesOf(events[p..], remoteId, seqNum);
            && early + later == StatusesOf(events, remoteId, seqNum)
            && RecordedAt(remoteId, seqNum, events, p).complete
            && (RecordedAt(remoteId, seqNum, events, p).success <==> Verdict(early, later) == SUCCESS)
  {
    assert events == events[..p] + events[p..];
    StatusesConcat(events[..p], events[p..], remoteId, seqNum);
    WaitCompletes(remoteId, events[..p], seqNum, events[p..]);
  }

  // The verdict is that of the last early status, or of the very first.
  lemma VerdictIn(early: seq<Status>, later: seq<Status>)
    requires early + later != []
    ensures Verdict(early, later) == (early + later)[if early == [] then 0 else |early| - 1]
  {
  }

  lemma OutcomeWithEarly(remoteId: nat, seqNum: nat, events: seq<Event>, n: nat) returns (p: nat)
    requires NoRecord(events) && 0 < n <= |StatusesOf(events, remoteId, seqNum)|
    ensures p <= |events| && (RecordedAt(remoteId, seqNum, events, p).success
                              <==> StatusesOf(events, remoteId, seqNum)[n - 1] == SUCCESS)
  {
    p := PrefixWith(events, remoteId, seqNum, n);
    OutcomeAt(remoteId, seqNum, events, p);
    VerdictIn(StatusesOf(events[..p], remoteId, seqNum), StatusesOf(events[p..], remoteId, seqNum));
  }

  ghost predicate SameWherever(remoteId: nat, seqNum: nat, events: seq<Event>) {
    forall p, q | 0 <= p <= |events| && 0 <= q <= |events| ::
      RecordedAt(remoteId, seqNum, events, p).success == RecordedAt(remoteId, seqNum, events, q).success
  }

  /** The exact condition: when some status for the number is handled, the outcome is the
      same wherever among the statuses the number is recorded if and only if all the
      statuses handled for it are equal. */
  lemma SameWhereverIff(remoteId: nat, seqNum: nat, events: seq<Event>)
    requires NoRecord(events) && StatusesOf(events, remoteId, seqNum) != []
    ensures SameWherever(remoteId, seqNum, events) <==> AllEqual(StatusesOf(events, remoteId, seqNum))
  {
    var statuses := StatusesOf(events, remoteId, seqNum);
    if AllEqual(statuses) {
      forall p | 0 <= p <= |events|
        ensures RecordedAt(remoteId, seqNum, events, p).success <==> statuses[0] == SUCCESS
      {
        OutcomeAt(remoteId, seqNum, events, p);
        VerdictIn(StatusesOf(events[..p], remoteId, seqNum), StatusesOf(events[p..], remoteId, seqNum));
      }
    } else {
      var i, j :| 0 <= i < j < |statuses| && statuses[i] != statuses[j];
      var p := OutcomeWithEarly(remoteId, seqNum, events, i + 1);
      var q := OutcomeWithEarly(remoteId, seqNum, events, j + 1);
    }
  }
}
