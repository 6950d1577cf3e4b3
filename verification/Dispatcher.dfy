/** Dispatcher: one 16-bit sequence counter for all remote ids, and when its wrap-around
    leaves a key fresh. */
module Dispatchers {
  import opened MessageKeys
  import opened TransportMonitors
  import opened RetryMonitors
  import RetryRuns
  import opened RetryFresh
  import opened Common

  // The number carried by the n-th dispatch since the counter was zero.
  function SeqOf(n: nat): uint16 {
    n % 0x1_0000
  }

  class Dispatcher {
    const hasTransport: bool
    var seqNum: uint16
    // How many messages have been dispatched, and what the transport was given.
    ghost var dispatched: nat
    var sent: seq<Packet>

    ghost predicate Valid()
      reads this
    {
      seqNum == SeqOf(dispatched)
    }

    constructor (hasTransport: bool)
      ensures Valid() && dispatched == 0 && sent == [] && this.hasTransport == hasTransport
    {
      this.hasTransport := hasTransport;
      seqNum, dispatched, sent := 0, 0, [];
    }

    /** Dispatch: the counter is taken and advanced (mod 2^16) before the send, the send's
        result is passed on, and the stream comes back empty. */
    method Dispatch(stream: Bytes, id: uint16, sendResult: int) returns (result: int, outSeqNum: uint16, stream': Bytes)
      requires Valid()
      modifies this
      ensures Valid()
      ensures hasTransport ==>
                && result == sendResult && outSeqNum == SeqOf(old(dispatched)) && stream' == []
                && dispatched == old(dispatched) + 1
                && sent == old(sent) + [Packet(Header(MARKER, id, outSeqNum, 0), stream)]
      ensures !hasTransport ==> result == -1 && stream' == stream && dispatched == old(dispatched) && sent == old(sent)
    {
      outSeqNum := seqNum;
      if hasTransport {
        seqNum := (seqNum + 1) % 0x1_0000;
        dispatched := dispatched + 1;
        sent := sent + [Packet(Header(MARKER, id, outSeqNum, 0), stream)];
        return sendResult, outSeqNum, [];
      }
      return -1, outSeqNum, stream;
    }
  }

  /** Two dispatches share a key exactly when they have the same id and are a multiple of
      65536 dispatches apart. */
  lemma SameKeyIff(id: uint16, n: nat, id': uint16, n': nat)
    requires n <= n'
    ensures KeyOf(id, SeqOf(n)) == KeyOf(id', SeqOf(n')) <==> id == id' && (n' - n) % 0x1_0000 == 0
  {
    if KeyOf(id, SeqOf(n)) == KeyOf(id', SeqOf(n')) {
      KeyInjective(id, SeqOf(n), id', SeqOf(n'));
    }
  }

  lemma SmallMultiple(d: nat)
    requires 0 < d < 0x1_0000
    ensures d % 0x1_0000 != 0
  {
  }

  // Message m still has its key in the store, in the monitor or with an operation.
  ghost predicate MessageInFlight(s: RetryRuns.State, m: nat) {
    m < |s.origin| && InFlight(s, s.origin[m].key) && RetryRuns.OwnerOf(s, s.origin[m].key) == m
  }

  // at[m] tells which dispatch gave message m its number. Concurrent callers need not
  // come to the retry monitor in the order in which they took their numbers.
  ghost predicate Numbered(s: RetryRuns.State, at: seq<nat>) {
    && |s.origin| <= |at|
    && (forall m | 0 <= m < |s.origin| ::
          && s.origin[m].key == HeaderKey(s.origin[m].packet.header)
          && s.origin[m].packet.header.seqNum == SeqOf(at[m]))
    && (forall k | InFlight(s, k) :: k in s.owner)
  }

  predicate SameNumber(a: int, b: int) {
    (a - b) % 0x1_0000 == 0
  }

  /** A send has a fresh key if and only if no message in flight has its id and was
      dispatched a multiple of 65536 dispatches before or after it. */
  lemma FreshBeginIff(s: RetryRuns.State, at: seq<nat>, p: Packet, n: nat)
    requires RetryRuns.WellFormed(s) && Numbered(s, at) && p.header.seqNum == SeqOf(n)
    ensures FreshStep(s, RetryRuns.Begin(p)) <==>
              forall m | 0 <= m < |s.origin| && MessageInFlight(s, m) ::
                s.origin[m].packet.header.id != p.header.id || !SameNumber(at[m], n)
  {
    var k := HeaderKey(p.header);
    forall m | 0 <= m < |s.origin|
      ensures s.origin[m].key == k <==> s.origin[m].packet.header.id == p.header.id && SameNumber(at[m], n)
    {
      var id := s.origin[m].packet.header.id;
      if at[m] <= n {
        SameKeyIff(id, at[m], p.header.id, n);
        NegatedMultiple(n - at[m]);
      } else {
        SameKeyIff(p.header.id, n, id, at[m]);
      }
    }
    if InFlight(s, k) {
      assert MessageInFlight(s, s.owner[k]);
    }
  }

  lemma NegatedMultiple(d: int)
    ensures (-d) % 0x1_0000 == 0 <==> d % 0x1_0000 == 0
  {
  }

  // A send carries the number of its own dispatch, and no message in flight is 65536 or
  // more dispatches away from it.
  ghost predicate CountedStep(s: RetryRuns.State, step: RetryRuns.Step, at: seq<nat>) {
    && RetryRuns.Orderly(step)
    && (step.Begin? ==>
          && |s.origin| < |at|
          && step.packet.header.seqNum == SeqOf(at[|s.origin|])
          && forall m | 0 <= m < |s.origin| && MessageInFlight(s, m) ::
               at[m] < at[|s.origin|] + 0x1_0000 && at[|s.origin|] < at[m] + 0x1_0000)
  }

  ghost predicate CountedRun(s: RetryRuns.State, steps: seq<RetryRuns.Step>, at: seq<nat>)
    decreases |steps|
  {
    steps == [] || (CountedStep(s, steps[0], at) && CountedRun(RetryRuns.Next(s, steps[0]), steps[1..], at))
  }

  // A step of an operation brings no key into flight.
  lemma AdvanceInFlight(s: RetryRuns.State, op: RetryRuns.Op, ok: bool, k: Key)
    ensures var (s', op') := RetryRuns.Advance(s, op, ok);
            && (k in s'.store ==> k in s.store)
            && (k in s'.pending ==> k in s.pending || (!op.Done? && op.key == k))
            && (!op'.Done? ==> !op.Done? && op'.key == op.key)
  {
    if op.Raised? {
      StatusInFlight(s, op.key, op.status, k);
    }
  }

  lemma StatusInFlight(s: RetryRuns.State, l: Key, status: Status, k: Key)
    ensures var (s', op') := RetryRuns.AfterStatus(s, l, status);
            (k in s'.store ==> k in s.store) && s'.pending == s.pending && (!op'.Done? ==> op'.key == l)
  {
  }

  // A step brings no key into flight but the one it sends.
  lemma StillInFlight(s: RetryRuns.State, step: RetryRuns.Step, k: Key)
    requires InFlight(RetryRuns.Next(s, step), k) && RetryRuns.Orderly(step)
    ensures InFlight(s, k) || (step.Begin? && k == HeaderKey(step.packet.header))
  {
    var s' := RetryRuns.Next(s, step);
    if step.Run? && step.op < |s.ops| {
      AdvanceInFlight(s, s.ops[step.op], step.ok, k);
    }
    if i :| 0 <= i < |s'.ops| && !s'.ops[i].Done? && s'.ops[i].key == k {
      if i < |s.ops| {
        assert !s.ops[i].Done? && s.ops[i].key == k;
      }
    }
  }

  lemma NextNumbered(s: RetryRuns.State, step: RetryRuns.Step, at: seq<nat>)
    requires RetryRuns.WellFormed(s) && Numbered(s, at) && CountedStep(s, step, at)
    ensures Numbered(RetryRuns.Next(s, step), at)
  {
    var s' := RetryRuns.Next(s, step);
    forall k | InFlight(s', k) ensures k in s'.owner {
      StillInFlight(s, step, k);
      OwnersStay(s, step, k);
    }
    OriginsStay(s, step);
  }

  lemma OwnersStay(s: RetryRuns.State, step: RetryRuns.Step, k: Key)
    ensures var owner := RetryRuns.Next(s, step).owner;
            (k in s.owner ==> k in owner) && (step.Begin? ==> HeaderKey(step.packet.header) in owner)
  {
  }

  lemma OriginsStay(s: RetryRuns.State, step: RetryRuns.Step)
    ensures RetryRuns.Next(s, step).origin ==
              s.origin + if step.Begin? then [RetryRuns.Message(HeaderKey(step.packet.header), step.packet)] else []
  {
  }

  lemma CountedStepIsFresh(s: RetryRuns.State, step: RetryRuns.Step, at: seq<nat>)
    requires RetryRuns.WellFormed(s) && Numbered(s, at) && CountedStep(s, step, at) && Distinct(at)
    ensures FreshStep(s, step)
  {
    if step.Begin? {
      var n := |s.origin|;
      FreshBeginIff(s, at, step.packet, at[n]);
      forall m | 0 <= m < n && MessageInFlight(s, m) ensures !SameNumber(at[m], at[n]) {
        assert at[m] != at[n];
        if at[m] > at[n] {
          SmallMultiple(at[m] - at[n]);
        } else {
          SmallMultiple(at[n] - at[m]);
          NegatedMultiple(at[n] - at[m]);
        }
      }
    }
  }

  /** In every orderly run whose sends carry the counter's numbers, each dispatch at most
      once, and in which no message stays in flight for 65536 dispatches, all keys are
      fresh. */
  lemma {:induction false} CountedIsFresh(s: RetryRuns.State, steps: seq<RetryRuns.Step>, at: seq<nat>)
    requires RetryRuns.WellFormed(s) && Numbered(s, at) && Distinct(at) && CountedRun(s, steps, at)
    ensures FreshRun(s, steps)
    decreases |steps|
  {
    if steps != [] {
      CountedStepIsFresh(s, steps[0], at);
      NextNumbered(s, steps[0], at);
      RetryRuns.NextWellFormed(s, steps[0]);
      CountedIsFresh(RetryRuns.Next(s, steps[0]), steps[1..], at);
    }
  }

  /** So under the dispatcher's numbering alone, an Add is refused only by a full monitor,
      and a stored message leaves only on purpose. */
  lemma DispatchedKeysSuffice(cap: nat, maxRetries: int, steps: seq<RetryRuns.Step>, step: RetryRuns.Step,
      at: seq<nat>, i: nat, k: Key)
    requires Distinct(at) && CountedRun(RetryRuns.Init(cap, maxRetries), steps + [step], at)
    ensures var s := RetryRuns.Exec(RetryRuns.Init(cap, maxRetries), steps);
            && Exclusive(s)
            && (i < |s.ops| && RetryRuns.Owning(s.ops[i]) ==>
                  (RetryRuns.AddAccepts(s, s.ops[i].key) <==> |s.pending| < s.cap))
            && (k in s.store && !DropsOnPurpose(s, step, k, RetryRuns.OwnerOf(s, k)) ==>
                  SameEntry(s, RetryRuns.Next(s, step), k))
  {
    var init := RetryRuns.Init(cap, maxRetries);
    CountedIsFresh(init, steps + [step], at);
    FreshRunSplit(init, steps, step);
    ExecExclusive(init, steps);
    RefusedOnlyWhenFull(cap, maxRetries, steps, i);
    LeavesOnlyOnPurpose(cap, maxRetries, steps, step, k);
  }
}
