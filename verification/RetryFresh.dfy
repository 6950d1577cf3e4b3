/** What fresh keys add: with no key reused while it is in flight, a message is never
    dropped on account of another one. Without them it can be, and the runs at the end
    show how. */
module RetryFresh {
  import opened MessageKeys
  import opened TransportMonitors
  import opened RetryMonitors
  import opened RetryRuns

  // The key is in the store, in the monitor, or in the hands of some operation.
  ghost predicate InFlight(s: State, k: Key) {
    k in s.store || k in s.pending || exists i :: 0 <= i < |s.ops| && !s.ops[i].Done? && s.ops[i].key == k
  }

  // Nor is a callback lost or repeated, as it can be if calls of Process overlap.
  ghost predicate FreshStep(s: State, step: Step) {
    Orderly(step) && (step.Begin? ==> !InFlight(s, HeaderKey(step.packet.header)))
  }

  ghost predicate FreshRun(s: State, steps: seq<Step>)
    decreases |steps|
  {
    steps == [] || (FreshStep(s, steps[0]) && FreshRun(Next(s, steps[0]), steps[1..]))
  }

  /** One token per key: it is pending in the monitor or held by one owning operation,
      never both; and all operations on a key work for the message stored last. */
  ghost predicate Exclusive(s: State) {
    && (forall i, j | 0 <= i < j < |s.ops| && Owning(s.ops[i]) && Owning(s.ops[j]) :: s.ops[i].key != s.ops[j].key)
    && (forall i | 0 <= i < |s.ops| && Owning(s.ops[i]) :: s.ops[i].key !in s.pending)
    && (forall i | 0 <= i < |s.ops| && s.ops[i].Op? :: s.ops[i].key in s.owner && s.owner[s.ops[i].key] == s.ops[i].msg)
  }

  // How one step of one operation moves the token.
  lemma AdvanceToken(s: State, op: Op, ok: bool)
    requires WellFormed(s)
    requires Owning(op) ==> op.key !in s.pending
    ensures var (s', op') := Advance(s, op, ok);
            && (Owning(op') ==> Owning(op) && op'.key == op.key && s'.pending == s.pending)
            && (s'.pending == s.pending || (Owning(op) && s'.pending == s.pending + {op.key} && !Owning(op')))
            && (op'.Op? ==> op.key == op'.key && (op.Raised? ==> op.key in s.owner && op'.msg == s.owner[op.key])
                                              && (op.Op? ==> op'.msg == op.msg))
            && s'.owner == s.owner && !(op.Done? && !op'.Done?)
  {
  }

  lemma NextExclusive(s: State, step: Step)
    requires WellFormed(s) && Exclusive(s) && FreshStep(s, step)
    ensures Exclusive(Next(s, step))
  {
    match step
    case Begin(p) =>
    case Raise(k, status) =>
    case Run(i, ok) =>
      if i < |s.ops| {
        AdvanceToken(s, s.ops[i], ok);
      }
  }

  lemma {:induction false} ExecExclusive(s: State, steps: seq<Step>)
    requires WellFormed(s) && Exclusive(s) && FreshRun(s, steps)
    ensures WellFormed(Exec(s, steps)) && Exclusive(Exec(s, steps))
    decreases |steps|
  {
    if steps != [] {
      NextWellFormed(s, steps[0]);
      NextExclusive(s, steps[0]);
      ExecExclusive(Next(s, steps[0]), steps[1..]);
    }
  }

  /** With fresh keys an Add is refused only because the monitor is full. */
  lemma RefusedOnlyWhenFull(cap: nat, maxRetries: int, steps: seq<Step>, i: nat)
    requires FreshRun(Init(cap, maxRetries), steps)
    ensures var s := Exec(Init(cap, maxRetries), steps);
            i < |s.ops| && Owning(s.ops[i]) ==> (AddAccepts(s, s.ops[i].key) <==> |s.pending| < s.cap)
  {
    ExecExclusive(Init(cap, maxRetries), steps);
  }

  // The reasons for which the code means to drop message m's entry.
  ghost predicate DropsOnPurpose(s: State, step: Step, k: Key, m: Msg)
    requires k in s.store
  {
    && step.Run? && step.op < |s.ops|
    && var op := s.ops[step.op];
       || op == Raised(k, SUCCESS)
       || (op == Raised(k, TIMEOUT) && s.store[k].attemptsRemaining <= 0)
       || (op.Op? && op.key == k && op.msg == m && op.phase in {Refused, Failed, RetryRefused})
  }

  /** With fresh keys a stored message stays stored, with its own packet, until it is
      acknowledged, times out with no retries left, fails to send, or is refused by a
      full monitor; nothing done for another message removes or replaces it. */
  lemma LeavesOnlyOnPurpose(cap: nat, maxRetries: int, steps: seq<Step>, step: Step, k: Key)
    requires FreshRun(Init(cap, maxRetries), steps + [step])
    ensures var s := Exec(Init(cap, maxRetries), steps);
            k in s.store && !DropsOnPurpose(s, step, k, OwnerOf(s, k)) ==> SameEntry(s, Next(s, step), k)
  {
    FreshRunSplit(Init(cap, maxRetries), steps, step);
    ExecExclusive(Init(cap, maxRetries), steps);
    var s := Exec(Init(cap, maxRetries), steps);
    if k in s.store && !DropsOnPurpose(s, step, k, OwnerOf(s, k)) {
      StaysStored(s, step, k);
    }
  }

  ghost predicate SameEntry(s: State, s': State, k: Key) {
    && k in s.store && k in s'.store && OwnerOf(s', k) == OwnerOf(s, k)
    && s'.store[k].packetData == s.store[k].packetData && s'.store[k].header == s.store[k].header
  }

  lemma StaysStored(s: State, step: Step, k: Key)
    requires Exclusive(s) && FreshStep(s, step)
    requires k in s.store && !DropsOnPurpose(s, step, k, OwnerOf(s, k))
    ensures SameEntry(s, Next(s, step), k)
  {
  }

  lemma {:induction false} FreshRunSplit(s: State, steps: seq<Step>, step: Step)
    requires FreshRun(s, steps + [step])
    ensures FreshRun(s, steps) && FreshStep(Exec(s, steps), step)
    decreases |steps|
  {
    if steps != [] {
      assert (steps + [step])[1..] == steps[1..] + [step];
      FreshRunSplit(Next(s, steps[0]), steps[1..], step);
    }
  }

  // ---------------------------------------------------------------- what fails without the hypotheses

  lemma ExecFour(s: State, a: Step, b: Step, c: Step, d: Step)
    ensures Exec(s, [a, b, c, d]) == Next(Next(Next(Next(s, a), b), c), d)
  {
    var s1, s2, s3 := Next(s, a), Next(Next(s, a), b), Next(Next(Next(s, a), b), c);
    assert [a, b, c, d][1..] == [b, c, d] && [b, c, d][1..] == [c, d] && [c, d][1..] == [d] && [d][1..] == [];
    assert Exec(s3, [d]) == Exec(Next(s3, d), []);
    assert Exec(s2, [c, d]) == Exec(s3, [d]);
    assert Exec(s1, [b, c, d]) == Exec(s2, [c, d]);
  }

  // Message 0 sent and acknowledged by nobody yet, with `cap` places in the monitor.
  function SentOnce(cap: nat, maxRetries: int, a: Packet): State {
    var k := HeaderKey(a.header);
    State(cap, maxRetries, map[k := RetryEntry(a.payload, a.header, maxRetries, true)], map[k := 0], {k}, [Done],
          [Message(k, a)], [Transmission(0, a)], [])
  }

  lemma FirstSend(cap: nat, maxRetries: int, a: Packet)
    requires cap > 0
    ensures Exec(Init(cap, maxRetries), [Begin(a), Run(0, true), Run(0, true), Run(0, true)])
            == SentOnce(cap, maxRetries, a)
  {
    var k := HeaderKey(a.header);
    ExecFour(Init(cap, maxRetries), Begin(a), Run(0, true), Run(0, true), Run(0, true));
    var s := Next(Init(cap, maxRetries), Begin(a));
    assert s.ops == [Op(0, k, a, Adding)];
    assert Next(s, Run(0, true)).ops == [Op(0, k, a, Sending)];
    assert Next(Next(s, Run(0, true)), Run(0, true)).ops == [Op(0, k, a, Sent)];
  }

  /** Reusing the key of a message in flight loses that message: the second send
      overwrites its entry, is refused, and erases it, with no timeout or ACK involved. */
  lemma CollisionLosesMessage(cap: nat, maxRetries: int, a: Packet, b: Packet)
    requires cap > 0 && HeaderKey(a.header) == HeaderKey(b.header)
    ensures var s := Exec(Init(cap, maxRetries), [Begin(a), Run(0, true), Run(0, true), Run(0, true)]);
            var s' := Next(Next(Next(s, Begin(b)), Run(1, true)), Run(1, true));
            Stored(s, 0) && s'.store == map[] && s'.ops == [Done, Done] && s'.timeouts == []
  {
    FirstSend(cap, maxRetries, a);
    var k := HeaderKey(a.header);
    var s := Next(SentOnce(cap, maxRetries, a), Begin(b));
    assert s.ops == [Done, Op(1, k, b, Adding)];
    var s1 := Next(s, Run(1, true));
    assert s1.ops == [Done, Op(1, k, b, Refused)];
    assert Next(s1, Run(1, true)).store == map[];
  }

  // Message 0's first Send is under way and its timeout is already due; message 1 has
  // taken the only place in the monitor.
  function Crowded(maxRetries: int, a: Packet, b: Packet): State {
    var k, l := HeaderKey(a.header), HeaderKey(b.header);
    State(1, maxRetries,
          map[k := RetryEntry(a.payload, a.header, maxRetries, false), l := RetryEntry(b.payload, b.header,
              maxRetries, false)],
          map[k := 0, l := 1], {l}, [Op(0, k, a, Sending), Raised(k, TIMEOUT), Op(1, l, b, Sending)],
          [Message(k, a), Message(l, b)], [], [])
  }

  // The timeout's callback is refused, and then the first send ends.
  const STRANDING: seq<Step> := [Run(1, true), Run(1, true), Run(0, true), Run(0, true)]

  lemma CrowdedReached(maxRetries: int, a: Packet, b: Packet)
    requires HeaderKey(a.header) != HeaderKey(b.header)
    ensures Next(Exec(Init(1, maxRetries), [Begin(a), Run(0, true), Raise(HeaderKey(a.header), TIMEOUT), Begin(b)]),
                 Run(2, true))
            == Crowded(maxRetries, a, b)
  {
    var k, l := HeaderKey(a.header), HeaderKey(b.header);
    ExecFour(Init(1, maxRetries), Begin(a), Run(0, true), Raise(k, TIMEOUT), Begin(b));
    var e := RetryEntry(a.payload, a.header, maxRetries, false);
    var s0 := Next(Init(1, maxRetries), Begin(a));
    assert s0 == State(1, maxRetries, map[k := e], map[k := 0], {}, [Op(0, k, a, Adding)], [Message(k, a)], [], []);
    var s1 := Next(Next(s0, Run(0, true)), Raise(k, TIMEOUT));
    assert s1 == State(1, maxRetries, map[k := e], map[k := 0], {}, [Op(0, k, a, Sending), Raised(k, TIMEOUT)],
                       [Message(k, a)], [], []);
    CrowdedNext(s1, maxRetries, a, b);
  }

  lemma CrowdedNext(s: State, maxRetries: int, a: Packet, b: Packet)
    requires HeaderKey(a.header) != HeaderKey(b.header)
    requires var k := HeaderKey(a.header);
             s == State(1, maxRetries, map[k := RetryEntry(a.payload, a.header, maxRetries, false)], map[k := 0], {},
                        [Op(0, k, a, Sending), Raised(k, TIMEOUT)], [Message(k, a)], [], [])
    ensures Next(Next(s, Begin(b)), Run(2, true)) == Crowded(maxRetries, a, b)
  {
    var k, l := HeaderKey(a.header), HeaderKey(b.header);
    assert Next(s, Begin(b)).ops == [Op(0, k, a, Sending), Raised(k, TIMEOUT), Op(1, l, b, Adding)];
  }

  ghost predicate Stranded(s: State, m: Msg) {
    && Stored(s, m)
    && var e := s.store[s.origin[m].key];
       e.isSent && e.attemptsRemaining > 0 && !TrackedKey(s, s.origin[m].key)
  }

  // No operation on the key is still in progress.
  ghost predicate AtRest(s: State, k: Key) {
    forall i | 0 <= i < |s.ops| :: s.ops[i].Done? || s.ops[i].key != k
  }

  // Stranded, and nothing is under way that could change it.
  ghost predicate Abandoned(s: State, m: Msg) {
    Stranded(s, m) && AtRest(s, s.origin[m].key)
  }

  // Nothing about message m has changed.
  ghost predicate SameMessage(s: State, s': State, m: Msg)
    requires m < |s.origin|
  {
    var k := s.origin[m].key;
    && m < |s'.origin| && s'.origin[m] == s.origin[m]
    && k in s.store && k in s'.store && s'.store[k] == s.store[k] && OwnerOf(s', k) == OwnerOf(s, k)
    && SendsOf(s'.log, m) == SendsOf(s.log, m)
  }

  lemma OthersOperate(s: State, op: Op, ok: bool, m: Msg)
    requires WellFormed(s) && WellFormedOp(s, op) && Stored(s, m)
    requires op.Done? || op.key != s.origin[m].key
    ensures var (s', op') := Advance(s, op, ok); var k := s.origin[m].key;
            && SameMessage(s, s', m) && (op'.Done? || op'.key != k)
            && s'.ops == s.ops && (k in s'.pending <==> k in s.pending)
  {
    if op.Raised? {
      OthersRaised(s, op.key, op.status, m);
    } else if op.Op? && op.phase in {Sending, Resending} {
      LogAppend(s.log, Transmission(op.msg, op.packet), m);
    } else if op.Op? {
      OthersStore(s, op, ok, m);
    }
  }

  lemma OthersRaised(s: State, l: Key, status: Status, m: Msg)
    requires WellFormed(s) && Stored(s, m) && l != s.origin[m].key
    ensures var (s', op') := AfterStatus(s, l, status);
            && SameMessage(s, s', m) && (op'.Done? || op'.key != s.origin[m].key)
            && s'.ops == s.ops && s'.pending == s.pending
  {
  }

  lemma OthersStore(s: State, op: Op, ok: bool, m: Msg)
    requires op.Op? && op.phase !in {Sending, Resending} && Stored(s, m) && op.key != s.origin[m].key
    ensures var (s', op') := Advance(s, op, ok); var k := s.origin[m].key;
            && SameMessage(s, s', m) && (op'.Done? || op'.key != k)
            && s'.ops == s.ops && (k in s'.pending <==> k in s.pending)
  {
  }

  lemma AbandonedRun(s: State, i: nat, ok: bool, m: Msg)
    requires WellFormed(s) && Abandoned(s, m) && i < |s.ops|
    ensures var s' := Next(s, Run(i, ok)); Abandoned(s', m) && SameMessage(s, s', m)
  {
    OthersOperate(s, s.ops[i], ok, m);
    StrandedIff(s, m);
    StrandedIff(Next(s, Run(i, ok)), m);
  }

  lemma StrandedIff(s: State, m: Msg)
    requires Stored(s, m) && AtRest(s, s.origin[m].key)
    ensures var e := s.store[s.origin[m].key];
            Stranded(s, m) <==> e.isSent && e.attemptsRemaining > 0 && s.origin[m].key !in s.pending
  {
  }

  lemma AbandonedStep(s: State, step: Step, m: Msg)
    requires WellFormed(s) && Abandoned(s, m) && FreshStep(s, step)
    ensures Abandoned(Next(s, step), m) && SameMessage(s, Next(s, step), m)
  {
    var k, s' := s.origin[m].key, Next(s, step);
    StrandedIff(s, m);
    match step
    case Begin(p) =>
      assert InFlight(s, k);
      StrandedIff(s', m);
    case Raise(l, status) => StrandedIff(s', m);
    case Run(i, ok) =>
      if i < |s.ops| {
        AbandonedRun(s, i, ok, m);
      }
  }

  /** Whatever else happens, as long as its key is not used again, an abandoned message
      stays stored as it is: it is never resent and never dropped. */
  lemma {:induction false} AbandonedForGood(s: State, steps: seq<Step>, m: Msg)
    requires WellFormed(s) && Abandoned(s, m) && FreshRun(s, steps)
    ensures Abandoned(Exec(s, steps), m) && SameMessage(s, Exec(s, steps), m)
    decreases |steps|
  {
    if steps != [] {
      NextWellFormed(s, steps[0]);
      AbandonedStep(s, steps[0], m);
      AbandonedForGood(Next(s, steps[0]), steps[1..], m);
    }
  }

  /** A re-registration refused at the cap leaves a message stored and sent, with
      retries left, that no entry in the monitor and no operation knows of. */
  lemma RefusedReregistrationStrandsMessage(maxRetries: int, a: Packet, b: Packet)
    requires HeaderKey(a.header) != HeaderKey(b.header) && maxRetries > 0
    ensures Abandoned(Exec(Crowded(maxRetries, a, b), STRANDING), 0)
  {
    var k, l := HeaderKey(a.header), HeaderKey(b.header);
    var s := Crowded(maxRetries, a, b);
    ExecFour(s, Run(1, true), Run(1, true), Run(0, true), Run(0, true));
    var s1 := Next(s, Run(1, true));
    assert s1.ops == [Op(0, k, a, Sending), Op(0, k, a, Reregistering), Op(1, l, b, Sending)];
    var s2 := Next(s1, Run(1, true));
    assert s2.ops == [Op(0, k, a, Sending), Done, Op(1, l, b, Sending)];
    var s3 := Next(s2, Run(0, true));
    assert s3.ops == [Op(0, k, a, Sent), Done, Op(1, l, b, Sending)];
    assert Next(s3, Run(0, true)).ops == [Done, Done, Op(1, l, b, Sending)];
  }

  lemma {:induction false} ExecWellFormed(s: State, steps: seq<Step>)
    requires WellFormed(s)
    ensures WellFormed(Exec(s, steps))
    decreases |steps|
  {
    if steps != [] {
      NextWellFormed(s, steps[0]);
      ExecWellFormed(Next(s, steps[0]), steps[1..]);
    }
  }

  lemma CrowdedWellFormed(maxRetries: int, a: Packet, b: Packet)
    requires HeaderKey(a.header) != HeaderKey(b.header)
    ensures WellFormed(Crowded(maxRetries, a, b))
  {
  }

  /** Together: after that run message 0, which has been sent once, is never resent and
      never dropped, whatever fresh steps follow. */
  lemma NeverResent(maxRetries: int, a: Packet, b: Packet, more: seq<Step>)
    requires HeaderKey(a.header) != HeaderKey(b.header) && maxRetries > 0
    requires FreshRun(Exec(Crowded(maxRetries, a, b), STRANDING), more)
    ensures var s := Exec(Crowded(maxRetries, a, b), STRANDING);
            Stored(Exec(s, more), 0) && SendsOf(Exec(s, more).log, 0) == SendsOf(s.log, 0)
  {
    var crowded := Crowded(maxRetries, a, b);
    RefusedReregistrationStrandsMessage(maxRetries, a, b);
    CrowdedWellFormed(maxRetries, a, b);
    ExecWellFormed(crowded, STRANDING);
    AbandonedForGood(Exec(crowded, STRANDING), more, 0);
  }
}
