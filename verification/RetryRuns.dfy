/** Every interleaving of RetryMonitor with its callers, the transport monitor and the
    transport. A step is one region under a lock, one Add, or one transport Send; any
    number of sends and status callbacks are in progress at once. A step that is not
    enabled changes nothing, so a run is any sequence of steps. Calls of the monitor's
    Process that overlap can lose the callback of an expired key and repeat that of another
    (MonitorRuns tells exactly when), so both are steps too; a run without them is orderly. */
module RetryRuns {
  import opened MessageKeys
  import opened TransportMonitors
  import opened RetryMonitors

  // Messages are numbered by the SendWithRetry call that stored them.
  type Msg = nat

  // What an operation does next.
  datatype Phase =
    | Adding         // packet stored; call Add
    | Refused        // Add refused; erase the entry
    | Sending        // Add accepted; call the transport's Send
    | Failed         // Send failed; erase the entry
    | Sent           // Send succeeded; mark the entry as sent
    | Retrying       // callback decided to resend; call Add
    | RetryRefused   // Add refused; erase the entry
    | Resending      // Add accepted; call the transport's Send
    | Reregistering  // callback decided to re-register; call Add

  datatype Op =
    | Op(msg: Msg, key: Key, packet: Packet, phase: Phase)
    | Raised(key: Key, status: Status)  // the monitor dropped the key; its callback is due
    | Done

  datatype Transmission = Transmission(msg: Msg, packet: Packet)

  // `cap` and `maxRetries` are the configured limits. `owner` remembers which message was
  // last stored under a key; `origin` holds the key and packet of each SendWithRetry;
  // `log` lists the calls of the transport's Send; `timeouts` lists the messages whose
  // entry a TIMEOUT callback decremented or gave up.
  datatype Message = Message(key: Key, packet: Packet)
  datatype State = State(
    cap: nat, maxRetries: int,
    store: Store, owner: map<Key, Msg>, pending: set<Key>, ops: seq<Op>,
    origin: seq<Message>, log: seq<Transmission>, timeouts: seq<Msg>)

  datatype Step =
    | Begin(packet: Packet)            // SendWithRetry stores its packet
    | Raise(key: Key, status: Status)  // an ACK arrives, or Process finds the key expired
    | Run(op: nat, ok: bool)           // an operation takes its next step
    | Lose(key: Key)                   // Process takes the key out, and its callback never comes
    | Repeat(key: Key)                 // a callback comes for a key that was not taken out for it

  predicate Orderly(step: Step) {
    !step.Lose? && !step.Repeat?
  }

  function Init(cap: nat, maxRetries: int): State {
    State(cap, maxRetries, map[], map[], {}, [], [], [], [])
  }

  function OwnerOf(s: State, k: Key): Msg {
    if k in s.owner then s.owner[k] else 0
  }

  predicate AddAccepts(s: State, k: Key) {
    |s.pending| < s.cap && k !in s.pending
  }

  function AfterStatus(s: State, k: Key, status: Status): (State, Op) {
    var (store, decision) := StatusRegion(s.store, k, status);
    var counted := status == TIMEOUT && k in s.store && !decision.Reregister?;
    var s' := s.(store := store, timeouts := if counted then s.timeouts + [OwnerOf(s, k)] else s.timeouts);
    if k !in s.store then (s', Done)
    else
      match decision
      case Nothing => (s', Done)
      case Retry(header, payload) => (s', Op(OwnerOf(s, k), k, Packet(header, payload), Retrying))
      case Reregister(header) => (s', Op(OwnerOf(s, k), k, Packet(header, s.store[k].packetData), Reregistering))
  }

  // The state and the operation's next phase after it takes one step.
  function Advance(s: State, op: Op, ok: bool): (State, Op) {
    match op
    case Done => (s, Done)
    case Raised(k, status) => AfterStatus(s, k, status)
    case Op(m, k, p, phase) =>
      match phase
      case Adding =>
        if AddAccepts(s, k) then (s.(pending := s.pending + {k}), Op(m, k, p, Sending)) else (s, Op(m, k, p, Refused))
      case Refused => (s.(store := s.store - {k}), Done)
      case Sending => (s.(log := s.log + [Transmission(m, p)]), Op(m, k, p, if ok then Sent else Failed))
      case Failed => (s.(store := s.store - {k}), Done)
      case Sent => (s.(store := MarkSentRegion(s.store, k)), Done)
      case Retrying =>
        if AddAccepts(s, k) then (s.(pending := s.pending + {k}), Op(m, k, p, Resending))
            else (s, Op(m, k, p, RetryRefused))
      case RetryRefused => (s.(store := s.store - {k}), Done)
      case Resending => (s.(log := s.log + [Transmission(m, p)]), Done)
      case Reregistering => (if AddAccepts(s, k) then s.(pending := s.pending + {k}) else s, Done)
  }

  function BeginSend(s: State, p: Packet): State {
    var k := HeaderKey(p.header);
    s.(store := StoreRegion(s.store, p.header, p.payload, s.maxRetries),
       owner := s.owner[k := |s.origin|],
       origin := s.origin + [Message(k, p)],
       ops := s.ops + [Op(|s.origin|, k, p, Adding)])
  }

  function Next(s: State, step: Step): State {
    match step
    case Begin(p) => BeginSend(s, p)
    case Raise(k, status) =>
      if k in s.pending then s.(pending := s.pending - {k}, ops := s.ops + [Raised(k, status)]) else s
    case Run(i, ok) =>
      if i < |s.ops| then
        var (s', op) := Advance(s, s.ops[i], ok);
        s'.(ops := s.ops[i := op])
      else s
    case Lose(k) => s.(pending := s.pending - {k})
    case Repeat(k) => s.(ops := s.ops + [Raised(k, TIMEOUT)])
  }

  function Exec(s: State, steps: seq<Step>): State
    decreases |steps|
  {
    if steps == [] then s else Exec(Next(s, steps[0]), steps[1..])
  }

  // ---------------------------------------------------------------- well-formed states

  ghost predicate WellFormedOp(s: State, op: Op) {
    op.Op? ==> op.msg < |s.origin| && s.origin[op.msg] == Message(op.key, op.packet)
  }

  ghost predicate WellFormed(s: State) {
    && (forall k | k in s.owner :: s.owner[k] < |s.origin| && s.origin[s.owner[k]].key == k)
    && (forall k | k in s.store ::
          k in s.owner && s.origin[s.owner[k]].packet == Packet(s.store[k].header, s.store[k].packetData))
    && (forall i | 0 <= i < |s.ops| :: WellFormedOp(s, s.ops[i]))
    && (forall i | 0 <= i < |s.log| :: s.log[i].msg < |s.origin| && s.log[i].packet == s.origin[s.log[i].msg].packet)
  }

  lemma StatusWellFormed(s: State, k: Key, status: Status)
    requires WellFormed(s)
    ensures var (s', op') := AfterStatus(s, k, status);
            && WellFormed(s') && WellFormedOp(s', op')
            && s' == s.(store := s'.store, timeouts := s'.timeouts)
  {
  }

  lemma SendWellFormed(s: State, op: Op, ok: bool)
    requires WellFormed(s) && WellFormedOp(s, op) && op.Op? && op.phase in {Sending, Resending}
    ensures var (s', op') := Advance(s, op, ok);
            WellFormed(s') && WellFormedOp(s', op') && s' == s.(log := s'.log)
  {
  }

  lemma AddWellFormed(s: State, op: Op, ok: bool)
    requires WellFormed(s) && WellFormedOp(s, op) && op.Op? && op.phase in {Adding, Retrying, Reregistering}
    ensures var (s', op') := Advance(s, op, ok);
            WellFormed(s') && WellFormedOp(s', op') && s' == s.(pending := s'.pending)
  {
  }

  lemma StoreWellFormed(s: State, op: Op, ok: bool)
    requires WellFormed(s) && op.Op? && op.phase !in {Adding, Retrying, Reregistering} && op.phase !in {Sending, Resending}
    ensures var (s', op') := Advance(s, op, ok);
            WellFormed(s') && op' == Done && s' == s.(store := s'.store)
  {
    FewerStored(s, if op.phase == Sent then MarkSentRegion(s.store, op.key) else s.store - {op.key});
  }

  // Entries that stay keep their header and bytes.
  lemma FewerStored(s: State, store: Store)
    requires WellFormed(s)
    requires forall k | k in store :: k in s.store && store[k].header == s.store[k].header
                                      && store[k].packetData == s.store[k].packetData
    ensures WellFormed(s.(store := store))
  {
    var s' := s.(store := store);
    assert forall i | 0 <= i < |s.ops| :: WellFormedOp(s, s.ops[i]) ==> WellFormedOp(s', s'.ops[i]);
  }

  lemma AdvanceWellFormed(s: State, op: Op, ok: bool)
    requires WellFormed(s) && WellFormedOp(s, op)
    ensures var (s', op') := Advance(s, op, ok);
            && WellFormed(s') && WellFormedOp(s', op')
            && s' == s.(store := s'.store, pending := s'.pending, log := s'.log, timeouts := s'.timeouts)
  {
    match op
    case Done =>
    case Raised(k, status) => StatusWellFormed(s, k, status);
    case Op(_, _, _, phase) =>
      if phase in {Sending, Resending} {
        SendWellFormed(s, op, ok);
      } else if phase in {Adding, Retrying, Reregistering} {
        AddWellFormed(s, op, ok);
      } else {
        StoreWellFormed(s, op, ok);
      }
  }

  lemma NextWellFormed(s: State, step: Step)
    requires WellFormed(s)
    ensures WellFormed(Next(s, step)) && Next(s, step).maxRetries == s.maxRetries
  {
    match step
    case Begin(p) =>
    case Raise(k, status) =>
    case Run(i, ok) => if i < |s.ops| { AdvanceWellFormed(s, s.ops[i], ok); }
    case Lose(_) =>
    case Repeat(_) =>
  }

  // ---------------------------------------------------------------- the retry budget

  // Operations that will still call the transport's Send for message m.
  predicate Commits(op: Op, m: Msg) {
    op.Op? && op.msg == m && op.phase in {Adding, Sending, Retrying, Resending}
  }

  function Commitments(ops: seq<Op>, m: Msg): nat {
    if ops == [] then 0
    else Commitments(ops[..|ops| - 1], m) + if Commits(ops[|ops| - 1], m) then 1 else 0
  }

  function SendsOf(log: seq<Transmission>, m: Msg): nat {
    if log == [] then 0
    else SendsOf(log[..|log| - 1], m) + if log[|log| - 1].msg == m then 1 else 0
  }

  function TimeoutsOf(timeouts: seq<Msg>, m: Msg): nat {
    if timeouts == [] then 0
    else TimeoutsOf(timeouts[..|timeouts| - 1], m) + if timeouts[|timeouts| - 1] == m then 1 else 0
  }

  predicate StoredUnder(s: State, k: Key, m: Msg) {
    k in s.store && OwnerOf(s, k) == m
  }

  predicate Stored(s: State, m: Msg) {
    m < |s.origin| && StoredUnder(s, s.origin[m].key, m)
  }

  function Positive(n: int): nat {
    if n > 0 then n else 0
  }

  function Left(s: State, m: Msg): nat {
    if Stored(s, m) then Positive(s.store[s.origin[m].key].attemptsRemaining) else 0
  }

  ghost predicate Budget(s: State, m: Msg) {
    var sends, commits, timeouts := SendsOf(s.log, m), Commitments(s.ops, m), TimeoutsOf(s.timeouts, m);
    if m >= |s.origin| then sends == commits == timeouts == 0
    else
      && sends + commits + Left(s, m) <= 1 + Positive(s.maxRetries)
      && (Stored(s, m) ==> timeouts + Left(s, m) == Positive(s.maxRetries))
      && timeouts <= 1 + Positive(s.maxRetries)
  }

  lemma {:induction false} CommitmentsUpdate(ops: seq<Op>, i: nat, op: Op, m: Msg)
    requires i < |ops|
    ensures Commitments(ops[i := op], m) + (if Commits(ops[i], m) then 1 else 0)
            == Commitments(ops, m) + (if Commits(op, m) then 1 else 0)
  {
    var n := |ops| - 1;
    if i < n {
      CommitmentsUpdate(ops[..n], i, op, m);
      assert ops[i := op][..n] == ops[..n][i := op];
    } else {
      assert ops[i := op][..n] == ops[..n];
    }
  }

  lemma CommitmentsAppend(ops: seq<Op>, op: Op, m: Msg)
    ensures Commitments(ops + [op], m) == Commitments(ops, m) + if Commits(op, m) then 1 else 0
  {
    assert (ops + [op])[..|ops|] == ops;
  }

  lemma LogAppend(log: seq<Transmission>, t: Transmission, m: Msg)
    ensures SendsOf(log + [t], m) == SendsOf(log, m) + if t.msg == m then 1 else 0
  {
    assert (log + [t])[..|log|] == log;
  }

  lemma TimeoutsAppend(timeouts: seq<Msg>, n: Msg, m: Msg)
    ensures TimeoutsOf(timeouts + [n], m) == TimeoutsOf(timeouts, m) + if n == m then 1 else 0
  {
    assert (timeouts + [n])[..|timeouts|] == timeouts;
  }

  function Spent(s: State, op: Op, m: Msg): nat {
    SendsOf(s.log, m) + Left(s, m) + if Commits(op, m) then 1 else 0
  }

  // One step of one operation spends what it commits and never gains, and each timeout
  // charged to a message that stays stored costs it one attempt.
  ghost predicate Frugal(s: State, op: Op, s': State, op': Op, m: Msg) {
    && Spent(s', op', m) <= Spent(s, op, m)
    && (Stored(s', m) ==> Stored(s, m))
    && (Stored(s', m) ==> TimeoutsOf(s'.timeouts, m) + Left(s', m) == TimeoutsOf(s.timeouts, m) + Left(s, m))
    && TimeoutsOf(s'.timeouts, m) <= TimeoutsOf(s.timeouts, m) + (if Stored(s, m) then 1 else 0)
    && (m >= |s.origin| ==> SendsOf(s'.log, m) == SendsOf(s.log, m))
  }

  lemma StatusFrugal(s: State, k: Key, status: Status, m: Msg)
    requires WellFormed(s)
    ensures var (s', op') := AfterStatus(s, k, status); Frugal(s, Raised(k, status), s', op', m)
  {
    if StoredUnder(s, k, m) {
      StatusOfOwn(s, k, status, m);
    } else {
      StatusOfOther(s, k, status, m);
    }
  }

  // What handling a status of key k can change.
  ghost predicate ChangesOnly(s: State, k: Key, s': State, op': Op) {
    && s' == s.(store := s'.store, timeouts := s'.timeouts)
    && s'.timeouts in {s.timeouts, s.timeouts + [OwnerOf(s, k)]}
    && (k !in s.store ==> s' == s && op'.Done?)
    && (op'.Op? ==> op'.msg == OwnerOf(s, k))
    && (forall l | l != k :: (l in s'.store <==> l in s.store) && (l in s.store ==> s'.store[l] == s.store[l]))
  }

  lemma StatusChangesOnly(s: State, k: Key, status: Status)
    ensures var (s', op') := AfterStatus(s, k, status); ChangesOnly(s, k, s', op')
  {
  }

  // Another message keeps its counts.
  ghost predicate Uncharged(s: State, s': State, op': Op, m: Msg) {
    && SendsOf(s'.log, m) == SendsOf(s.log, m) && TimeoutsOf(s'.timeouts, m) == TimeoutsOf(s.timeouts, m)
    && Stored(s', m) == Stored(s, m) && Left(s', m) == Left(s, m) && !Commits(op', m)
  }

  lemma {:induction false} OthersUncharged(s: State, k: Key, s': State, op': Op, m: Msg)
    requires WellFormed(s) && !StoredUnder(s, k, m) && ChangesOnly(s, k, s', op')
    ensures Uncharged(s, s', op', m)
  {
    if k in s.store {
      TimeoutsAppend(s.timeouts, OwnerOf(s, k), m);
      assert m < |s.origin| && s.origin[m].key == k ==> OwnerOf(s, k) != m;
    }
  }

  lemma {:induction false} StatusOfOther(s: State, k: Key, status: Status, m: Msg)
    requires WellFormed(s) && !StoredUnder(s, k, m)
    ensures var (s', op') := AfterStatus(s, k, status); Uncharged(s, s', op', m)
  {
    var (s', op') := AfterStatus(s, k, status);
    StatusChangesOnly(s, k, status);
    OthersUncharged(s, k, s', op', m);
  }

  // A status for the message itself costs it an attempt, or its entry, or nothing.
  lemma {:induction false} StatusOfOwn(s: State, k: Key, status: Status, m: Msg)
    requires WellFormed(s) && StoredUnder(s, k, m)
    ensures Stored(s, m)
    ensures var (s', op') := AfterStatus(s, k, status);
            && SendsOf(s'.log, m) == SendsOf(s.log, m)
            && TimeoutsOf(s'.timeouts, m) <= TimeoutsOf(s.timeouts, m) + 1
            && Left(s', m) + (if Commits(op', m) then 1 else 0) <= Left(s, m)
            && (Stored(s', m) ==> TimeoutsOf(s'.timeouts, m) + Left(s', m) == TimeoutsOf(s.timeouts, m) + Left(s, m))
  {
    TimeoutsAppend(s.timeouts, OwnerOf(s, k), m);
    assert s.origin[m].key == k;
  }

  lemma AdvanceFrugal(s: State, op: Op, ok: bool, m: Msg)
    requires WellFormed(s) && WellFormedOp(s, op)
    ensures var (s', op') := Advance(s, op, ok); Frugal(s, op, s', op', m)
  {
    match op
    case Done =>
    case Raised(k, status) => StatusFrugal(s, k, status, m);
    case Op(_, _, _, phase) =>
      if phase in {Adding, Retrying, Reregistering} {
        AddFrugal(s, op, ok, m);
      } else if phase in {Sending, Resending} {
        SendFrugal(s, op, ok, m);
      } else {
        StoreFrugal(s, op, ok, m);
      }
  }

  lemma {:induction false} AddFrugal(s: State, op: Op, ok: bool, m: Msg)
    requires op.Op? && op.phase in {Adding, Retrying, Reregistering}
    ensures var (s', op') := Advance(s, op, ok); Frugal(s, op, s', op', m)
  {
  }

  lemma {:induction false} SendFrugal(s: State, op: Op, ok: bool, m: Msg)
    requires op.Op? && op.phase in {Sending, Resending} && WellFormedOp(s, op)
    ensures var (s', op') := Advance(s, op, ok); Frugal(s, op, s', op', m)
  {
    var (s', op') := Advance(s, op, ok);
    LogFrugal(s, Transmission(op.msg, op.packet), op, op', m);
  }

  lemma {:induction false} LogFrugal(s: State, t: Transmission, op: Op, op': Op, m: Msg)
    requires t.msg < |s.origin| && (Commits(op, m) <==> t.msg == m) && !Commits(op', m)
    ensures Frugal(s, op, s.(log := s.log + [t]), op', m)
  {
    LogAppend(s.log, t, m);
    LogMatters(s, s.log + [t], m);
  }

  // The log has no part in what is stored and what is left.
  lemma {:induction false} LogMatters(s: State, log: seq<Transmission>, m: Msg)
    ensures var s' := s.(log := log); Stored(s', m) == Stored(s, m) && Left(s', m) == Left(s, m)
  {
  }

  // Erasing an entry, or marking it as sent.
  lemma {:induction false} StoreFrugal(s: State, op: Op, ok: bool, m: Msg)
    requires op.Op? && op.phase !in {Adding, Retrying, Reregistering} && op.phase !in {Sending, Resending}
    ensures var (s', op') := Advance(s, op, ok); Frugal(s, op, s', op', m)
  {
  }

  lemma BeginBudget(s: State, p: Packet, m: Msg)
    requires WellFormed(s) && Budget(s, m)
    ensures Budget(BeginSend(s, p), m)
  {
    CommitmentsAppend(s.ops, Op(|s.origin|, HeaderKey(p.header), p, Adding), m);
  }

  lemma RunBudget(s: State, i: nat, ok: bool, m: Msg)
    requires WellFormed(s) && Budget(s, m) && i < |s.ops|
    ensures Budget(Next(s, Run(i, ok)), m)
  {
    AdvanceWellFormed(s, s.ops[i], ok);
    AdvanceFrugal(s, s.ops[i], ok, m);
    CommitmentsUpdate(s.ops, i, Advance(s, s.ops[i], ok).1, m);
  }

  lemma NextBudget(s: State, step: Step, m: Msg)
    requires WellFormed(s) && Budget(s, m)
    ensures Budget(Next(s, step), m)
  {
    match step
    case Begin(p) => BeginBudget(s, p, m);
    case Raise(k, status) => CommitmentsAppend(s.ops, Raised(k, status), m);
    case Run(i, ok) =>
      if i < |s.ops| {
        RunBudget(s, i, ok, m);
      }
    case Lose(_) =>
    case Repeat(k) => CommitmentsAppend(s.ops, Raised(k, TIMEOUT), m);
  }

  lemma {:induction false} ExecBudget(s: State, steps: seq<Step>, m: Msg)
    requires WellFormed(s) && Budget(s, m)
    ensures var s' := Exec(s, steps); WellFormed(s') && Budget(s', m) && s'.maxRetries == s.maxRetries
    decreases |steps|
  {
    if steps != [] {
      NextWellFormed(s, steps[0]);
      NextBudget(s, steps[0], m);
      ExecBudget(Next(s, steps[0]), steps[1..], m);
    }
  }

  /** In every interleaving one SendWithRetry makes the transport send at most
      1 + maxRetries times, always the header and bytes it was called with. */
  lemma SendBudget(cap: nat, maxRetries: int, steps: seq<Step>, m: Msg)
    ensures var s := Exec(Init(cap, maxRetries), steps);
            && SendsOf(s.log, m) <= 1 + Positive(maxRetries)
            && forall i | 0 <= i < |s.log| :: s.log[i].msg < |s.origin| && s.log[i].packet == s.origin[s.log[i].msg].packet
  {
    ExecBudget(Init(cap, maxRetries), steps, m);
  }

  /** An entry is gone after maxRetries + 1 timeouts have been charged to it; a timeout
      that only re-registers, because the first send has not finished, is not charged. */
  lemma TimeoutBudget(cap: nat, maxRetries: int, steps: seq<Step>, m: Msg)
    ensures var s := Exec(Init(cap, maxRetries), steps);
            && TimeoutsOf(s.timeouts, m) <= 1 + Positive(maxRetries)
            && (TimeoutsOf(s.timeouts, m) == 1 + Positive(maxRetries) ==> !Stored(s, m))
  {
    ExecBudget(Init(cap, maxRetries), steps, m);
  }

  // ---------------------------------------------------------------- no retry is left out

  // An operation that is about to erase message m's entry because an Add was refused.
  predicate GivingUp(op: Op, m: Msg) {
    op.Op? && op.msg == m && op.phase in {Refused, RetryRefused}
  }

  ghost predicate GivenUp(s: State, m: Msg) {
    exists i :: 0 <= i < |s.ops| && GivingUp(s.ops[i], m)
  }

  // What has been sent, is committed to be sent, and may still be resent, is all there is.
  ghost predicate SpentExactly(s: State, m: Msg) {
    Stored(s, m) && !GivenUp(s, m) ==>
      SendsOf(s.log, m) + Commitments(s.ops, m) + Left(s, m) == 1 + Positive(s.maxRetries)
  }

  lemma {:induction false} AdvanceSpends(s: State, op: Op, ok: bool, m: Msg)
    requires WellFormed(s) && WellFormedOp(s, op)
    ensures var (s', op') := Advance(s, op, ok);
            Stored(s', m) && !GivingUp(op', m) ==> Spent(s', op', m) == Spent(s, op, m) && !GivingUp(op, m)
  {
    match op
    case Done =>
    case Raised(k, status) => StatusSpends(s, k, status, m);
    case Op(_, _, p, phase) =>
      if phase in {Sending, Resending} {
        LogAppend(s.log, Transmission(op.msg, p), m);
        LogMatters(s, s.log + [Transmission(op.msg, p)], m);
      } else if phase in {Adding, Retrying, Reregistering} {
        AddSpends(s, op, ok, m);
      } else {
        EraseSpends(s, op, ok, m);
      }
  }

  lemma {:induction false} AddSpends(s: State, op: Op, ok: bool, m: Msg)
    requires op.Op? && op.phase in {Adding, Retrying, Reregistering}
    ensures var (s', op') := Advance(s, op, ok);
            && !GivingUp(op, m)
            && (!GivingUp(op', m) ==> Spent(s', op', m) == Spent(s, op, m))
  {
  }

  lemma {:induction false} EraseSpends(s: State, op: Op, ok: bool, m: Msg)
    requires WellFormedOp(s, op)
    requires op.Op? && op.phase !in {Adding, Retrying, Reregistering} && op.phase !in {Sending, Resending}
    ensures var (s', op') := Advance(s, op, ok);
            Stored(s', m) ==> Spent(s', op', m) == Spent(s, op, m) && !GivingUp(op, m)
  {
  }

  lemma {:induction false} StatusSpends(s: State, k: Key, status: Status, m: Msg)
    requires WellFormed(s)
    ensures var (s', op') := AfterStatus(s, k, status);
            Stored(s', m) ==> Spent(s', op', m) == Spent(s, Raised(k, status), m)
  {
    if StoredUnder(s, k, m) {
      OwnSpends(s, k, status, m);
    } else {
      StatusOfOther(s, k, status, m);
    }
  }

  lemma {:induction false} OwnSpends(s: State, k: Key, status: Status, m: Msg)
    requires WellFormed(s) && StoredUnder(s, k, m)
    ensures var (s', op') := AfterStatus(s, k, status);
            && SendsOf(s'.log, m) == SendsOf(s.log, m)
            && (Stored(s', m) ==> Left(s', m) + (if Commits(op', m) then 1 else 0) == Left(s, m))
  {
    assert s.origin[m].key == k;
  }

  lemma {:induction false} RunSpends(s: State, i: nat, ok: bool, m: Msg)
    requires WellFormed(s) && SpentExactly(s, m) && i < |s.ops|
    ensures SpentExactly(Next(s, Run(i, ok)), m)
  {
    var s' := Next(s, Run(i, ok));
    AdvanceWellFormed(s, s.ops[i], ok);
    AdvanceSpends(s, s.ops[i], ok, m);
    AdvanceFrugal(s, s.ops[i], ok, m);
    CommitmentsUpdate(s.ops, i, Advance(s, s.ops[i], ok).1, m);
    if Stored(s', m) && !GivenUp(s', m) {
      assert s'.ops[i] == Advance(s, s.ops[i], ok).1 && !GivingUp(s'.ops[i], m);
      forall j | 0 <= j < |s.ops| ensures !GivingUp(s.ops[j], m) {
        if j != i { assert s'.ops[j] == s.ops[j]; }
      }
    }
  }

  lemma {:induction false} BeginSpends(s: State, p: Packet, m: Msg)
    requires WellFormed(s) && Budget(s, m) && SpentExactly(s, m)
    ensures SpentExactly(BeginSend(s, p), m)
  {
    var s' := BeginSend(s, p);
    CommitmentsAppend(s.ops, Op(|s.origin|, HeaderKey(p.header), p, Adding), m);
    assert forall j | 0 <= j < |s.ops| :: s'.ops[j] == s.ops[j];
  }

  // A callback that is due commits nothing and gives up nothing yet.
  lemma {:induction false} RaisedSpends(s: State, s': State, k: Key, status: Status, m: Msg)
    requires SpentExactly(s, m) && s' == s.(pending := s'.pending, ops := s.ops + [Raised(k, status)])
    ensures SpentExactly(s', m)
  {
    CommitmentsAppend(s.ops, Raised(k, status), m);
    assert forall j | 0 <= j < |s.ops| :: s'.ops[j] == s.ops[j];
    assert Stored(s', m) == Stored(s, m) && Left(s', m) == Left(s, m);
  }

  lemma {:induction false} NextSpends(s: State, step: Step, m: Msg)
    requires WellFormed(s) && Budget(s, m) && SpentExactly(s, m)
    ensures SpentExactly(Next(s, step), m)
  {
    match step
    case Begin(p) => BeginSpends(s, p, m);
    case Raise(k, status) => if k in s.pending { RaisedSpends(s, Next(s, step), k, status, m); }
    case Run(i, ok) => if i < |s.ops| { RunSpends(s, i, ok, m); }
    case Lose(_) =>
    case Repeat(k) => RaisedSpends(s, Next(s, step), k, TIMEOUT, m);
  }

  // The operation of SendWithRetry that stored message m.
  predicate FirstSend(op: Op, m: Msg) {
    op.Op? && op.msg == m && op.phase in {Adding, Refused, Sending, Failed, Sent}
  }

  // A message that is not marked as sent is still being sent for the first time.
  ghost predicate MarkedOrSending(s: State, m: Msg) {
    Stored(s, m) && !s.store[s.origin[m].key].isSent ==> exists i :: 0 <= i < |s.ops| && FirstSend(s.ops[i], m)
  }

  lemma {:induction false} AdvanceMarks(s: State, op: Op, ok: bool, m: Msg)
    requires WellFormed(s) && WellFormedOp(s, op)
    ensures var (s', op') := Advance(s, op, ok);
            Stored(s', m) && !s'.store[s'.origin[m].key].isSent ==>
              && Stored(s, m) && !s.store[s.origin[m].key].isSent
              && (FirstSend(op, m) ==> FirstSend(op', m))
  {
  }

  lemma {:induction false} NextMarks(s: State, step: Step, m: Msg)
    requires WellFormed(s) && MarkedOrSending(s, m)
    ensures MarkedOrSending(Next(s, step), m)
  {
    var s' := Next(s, step);
    if step.Run? && step.op < |s.ops| {
      AdvanceMarks(s, s.ops[step.op], step.ok, m);
    }
    if Stored(s', m) && !s'.store[s'.origin[m].key].isSent {
      if step.Begin? && m == |s.origin| {
        assert FirstSend(s'.ops[|s.ops|], m);
      } else {
        var i :| 0 <= i < |s.ops| && FirstSend(s.ops[i], m);
        assert FirstSend(s'.ops[i], m);
      }
    }
  }

  lemma {:induction false} ExecSpends(s: State, steps: seq<Step>, m: Msg)
    requires WellFormed(s) && Budget(s, m) && SpentExactly(s, m) && MarkedOrSending(s, m)
    ensures SpentExactly(Exec(s, steps), m) && MarkedOrSending(Exec(s, steps), m)
    decreases |steps|
  {
    if steps != [] {
      NextWellFormed(s, steps[0]);
      NextBudget(s, steps[0], m);
      NextSpends(s, steps[0], m);
      NextMarks(s, steps[0], m);
      ExecSpends(Next(s, steps[0]), steps[1..], m);
    }
  }

  /** In every interleaving, as long as a message is stored and no Add for it has been
      refused, it has been sent, or is committed to be sent, once and once more for every
      timeout charged to it; and it is marked as sent unless its first send is under way. */
  lemma {:induction false} OneSendPerTimeout(cap: nat, maxRetries: int, steps: seq<Step>, m: Msg)
    ensures var s := Exec(Init(cap, maxRetries), steps);
            && (Stored(s, m) && !GivenUp(s, m) ==>
                  SendsOf(s.log, m) + Commitments(s.ops, m) == 1 + TimeoutsOf(s.timeouts, m))
            && (Stored(s, m) && (forall i | 0 <= i < |s.ops| :: !FirstSend(s.ops[i], m)) ==>
                  s.store[s.origin[m].key].isSent)
  {
    ExecBudget(Init(cap, maxRetries), steps, m);
    ExecSpends(Init(cap, maxRetries), steps, m);
  }

  /** And a TIMEOUT handled for a stored message drops it exactly if maxRetries timeouts
      have been charged to it before; otherwise it commits one resend of the very header and
      bytes of its SendWithRetry if the message is marked as sent, and one re-registration
      if it is not. */
  lemma {:induction false} TimeoutHandled(cap: nat, maxRetries: int, steps: seq<Step>, i: nat, ok: bool, m: Msg)
    requires var s := Exec(Init(cap, maxRetries), steps);
             i < |s.ops| && s.ops[i].Raised? && s.ops[i].status == TIMEOUT && StoredUnder(s, s.ops[i].key, m)
    ensures var s := Exec(Init(cap, maxRetries), steps);
            var s', k, charged := Next(s, Run(i, ok)), s.ops[i].key, TimeoutsOf(s.timeouts, m);
            && charged <= Positive(maxRetries) && m < |s.origin|
            && (Stored(s', m) <==> charged < Positive(maxRetries))
            && (charged == Positive(maxRetries) ==> s'.ops[i] == Done && k !in s'.store)
            && (charged < Positive(maxRetries) ==>
                  s'.ops[i] == Op(m, k, s.origin[m].packet, if s.store[k].isSent then Retrying else Reregistering))
            && TimeoutsOf(s'.timeouts, m)
               == charged + if charged < Positive(maxRetries) && !s.store[k].isSent then 0 else 1
  {
    var s := Exec(Init(cap, maxRetries), steps);
    ExecBudget(Init(cap, maxRetries), steps, m);
    StatusWellFormed(s, s.ops[i].key, TIMEOUT);
    HandlesTimeout(s, s.ops[i].key, m);
  }

  lemma {:induction false} HandlesTimeout(s: State, k: Key, m: Msg)
    requires WellFormed(s) && Budget(s, m) && StoredUnder(s, k, m)
    ensures m < |s.origin| && Stored(s, m)
    ensures var (s', op) := AfterStatus(s, k, TIMEOUT); var charged := TimeoutsOf(s.timeouts, m);
            && charged <= Positive(s.maxRetries)
            && (Stored(s', m) <==> charged < Positive(s.maxRetries))
            && (charged == Positive(s.maxRetries) ==> op == Done && k !in s'.store)
            && (charged < Positive(s.maxRetries) ==>
                  op == Op(m, k, s.origin[m].packet, if s.store[k].isSent then Retrying else Reregistering))
            && TimeoutsOf(s'.timeouts, m)
               == charged + if charged < Positive(s.maxRetries) && !s.store[k].isSent then 0 else 1
  {
    assert s.origin[m].key == k;
    TimeoutsAppend(s.timeouts, m, m);
  }

  /** A resend that has been committed reaches the transport exactly if the monitor accepts
      it again; if not, the entry is erased. */
  lemma {:induction false} ResendReaches(s: State, i: nat, m: Msg, k: Key, p: Packet)
    requires i < |s.ops| && s.ops[i] == Op(m, k, p, Retrying)
    ensures var t := Next(Next(s, Run(i, true)), Run(i, true));
            && t.log == s.log + (if AddAccepts(s, k) then [Transmission(m, p)] else [])
            && t.ops == s.ops[i := Done]
            && (AddAccepts(s, k) ==> k in t.pending && t.store == s.store)
            && (!AddAccepts(s, k) ==> t.pending == s.pending && t.store == s.store - {k})
  {
    var s1 := Next(s, Run(i, true));
    assert s1.ops[i] == Op(m, k, p, if AddAccepts(s, k) then Resending else RetryRefused);
  }

  /** When nothing else runs in between, a SendWithRetry for which the monitor has room
      sends its packet, and leaves an entry with all its retries, marked as sent, exactly if
      the transport took it; without room it sends and leaves nothing. */
  lemma {:induction false} SendReaches(s: State, p: Packet, ok: bool)
    ensures var k, m, run := HeaderKey(p.header), |s.origin|, Run(|s.ops|, ok);
            var t := Next(Next(Next(Next(s, Begin(p)), run), run), run);
            && t.ops == s.ops + [Done]
            && t.log == s.log + (if AddAccepts(s, k) then [Transmission(m, p)] else [])
            && t.pending == s.pending + (if AddAccepts(s, k) then {k} else {})
            && t.store == (if AddAccepts(s, k) && ok
                           then s.store[k := RetryEntry(p.payload, p.header, s.maxRetries, true)] else s.store - {k})
  {
    var k, m, n := HeaderKey(p.header), |s.origin|, |s.ops|;
    var s1 := Next(s, Begin(p));
    assert s1.ops == s.ops + [Op(m, k, p, Adding)];
    if AddAccepts(s, k) {
      SendAccepted(s1, n, Op(m, k, p, Adding), ok);
    } else {
      SendRefused(s1, n, Op(m, k, p, Adding), ok);
    }
    assert s1.ops[n := Done] == s.ops + [Done] && s.pending + {} == s.pending;
  }

  lemma {:induction false} SendAccepted(s: State, n: nat, op: Op, ok: bool)
    requires n < |s.ops| && s.ops[n] == op && op.Op? && op.phase == Adding && AddAccepts(s, op.key)
    ensures var t := Next(Next(Next(s, Run(n, ok)), Run(n, ok)), Run(n, ok));
            && t.ops == s.ops[n := Done] && t.log == s.log + [Transmission(op.msg, op.packet)]
            && t.pending == s.pending + {op.key}
            && t.store == if ok then MarkSentRegion(s.store, op.key) else s.store - {op.key}
  {
    var s1 := Next(s, Run(n, ok));
    assert s1 == s.(pending := s.pending + {op.key}, ops := s.ops[n := op.(phase := Sending)]);
    var s2 := Next(s1, Run(n, ok));
    assert s2.ops == s.ops[n := op.(phase := if ok then Sent else Failed)];
    assert Next(s2, Run(n, ok)).ops == s.ops[n := Done];
  }

  lemma {:induction false} SendRefused(s: State, n: nat, op: Op, ok: bool)
    requires n < |s.ops| && s.ops[n] == op && op.Op? && op.phase == Adding && !AddAccepts(s, op.key)
    ensures var t := Next(Next(Next(s, Run(n, ok)), Run(n, ok)), Run(n, ok));
            && t.ops == s.ops[n := Done] && t.log == s.log && t.pending == s.pending && t.store == s.store - {op.key}
  {
    var s1 := Next(s, Run(n, ok));
    assert s1 == s.(ops := s.ops[n := op.(phase := Refused)]);
    var s2 := Next(s1, Run(n, ok));
    assert s2.ops == s.ops[n := Done];
  }

  /** When nothing else runs in between, a pending message that has been sent and still has
      retries is sent once more when it expires, provided the monitor has room: the packet
      of its SendWithRetry, header and bytes. */
  lemma {:induction false} TimeoutResends(cap: nat, maxRetries: int, steps: seq<Step>, m: Msg)
    requires var s := Exec(Init(cap, maxRetries), steps);
             && Stored(s, m) && s.store[s.origin[m].key].isSent && s.origin[m].key in s.pending
             && TimeoutsOf(s.timeouts, m) < Positive(maxRetries)
    ensures var s := Exec(Init(cap, maxRetries), steps);
            var k, run := s.origin[m].key, Run(|s.ops|, true);
            var t := Next(Next(Next(Next(s, Raise(k, TIMEOUT)), run), run), run);
            t.log == s.log + if |s.pending - {k}| < s.cap then [Transmission(m, s.origin[m].packet)] else []
  {
    var s := Exec(Init(cap, maxRetries), steps);
    var k, n := s.origin[m].key, |s.ops|;
    ExecBudget(Init(cap, maxRetries), steps, m);
    var raised := Next(s, Raise(k, TIMEOUT));
    NextWellFormed(s, Raise(k, TIMEOUT));
    NextBudget(s, Raise(k, TIMEOUT), m);
    HandlesTimeout(raised, k, m);
    ResendReaches(Next(raised, Run(n, true)), n, m, k, s.origin[m].packet);
  }

  // A TIMEOUT callback is handled while message m is stored under its key, and has been
  // sent or has no retries left.
  predicate Charges(s: State, step: Step, m: Msg) {
    && step.Run? && step.op < |s.ops|
    && var op := s.ops[step.op];
       && op.Raised? && op.status == TIMEOUT && StoredUnder(s, op.key, m)
       && (s.store[op.key].isSent || s.store[op.key].attemptsRemaining <= 0)
  }

  function Handled(s: State, steps: seq<Step>, m: Msg): nat
    decreases |steps|
  {
    if steps == [] then 0
    else (if Charges(s, steps[0], m) then 1 else 0) + Handled(Next(s, steps[0]), steps[1..], m)
  }

  lemma {:induction false} StatusCharges(s: State, k: Key, status: Status, m: Msg)
    ensures var charged := status == TIMEOUT && StoredUnder(s, k, m)
                           && (s.store[k].isSent || s.store[k].attemptsRemaining <= 0);
            TimeoutsOf(AfterStatus(s, k, status).0.timeouts, m)
            == TimeoutsOf(s.timeouts, m) + if charged then 1 else 0
  {
    TimeoutsAppend(s.timeouts, OwnerOf(s, k), m);
    StatusTimeouts(s, k, status);
  }

  lemma {:induction false} StatusTimeouts(s: State, k: Key, status: Status)
    ensures var counted := status == TIMEOUT && k in s.store && (s.store[k].isSent || s.store[k].attemptsRemaining <= 0);
            AfterStatus(s, k, status).0.timeouts == if counted then s.timeouts + [OwnerOf(s, k)] else s.timeouts
  {
  }

  lemma {:induction false} ChargeStep(s: State, step: Step, m: Msg)
    ensures TimeoutsOf(Next(s, step).timeouts, m) == TimeoutsOf(s.timeouts, m) + if Charges(s, step, m) then 1 else 0
  {
    if step.Run? && step.op < |s.ops| && s.ops[step.op].Raised? {
      StatusCharges(s, s.ops[step.op].key, s.ops[step.op].status, m);
    }
  }

  /** What is charged to a message is exactly the timeouts handled while it is stored and
      has been sent, or has no retries left. */
  lemma {:induction false} ChargedExactly(s: State, steps: seq<Step>, m: Msg)
    ensures TimeoutsOf(Exec(s, steps).timeouts, m) == TimeoutsOf(s.timeouts, m) + Handled(s, steps, m)
    decreases |steps|
  {
    if steps != [] {
      ChargeStep(s, steps[0], m);
      ChargedExactly(Next(s, steps[0]), steps[1..], m);
    }
  }

  /** So in every interleaving at most maxRetries + 1 timeouts are handled for a stored
      message that has been sent, and after that many it is gone. */
  lemma {:induction false} SentTimeouts(cap: nat, maxRetries: int, steps: seq<Step>, m: Msg)
    ensures var s, handled := Exec(Init(cap, maxRetries), steps), Handled(Init(cap, maxRetries), steps, m);
            handled <= 1 + Positive(maxRetries) && (handled == 1 + Positive(maxRetries) ==> !Stored(s, m))
  {
    ChargedExactly(Init(cap, maxRetries), steps, m);
    TimeoutBudget(cap, maxRetries, steps, m);
  }

  // Sends made and sends still to come.
  function Committed(s: State, m: Msg): nat {
    SendsOf(s.log, m) + Commitments(s.ops, m)
  }

  lemma NextSettled(s: State, step: Step, m: Msg)
    requires WellFormed(s) && m < |s.origin| && !Stored(s, m)
    ensures var s' := Next(s, step); m < |s'.origin| && !Stored(s', m) && Committed(s', m) <= Committed(s, m)
  {
    match step
    case Begin(p) => CommitmentsAppend(s.ops, Op(|s.origin|, HeaderKey(p.header), p, Adding), m);
    case Raise(k, status) => CommitmentsAppend(s.ops, Raised(k, status), m);
    case Run(i, ok) =>
      if i < |s.ops| {
        AdvanceWellFormed(s, s.ops[i], ok);
        AdvanceFrugal(s, s.ops[i], ok, m);
        CommitmentsUpdate(s.ops, i, Advance(s, s.ops[i], ok).1, m);
      }
    case Lose(_) =>
    case Repeat(k) => CommitmentsAppend(s.ops, Raised(k, TIMEOUT), m);
  }

  lemma {:induction false} ExecSettled(s: State, steps: seq<Step>, m: Msg)
    requires WellFormed(s) && m < |s.origin| && !Stored(s, m)
    ensures !Stored(Exec(s, steps), m) && Committed(Exec(s, steps), m) <= Committed(s, m)
    decreases |steps|
  {
    if steps != [] {
      NextWellFormed(s, steps[0]);
      NextSettled(s, steps[0], m);
      ExecSettled(Next(s, steps[0]), steps[1..], m);
    }
  }

  /** Once a SUCCESS for a message's key has been handled, whatever runs afterwards adds
      no transport send for it: only the sends already under way may still happen. */
  lemma NothingAfterSuccess(s: State, i: nat, ok: bool, steps: seq<Step>, m: Msg)
    requires WellFormed(s) && m < |s.origin|
    requires i < |s.ops| && s.ops[i] == Raised(s.origin[m].key, SUCCESS)
    ensures var s' := Exec(Next(s, Run(i, ok)), steps);
            !Stored(s', m) && Committed(s', m) <= Committed(s, m)
  {
    NextWellFormed(s, Run(i, ok));
    AdvanceFrugal(s, s.ops[i], ok, m);
    CommitmentsUpdate(s.ops, i, Advance(s, s.ops[i], ok).1, m);
    ExecSettled(Next(s, Run(i, ok)), steps, m);
  }

  // ---------------------------------------------------------------- no stored key is forgotten

  // Operations that will either have the key tracked again or erase its entry.
  predicate Owning(op: Op) {
    op.Raised? || (op.Op? && op.phase in {Adding, Refused, Retrying, RetryRefused, Reregistering})
  }

  ghost predicate OwnedBut(s: State, k: Key, but: int) {
    exists i :: 0 <= i < |s.ops| && i != but && Owning(s.ops[i]) && s.ops[i].key == k
  }

  ghost predicate TrackedKey(s: State, k: Key) {
    k in s.pending || OwnedBut(s, k, -1)
  }

  /** Every stored key is pending in the monitor or owned by an operation in progress. */
  ghost predicate Tracked(s: State) {
    forall k | k in s.store :: TrackedKey(s, k)
  }

  // The re-registering Add, whose result is ignored, is refused at the cap while the
  // entry is still stored and nothing else looks after it; or the callback of such an
  // entry is lost.
  ghost predicate Forgets(s: State, step: Step) {
    Unregistered(s, step)
    || (step.Lose? && step.key in s.store && step.key in s.pending && !OwnedBut(s, step.key, -1))
  }

  ghost predicate Unregistered(s: State, step: Step) {
    && step.Run? && step.op < |s.ops|
    && var op := s.ops[step.op];
       && op.Op? && op.phase == Reregistering
       && op.key in s.store && op.key !in s.pending && |s.pending| >= s.cap
       && !OwnedBut(s, op.key, step.op)
  }

  // An operation that looks after a stored key hands it to the monitor, keeps it, or
  // was re-registering and refused at the cap.
  lemma HandsOver(s: State, op: Op, ok: bool)
    ensures var (s', op') := Advance(s, op, ok);
            && s'.store.Keys <= s.store.Keys && s.pending <= s'.pending
            && (Owning(op) && op.key in s'.store ==>
                  || op.key in s'.pending
                  || (Owning(op') && op'.key == op.key)
                  || (op.Op? && op.phase == Reregistering && |s.pending| >= s.cap && s' == s))
  {
  }

  lemma RunTracked(s: State, i: nat, ok: bool, k: Key)
    requires Tracked(s) && i < |s.ops| && k in Next(s, Run(i, ok)).store
    requires !(Forgets(s, Run(i, ok)) && s.ops[i].key == k)
    ensures TrackedKey(Next(s, Run(i, ok)), k)
  {
    HandsOver(s, s.ops[i], ok);
    var s' := Next(s, Run(i, ok));
    if k !in s'.pending {
      if OwnedBut(s, k, i) {
        var j :| 0 <= j < |s.ops| && j != i && Owning(s.ops[j]) && s.ops[j].key == k;
        assert s'.ops[j] == s.ops[j];
      } else {
        assert Owning(s.ops[i]) && s.ops[i].key == k;
        assert Owning(s'.ops[i]) && s'.ops[i].key == k;
      }
    }
  }

  lemma RunForgets(s: State, i: nat, ok: bool)
    requires i < |s.ops| && Forgets(s, Run(i, ok))
    ensures s.ops[i].key in Next(s, Run(i, ok)).store && !TrackedKey(Next(s, Run(i, ok)), s.ops[i].key)
  {
  }

  /** Exactly those two steps break tracking. */
  lemma TrackedStep(s: State, step: Step)
    requires Tracked(s)
    ensures Tracked(Next(s, step)) <==> !Forgets(s, step)
  {
    var s' := Next(s, step);
    match step
    case Begin(p) =>
      forall k | k in s'.store ensures TrackedKey(s', k) {
        if k == HeaderKey(p.header) {
          assert s'.ops[|s.ops|].key == k;
        } else if k !in s.pending {
          var i :| 0 <= i < |s.ops| && Owning(s.ops[i]) && s.ops[i].key == k;
          assert s'.ops[i] == s.ops[i];
        }
      }
    case Raise(key, status) =>
      forall k | k in s'.store ensures TrackedKey(s', k) {
        if k == key && key in s.pending {
          assert s'.ops[|s.ops|] == Raised(k, status);
        } else if k !in s.pending {
          var i :| 0 <= i < |s.ops| && Owning(s.ops[i]) && s.ops[i].key == k;
          assert s'.ops[i] == s.ops[i];
        }
      }
    case Run(i, ok) =>
      if i < |s.ops| {
        if Forgets(s, step) {
          RunForgets(s, i, ok);
        } else {
          forall k | k in s'.store ensures TrackedKey(s', k) {
            RunTracked(s, i, ok, k);
          }
        }
      }
    case Lose(key) => LoseTracked(s, key);
    case Repeat(key) =>
      forall k | k in s'.store ensures TrackedKey(s', k) {
        if k !in s.pending {
          var i :| 0 <= i < |s.ops| && Owning(s.ops[i]) && s.ops[i].key == k;
          assert s'.ops[i] == s.ops[i];
        }
      }
  }

  lemma LoseTracked(s: State, key: Key)
    requires Tracked(s)
    ensures Tracked(Next(s, Lose(key))) <==> !Forgets(s, Lose(key))
  {
    var s' := Next(s, Lose(key));
    if Forgets(s, Lose(key)) {
      assert key in s'.store && !TrackedKey(s', key);
    } else {
      forall k | k in s'.store ensures TrackedKey(s', k) {
        assert TrackedKey(s, k);
        assert OwnedBut(s', k, -1) <==> OwnedBut(s, k, -1);
      }
    }
  }

  ghost predicate NeverForgets(s: State, steps: seq<Step>)
    decreases |steps|
  {
    steps == [] || (!Forgets(s, steps[0]) && NeverForgets(Next(s, steps[0]), steps[1..]))
  }

  /** In every interleaving in which no re-registration is refused at the cap, each
      stored key is tracked. */
  lemma {:induction false} ExecTracked(s: State, steps: seq<Step>)
    requires Tracked(s) && NeverForgets(s, steps)
    ensures Tracked(Exec(s, steps))
    decreases |steps|
  {
    if steps != [] {
      TrackedStep(s, steps[0]);
      ExecTracked(Next(s, steps[0]), steps[1..]);
    }
  }
}
