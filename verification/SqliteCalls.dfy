/** What a blocking caller is told, by the steps of the run alone, and that every blocking
    call can come to its end. */
module SqliteCalls {
  import opened Common
  import opened AsyncWaits
  import opened SqliteWorker

  // The caller's wait ends by its timeout: the semaphore has not been signalled.
  predicate TimesOut(s: State, step: Step, id: nat) {
    step == Caller(id, TimeOut) && id < |s.calls| && s.calls[id].caller == Waiting && !s.calls[id].shared.signaled
  }

  predicate EverTimesOut(s: State, steps: seq<Step>, id: nat)
    decreases |steps|
  {
    steps != [] && (TimesOut(s, steps[0], id) || EverTimesOut(Next(s, steps[0]), steps[1..], id))
  }

  // What a call's caller knows: whether it was queued, and whether its wait has timed out.
  ghost predicate Reckoned(c: Call, timedOut: bool) {
    c.kind == Blocking ==>
      match c.caller
      case Calling => c.ticket == None && !timedOut
      case Waiting => c.ticket.Some? && !timedOut
      case Woke(waited) => waited <==> c.ticket.Some? && !timedOut
      case Holding(waited) => waited <==> c.ticket.Some? && !timedOut
      case Returned(waited, _, _) => waited <==> c.ticket.Some? && !timedOut
  }

  lemma CallerReckoned(c: Call, act: CallerAct, ticket: nat, clock: nat, timedOut: bool)
    requires Reckoned(c, timedOut)
    ensures Reckoned(OnCaller(c, act, ticket, clock),
                     timedOut || (act == TimeOut && c.caller == Waiting && !c.shared.signaled))
  {
  }

  lemma WorkerLeavesCaller(c: Call, act: WorkerAct, stage: Stage, inlineOpen: bool, clock: nat)
    ensures var c' := OnWorker(c, act, stage, inlineOpen, clock).0;
            c'.caller == c.caller && c'.kind == c.kind && c'.ticket == c.ticket
  {
  }

  lemma StepReckoned(s: State, step: Step, id: nat, timedOut: bool)
    requires id < |s.calls| && Reckoned(s.calls[id], timedOut)
    ensures id < |Next(s, step).calls|
    ensures Reckoned(Next(s, step).calls[id], timedOut || TimesOut(s, step, id))
  {
    match step
    case Invoke(_) =>
    case Take =>
    case Caller(c, act) => CallerReckoned(s.calls[id], act, |s.enqueued|, s.clock, timedOut);
    case Work(act) =>
      if s.worker.Busy? && s.worker.call < |s.calls| {
        WorkerLeavesCaller(s.calls[s.worker.call], act, s.worker.stage, s.worker.inline != [], s.clock);
      }
  }

  // A call that is new in this step.
  lemma NewReckoned(s: State, step: Step, id: nat)
    requires |s.calls| <= id < |Next(s, step).calls|
    ensures Reckoned(Next(s, step).calls[id], false) && !TimesOut(s, step, id)
  {
  }

  lemma {:induction false} ExecReckoned(s: State, steps: seq<Step>, id: nat, timedOut: bool)
    requires id < |s.calls| ==> Reckoned(s.calls[id], timedOut)
    requires id >= |s.calls| ==> !timedOut
    ensures id < |Exec(s, steps).calls| ==> Reckoned(Exec(s, steps).calls[id], timedOut || EverTimesOut(s, steps, id))
    decreases |steps|
  {
    if steps != [] {
      var n := Next(s, steps[0]);
      if id < |s.calls| {
        StepReckoned(s, steps[0], id, timedOut);
      } else if id < |n.calls| {
        NewReckoned(s, steps[0], id);
      }
      ExecReckoned(n, steps[1..], id, timedOut || TimesOut(s, steps[0], id));
    }
  }

  lemma WaitedIsOver(c: Call, place: Place, clock: nat)
    requires CallInv(c, place, clock) && c.kind == Blocking && c.caller.Returned?
    ensures c.caller.waited ==> c.ended.Some? && c.outcome.Some?
    ensures c.caller.success <==> c.caller.waited && c.outcome.Some? && c.outcome.value.Value?
    ensures c.caller.retVal == if c.caller.success then Some(c.outcome.value.v) else None
  {
  }

  /** In every interleaving a blocking call that has returned reports success if and only if
      it was queued, its wait did not time out, and its operation returned a value, and then
      it returns that value; a call that was refused by the queue or timed out, or whose
      operation threw, reports none. */
  lemma SuccessIff(steps: seq<Step>, id: nat)
    requires var s := Exec(INIT, steps);
             id < |s.calls| && s.calls[id].kind == Blocking && s.calls[id].caller.Returned?
    ensures var c := Exec(INIT, steps).calls[id];
            var ended := c.ticket.Some? && !EverTimesOut(INIT, steps, id);
            && (ended ==> c.outcome.Some?)
            && (c.caller.success <==> ended && c.outcome.value.Value?)
            && c.caller.retVal == if ended && c.outcome.value.Value? then Some(c.outcome.value.v) else None
  {
    ReachableCall(steps, id);
    ExecReckoned(INIT, steps, id, false);
    var s := Exec(INIT, steps);
    WaitedIsOver(s.calls[id], PlaceOf(s, id), s.clock);
  }

  // ---------------------------------------------------------------- nobody waits for ever

  // A caller that still waits when the worker is through with its call has been signalled.
  ghost predicate Notified(c: Call, place: Place) {
    c.kind == Blocking && c.caller == Waiting && place in {Current(Leaving), Over} ==> c.shared.signaled
  }

  ghost predicate AllNotified(s: State) {
    forall id {:trigger PlaceOf(s, id)} | 0 <= id < |s.calls| :: Notified(s.calls[id], PlaceOf(s, id))
  }

  ghost predicate Sound(s: State) {
    Inv(s) && AllNotified(s)
  }

  lemma CallerNotified(c: Call, place: Place, act: CallerAct, ticket: nat, clock: nat)
    requires CallInv(c, place, clock) && Notified(c, place)
    ensures Notified(OnCaller(c, act, ticket, clock), place)
  {
  }

  lemma WorkerNotified(c: Call, stage: Stage, act: WorkerAct, inlineOpen: bool, clock: nat)
    requires CallInv(c, Current(stage), clock) && Notified(c, Current(stage))
    ensures var (c', next) := OnWorker(c, act, stage, inlineOpen, clock); Notified(c', PlaceAfter(next))
  {
  }

  lemma CallerKeepsSound(s: State, id: nat, act: CallerAct)
    requires Sound(s)
    ensures Sound(Next(s, Caller(id, act)))
  {
    var s' := Next(s, Caller(id, act));
    CallerKeepsInv(s, id, act);
    if id < |s.calls| {
      OnCallerInv(s.calls[id], PlaceOf(s, id), act, |s.enqueued|, s.clock);
      CallerKeepsQueue(s, id, act);
      CallerNotified(s.calls[id], PlaceOf(s, id), act, |s.enqueued|, s.clock);
    }
    forall i | 0 <= i < |s'.calls| ensures Notified(s'.calls[i], PlaceOf(s', i)) {
      assert Notified(s.calls[i], PlaceOf(s, i));
      if i != id {
        assert PlaceOf(s', i) == PlaceOf(s, i);
      }
    }
  }

  lemma TakeKeepsSound(s: State)
    requires Sound(s)
    ensures Sound(Next(s, Take))
  {
    var s' := Next(s, Take);
    TakeKeepsInv(s);
    forall i | 0 <= i < |s'.calls| ensures Notified(s'.calls[i], PlaceOf(s', i)) {
      assert Notified(s.calls[i], PlaceOf(s, i));
    }
  }

  lemma InvokeKeepsSound(s: State, kind: Kind)
    requires Sound(s)
    ensures Sound(Next(s, Invoke(kind)))
  {
    var s' := Next(s, Invoke(kind));
    InvokeKeepsInv(s, kind);
    forall i | 0 <= i < |s'.calls| ensures Notified(s'.calls[i], PlaceOf(s', i)) {
      if i < |s.calls| {
        assert Notified(s.calls[i], PlaceOf(s, i)) && PlaceOf(s', i) == PlaceOf(s, i);
      }
    }
  }

  lemma ActKeepsNotified(s: State, act: WorkerAct)
    requires Sound(s) && s.worker.Busy? && !act.InlineStart? && !act.InlineEnd?
    ensures AllNotified(Next(s, Work(act)))
  {
    var s', id := Next(s, Work(act)), s.worker.call;
    assert PlaceOf(s, id) == Current(s.worker.stage);
    WorkerNotified(s.calls[id], s.worker.stage, act, s.worker.inline != [], s.clock);
    OnWorkerHistory(s.calls[id], s.worker.stage, act, s.worker.inline != [], s.clock);
    forall i | 0 <= i < |s'.calls| ensures Notified(s'.calls[i], PlaceOf(s', i)) {
      if i != id {
        assert Notified(s.calls[i], PlaceOf(s, i)) && PlaceOf(s', i) == PlaceOf(s, i);
      }
    }
  }

  lemma InlineKeepsNotified(s: State, act: WorkerAct)
    requires Sound(s) && s.worker.Busy? && (act.InlineStart? || act.InlineEnd?)
    ensures AllNotified(Next(s, Work(act)))
  {
    var s' := Next(s, Work(act));
    forall i | 0 <= i < |s'.calls| ensures Notified(s'.calls[i], PlaceOf(s', i)) {
      if i < |s.calls| {
        assert Notified(s.calls[i], PlaceOf(s, i)) && PlaceOf(s', i) == PlaceOf(s, i);
      }
    }
  }

  lemma WorkKeepsSound(s: State, act: WorkerAct)
    requires Sound(s)
    ensures Sound(Next(s, Work(act)))
  {
    NextKeepsInv(s, Work(act));
    if s.worker.Busy? {
      if act.InlineStart? || act.InlineEnd? {
        InlineKeepsNotified(s, act);
      } else {
        ActKeepsNotified(s, act);
      }
    } else {
      var s' := Next(s, Work(act));
      forall i | 0 <= i < |s'.calls| ensures Notified(s'.calls[i], PlaceOf(s', i)) {
        assert Notified(s.calls[i], PlaceOf(s, i));
      }
    }
  }

  lemma NextKeepsSound(s: State, step: Step)
    requires Sound(s)
    ensures Sound(Next(s, step))
  {
    match step
    case Invoke(kind) => InvokeKeepsSound(s, kind);
    case Caller(id, act) => CallerKeepsSound(s, id, act);
    case Take => TakeKeepsSound(s);
    case Work(act) => WorkKeepsSound(s, act);
  }

  lemma {:induction false} ExecKeepsSound(s: State, steps: seq<Step>)
    requires Sound(s)
    ensures Sound(Exec(s, steps))
    decreases |steps|
  {
    if steps != [] {
      NextKeepsSound(s, steps[0]);
      ExecKeepsSound(Next(s, steps[0]), steps[1..]);
    }
  }

  // The call has the same ticket as before, and its caller stands where it stood or has
  // returned.
  ghost predicate Stays(s: State, t: State, id: nat) {
    && id < |s.calls| && id < |t.calls| && t.calls[id].kind == s.calls[id].kind && t.calls[id].ticket == s.calls[id].ticket
    && (t.calls[id].caller == s.calls[id].caller || t.calls[id].caller.Returned?)
  }

  function Rank(stage: Stage): nat {
    match stage
    case Taken => 5
    case Entered => 4
    case Running => 3
    case Ending => 2
    case Leaving => 1
  }

  // How far the worker is from being idle.
  function Distance(s: State): nat {
    if s.worker.Idle? then 0 else 2 * Rank(s.worker.stage) + if LockHeld(s) then 1 else 0
  }

  // The worker's next call is locked by its caller, who is about to return.
  predicate LockHeld(s: State) {
    s.worker.Busy? && s.worker.stage == Taken && s.worker.call < |s.calls|
    && s.calls[s.worker.call].kind == Blocking && s.calls[s.worker.call].caller.Holding?
  }

  function InlineOpen(s: State): nat {
    if s.worker.Busy? then |s.worker.inline| else 0
  }

  // The next step of the worker, or of the caller that keeps it waiting.
  function NextOfWorker(s: State): Step
    requires s.worker.Busy?
  {
    match s.worker.stage
    case Taken => if LockHeld(s) then Caller(s.worker.call, Finish) else Work(Enter)
    case Entered => Work(Check)
    case Running => if s.worker.inline == [] then Work(End(Value(0))) else Work(InlineEnd(Value(0)))
    case Ending => Work(Signal)
    case Leaving => Work(Leave)
  }

  lemma WorkerGoesOn(s: State)
    requires Inv(s) && s.worker.Busy?
    ensures var t := Next(s, NextOfWorker(s));
            && (Distance(t) < Distance(s) || (Distance(t) == Distance(s) && InlineOpen(t) < InlineOpen(s)))
            && t.taken == s.taken && t.enqueued == s.enqueued
  {
    var c := s.calls[s.worker.call];
    assert PlaceOf(s, s.worker.call) == Current(s.worker.stage);
    NotInline(c, s.worker.stage, s.clock);
    if s.worker.stage == Running && s.worker.inline != [] {
      var inline := s.worker.inline;
      assert s.calls[inline[|inline| - 1]].kind == Inline;
    } else if LockHeld(s) {
      Finished(c, s.clock, |s.enqueued|);
    } else {
      ActGoesOn(c, s.worker.stage, s.clock);
    }
  }

  lemma NotInline(c: Call, stage: Stage, clock: nat)
    requires CallInv(c, Current(stage), clock)
    ensures c.kind != Inline && (c.kind == Future ==> stage in {Taken, Running})
  {
  }

  lemma Finished(c: Call, clock: nat, ticket: nat)
    requires c.caller.Holding?
    ensures var c' := OnCaller(c, Finish, ticket, clock); c'.caller.Returned? && c'.ticket == c.ticket && c'.kind == c.kind
  {
  }

  lemma ActGoesOn(c: Call, stage: Stage, clock: nat)
    requires CallInv(c, Current(stage), clock)
    requires stage == Taken && c.kind == Blocking ==> !c.caller.Holding?
    ensures var act := match stage case Taken => Enter case Entered => Check case Running => End(Value(0))
                                   case Ending => Signal case Leaving => Leave;
            var next := OnWorker(c, act, stage, false, clock).1;
            next.None? || Rank(next.value) < Rank(stage)
  {
  }

  // The worker's steps leave callers where they are, and time out nobody.
  lemma WorkerStepStays(s: State, id: nat)
    requires Inv(s) && s.worker.Busy? && id < |s.calls|
    ensures Stays(s, Next(s, NextOfWorker(s)), id) && !TimesOut(s, NextOfWorker(s), id)
  {
    var step := NextOfWorker(s);
    if LockHeld(s) {
      Finished(s.calls[s.worker.call], s.clock, |s.enqueued|);
    } else {
      WorkerLeavesCaller(s.calls[s.worker.call], step.work, s.worker.stage, s.worker.inline != [], s.clock);
    }
  }

  lemma Prepended(s: State, first: Step, rest: seq<Step>, id: nat)
    ensures Exec(s, [first] + rest) == Exec(Next(s, first), rest)
    ensures EverTimesOut(s, [first] + rest, id) <==> TimesOut(s, first, id) || EverTimesOut(Next(s, first), rest, id)
  {
    assert ([first] + rest)[1..] == rest;
  }

  lemma {:induction false} Joined(s: State, a: seq<Step>, b: seq<Step>, id: nat)
    ensures Exec(s, a + b) == Exec(Exec(s, a), b)
    ensures EverTimesOut(s, a + b, id) <==> EverTimesOut(s, a, id) || EverTimesOut(Exec(s, a), b, id)
    decreases |a|
  {
    if a == [] {
      assert a + b == b;
    } else {
      assert (a + b)[1..] == a[1..] + b;
      Joined(Next(s, a[0]), a[1..], b, id);
    }
  }

  // The worker comes to the end of its call.
  lemma {:induction false} BecomesIdle(s: State, id: nat) returns (more: seq<Step>)
    requires Sound(s) && id < |s.calls|
    ensures var t := Exec(s, more);
            && Sound(t) && t.worker.Idle? && t.taken == s.taken && t.enqueued == s.enqueued
            && Stays(s, t, id) && !EverTimesOut(s, more, id)
    decreases Distance(s), InlineOpen(s)
  {
    if s.worker.Idle? {
      more := [];
    } else {
      var step := NextOfWorker(s);
      NextKeepsSound(s, step);
      WorkerGoesOn(s);
      WorkerStepStays(s, id);
      var rest := BecomesIdle(Next(s, step), id);
      Prepended(s, step, rest, id);
      more := [step] + rest;
    }
  }

  lemma TakeStays(s: State, id: nat)
    requires id < |s.calls|
    ensures Stays(s, Next(s, Take), id)
  {
  }

  // The worker comes to the call with a given ticket, and is through with it.
  lemma {:induction false} ComesPast(s: State, id: nat, ticket: nat) returns (more: seq<Step>)
    requires Sound(s) && id < |s.calls| && ticket < |s.enqueued|
    ensures var t := Exec(s, more);
            && Sound(t) && t.worker.Idle? && t.taken > ticket
            && Stays(s, t, id) && !EverTimesOut(s, more, id)
    decreases if s.taken <= ticket then ticket + 1 - s.taken else 0
  {
    var idle := BecomesIdle(s, id);
    var t := Exec(s, idle);
    if t.taken > ticket {
      more := idle;
    } else {
      NextKeepsSound(t, Take);
      TakeStays(t, id);
      var rest := ComesPast(Next(t, Take), id, ticket);
      Prepended(t, Take, rest, id);
      Joined(s, idle, [Take] + rest, id);
      more := idle + ([Take] + rest);
    }
  }

  // ---------------------------------------------------------------- the end of a call

  lemma Unlocked(c: Call, place: Place, clock: nat)
    requires CallInv(c, place, clock) && c.kind == Blocking && !HasLock(place)
    ensures !c.locked
  {
  }

  lemma WaitingIsSignalled(c: Call, clock: nat)
    requires CallInv(c, Over, clock) && Notified(c, Over) && c.kind == Blocking && c.caller == Waiting
    ensures c.shared.signaled
  {
  }

  // A caller whose wait is over takes the lock and returns.
  lemma WokenReturns(s: State, id: nat) returns (more: seq<Step>)
    requires Sound(s) && s.worker.Idle? && id < |s.calls| && s.calls[id].kind == Blocking && s.calls[id].caller.Woke?
    ensures var t := Exec(s, more); id < |t.calls| && t.calls[id].caller.Returned? && !EverTimesOut(s, more, id)
  {
    Unlocked(s.calls[id], PlaceOf(s, id), s.clock);
    var held := Next(s, Caller(id, Lock));
    Prepended(held, Caller(id, Finish), [], id);
    Prepended(s, Caller(id, Lock), [Caller(id, Finish)], id);
    more := [Caller(id, Lock), Caller(id, Finish)];
    assert more == [Caller(id, Lock)] + [Caller(id, Finish)] && [Caller(id, Finish)] == [Caller(id, Finish)] + [];
  }

  // A caller that waits is signalled, once the worker has come past its call.
  lemma WaitingReturns(s: State, id: nat) returns (more: seq<Step>)
    requires Sound(s) && s.worker.Idle? && id < |s.calls| && s.calls[id].kind == Blocking
    requires s.calls[id].caller == Waiting && s.calls[id].ticket.Some? && s.calls[id].ticket.value < s.taken
    ensures var t := Exec(s, more); id < |t.calls| && t.calls[id].caller.Returned? && !EverTimesOut(s, more, id)
  {
    assert PlaceOf(s, id) == Over;
    WaitingIsSignalled(s.calls[id], s.clock);
    NextKeepsSound(s, Caller(id, Wake));
    var rest := WokenReturns(Next(s, Caller(id, Wake)), id);
    Prepended(s, Caller(id, Wake), rest, id);
    more := [Caller(id, Wake)] + rest;
  }

  // What Reckoned says of one that waits.
  lemma WaitingHasTicket(steps: seq<Step>, id: nat)
    requires var s := Exec(INIT, steps); id < |s.calls| && s.calls[id].kind == Blocking && s.calls[id].caller == Waiting
    ensures Exec(INIT, steps).calls[id].ticket.Some?
  {
    ExecReckoned(INIT, steps, id, false);
  }

  lemma Queued(s: State, id: nat) returns (more: seq<Step>)
    requires Sound(s) && id < |s.calls| && s.calls[id].kind == Blocking
    requires s.calls[id].caller == Waiting && s.calls[id].ticket.Some?
    ensures var t := Exec(s, more); id < |t.calls| && t.calls[id].caller.Returned? && !EverTimesOut(s, more, id)
  {
    var ticket := s.calls[id].ticket.value;
    more := ComesPast(s, id, ticket);
    var t := Exec(s, more);
    if !t.calls[id].caller.Returned? {
      var rest := WaitingReturns(t, id);
      Joined(s, more, rest, id);
      more := more + rest;
    }
  }

  lemma Ends(s: State, id: nat) returns (more: seq<Step>)
    requires Sound(s) && id < |s.calls| && s.calls[id].kind == Blocking
    requires s.calls[id].caller == Waiting ==> s.calls[id].ticket.Some?
    ensures var t := Exec(s, more); id < |t.calls| && t.calls[id].caller.Returned? && !EverTimesOut(s, more, id)
  {
    match s.calls[id].caller
    case Returned(_, _, _) => more := [];
    case Holding(_) =>
      Prepended(s, Caller(id, Finish), [], id);
      more := [Caller(id, Finish)];
      assert more == [Caller(id, Finish)] + [];
    case Woke(_) =>
      more := BecomesIdle(s, id);
      var t := Exec(s, more);
      if !t.calls[id].caller.Returned? {
        var rest := WokenReturns(t, id);
        Joined(s, more, rest, id);
        more := more + rest;
      }
    case Waiting => more := Queued(s, id);
    case Calling =>
      NextKeepsSound(s, Caller(id, Dispatch(true)));
      var rest := Queued(Next(s, Caller(id, Dispatch(true))), id);
      Prepended(s, Caller(id, Dispatch(true)), rest, id);
      more := [Caller(id, Dispatch(true))] + rest;
  }

  lemma FutureOver(c: Call, clock: nat)
    requires CallInv(c, Over, clock) && c.kind == Future
    ensures c.outcome.Some? && c.promise == [c.outcome.value]
  {
  }

  /** From every state that a run can reach, the promise of a future that has been queued can
      still be fulfilled. */
  lemma FutureIsFulfilled(steps: seq<Step>, id: nat) returns (more: seq<Step>)
    requires var s := Exec(INIT, steps); id < |s.calls| && s.calls[id].kind == Future && s.calls[id].ticket.Some?
    ensures var t := Exec(Exec(INIT, steps), more); id < |t.calls| && |t.calls[id].promise| == 1
  {
    ExecKeepsSound(INIT, steps);
    var s := Exec(INIT, steps);
    more := ComesPast(s, id, s.calls[id].ticket.value);
    var t := Exec(s, more);
    assert PlaceOf(t, id) == Over;
    FutureOver(t.calls[id], t.clock);
  }

  /** Nobody waits for ever on a lock or on the semaphore: from every state that a run can
      reach, every blocking call can still return without its wait timing out. */
  lemma CanReturn(steps: seq<Step>, id: nat) returns (more: seq<Step>)
    requires var s := Exec(INIT, steps); id < |s.calls| && s.calls[id].kind == Blocking
    ensures var s := Exec(INIT, steps);
            var t := Exec(s, more);
            id < |t.calls| && t.calls[id].caller.Returned? && !EverTimesOut(s, more, id)
  {
    ExecKeepsSound(INIT, steps);
    var s := Exec(INIT, steps);
    if s.calls[id].caller == Waiting {
      WaitingHasTicket(steps, id);
    }
    more := Ends(s, id);
  }

  // ---------------------------------------------------------------- a call from end to end

  // A blocking call that the worker reaches in time, with one call that its operation makes
  // from the worker.
  function WholeCall(v: int, inner: Outcome): seq<Step> {
    [Invoke(Blocking), Caller(0, Dispatch(true)), Take, Work(Enter), Work(Check), Work(InlineStart),
     Work(InlineEnd(inner)), Work(End(Value(v))), Work(Signal), Work(Leave), Caller(0, Wake), Caller(0, Lock),
     Caller(0, Finish)]
  }

  /** Such a call reports success with its operation's value; the inner call has ended with
      its own outcome, inside it. */
  lemma WholeCallSucceeds(v: int, inner: Outcome)
    ensures var s := Exec(INIT, WholeCall(v, inner));
            && |s.calls| == 2 && s.worker == Idle && s.calls[0].kind == Blocking && s.calls[1].kind == Inline
            && s.calls[0].caller == Returned(true, true, Some(v)) && s.calls[0].outcome == Some(Value(v))
            && s.calls[1].parent == 0 && s.calls[1].outcome == Some(inner)
            && s.calls[0].started.Some? && s.calls[1].started.Some? && s.calls[1].ended.Some? && s.calls[0].ended.Some?
            && s.calls[0].started.value < s.calls[1].started.value < s.calls[1].ended.value < s.calls[0].ended.value
  {
    var first := [Invoke(Blocking), Caller(0, Dispatch(true)), Take, Work(Enter), Work(Check)];
    var middle := [Work(InlineStart), Work(InlineEnd(inner)), Work(End(Value(v)))];
    var last := [Work(Signal), Work(Leave), Caller(0, Wake), Caller(0, Lock), Caller(0, Finish)];
    assert WholeCall(v, inner) == first + (middle + last);
    Joined(INIT, first, middle + last, 0);
    Joined(Exec(INIT, first), middle, last, 0);
    Begun();
    InTheMiddle(v, inner);
    AtTheEnd(v, inner);
  }

  function BegunState(): State {
    State([NewCall(Blocking, 0).(caller := Waiting, ticket := Some(0), locked := true, starts := 1, started := Some(4))],
          [0], 1, Busy(0, Running, []), 5)
  }

  lemma {:induction false} FiveSteps(s: State, a: Step, b: Step, c: Step, d: Step, e: Step)
    ensures Exec(s, [a, b, c, d, e]) == Next(Next(Next(Next(Next(s, a), b), c), d), e)
  {
    Prepended(s, a, [b, c, d, e], 0);
    Prepended(Next(s, a), b, [c, d, e], 0);
    Prepended(Next(Next(s, a), b), c, [d, e], 0);
    Prepended(Next(Next(Next(s, a), b), c), d, [e], 0);
    Prepended(Next(Next(Next(Next(s, a), b), c), d), e, [], 0);
    assert [a, b, c, d, e] == [a] + [b, c, d, e] && [b, c, d, e] == [b] + [c, d, e];
    assert [c, d, e] == [c] + [d, e] && [d, e] == [d] + [e] && [e] == [e] + [];
  }

  lemma {:induction false} ThreeSteps(s: State, a: Step, b: Step, c: Step)
    ensures Exec(s, [a, b, c]) == Next(Next(Next(s, a), b), c)
  {
    Prepended(s, a, [b, c], 0);
    Prepended(Next(s, a), b, [c], 0);
    Prepended(Next(Next(s, a), b), c, [], 0);
    assert [a, b, c] == [a] + [b, c] && [b, c] == [b] + [c] && [c] == [c] + [];
  }

  lemma {:induction false} Begun()
    ensures Exec(INIT, [Invoke(Blocking), Caller(0, Dispatch(true)), Take, Work(Enter), Work(Check)]) == BegunState()
  {
    FiveSteps(INIT, Invoke(Blocking), Caller(0, Dispatch(true)), Take, Work(Enter), Work(Check));
    var c := NewCall(Blocking, 0);
    var s1 := Next(INIT, Invoke(Blocking));
    assert s1 == State([c], [], 0, Idle, 1);
    var s2 := Next(s1, Caller(0, Dispatch(true)));
    var queued := c.(caller := Waiting, ticket := Some(0));
    assert s2 == State([queued], [0], 0, Idle, 2);
    var s3 := Next(s2, Take);
    assert s3 == State([queued], [0], 1, Busy(0, Taken, []), 3);
    var s4 := Next(s3, Work(Enter));
    assert s4 == State([queued.(locked := true)], [0], 1, Busy(0, Entered, []), 4);
  }

  function InnerCall(inner: Outcome): Call {
    NewCall(Inline, 5).(started := Some(5), starts := 1, parent := 0, ended := Some(6), outcome := Some(inner))
  }

  function EndedState(v: int, inner: Outcome): State {
    var c := BegunState().calls[0];
    State([c.(ended := Some(7), outcome := Some(Value(v)), shared := EndRegion(c.shared, Value(v))), InnerCall(inner)],
          [0], 1, Busy(0, Ending, []), 8)
  }

  lemma {:induction false} InTheMiddle(v: int, inner: Outcome)
    ensures Exec(BegunState(), [Work(InlineStart), Work(InlineEnd(inner)), Work(End(Value(v)))]) == EndedState(v, inner)
  {
    ThreeSteps(BegunState(), Work(InlineStart), Work(InlineEnd(inner)), Work(End(Value(v))));
    var c, none: seq<nat> := BegunState().calls[0], [];
    var s1 := Next(BegunState(), Work(InlineStart));
    assert none + [1] == [1];
    assert s1.calls == [c, NewCall(Inline, 5).(started := Some(5), starts := 1, parent := 0)];
    assert s1.worker == Busy(0, Running, [1]);
    var s2 := Next(s1, Work(InlineEnd(inner)));
    assert [1][..0] == none;
    assert s2.calls == [c, InnerCall(inner)] && s2.worker == Busy(0, Running, []);
    assert Next(s2, Work(End(Value(v)))).calls == EndedState(v, inner).calls;
  }

  lemma {:induction false} AtTheEnd(v: int, inner: Outcome)
    ensures var s := Exec(EndedState(v, inner), [Work(Signal), Work(Leave), Caller(0, Wake), Caller(0, Lock), Caller(0, Finish)]);
            var c := EndedState(v, inner).calls[0];
            && s.worker == Idle && |s.calls| == 2 && s.calls[1] == InnerCall(inner)
            && s.calls[0].kind == Blocking && s.calls[0].caller == Returned(true, true, Some(v))
            && s.calls[0].outcome == Some(Value(v)) && s.calls[0].started == c.started && s.calls[0].ended == c.ended
  {
    var s0 := EndedState(v, inner);
    FiveSteps(s0, Work(Signal), Work(Leave), Caller(0, Wake), Caller(0, Lock), Caller(0, Finish));
    var c := s0.calls[0];
    var s1 := Next(s0, Work(Signal));
    assert s1 == s0.(calls := s0.calls[0 := c.(shared := c.shared.(signaled := true))], worker := Busy(0, Leaving, []), clock := 9);
    var s2 := Next(s1, Work(Leave));
    assert s2.worker == Idle && s2.calls == s0.calls[0 := c.(shared := c.shared.(signaled := true), locked := false)];
    var s3 := Next(s2, Caller(0, Wake));
    assert s3.calls == s0.calls[0 := c.(locked := false, caller := Woke(true))];
    var s4 := Next(s3, Caller(0, Lock));
    assert s4.calls == s0.calls[0 := c.(locked := false, caller := Holding(true))];
  }
}
