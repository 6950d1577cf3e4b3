/** What the database becomes. An operation is what it makes of the database and what it
    returns or throws; the calls that it makes inline from the worker are part of it. Since
    operations run one at a time, all effects can be taken to happen when the operation
    ends. Every run of the worker is then one after the other, in queue order. */
module SqliteDatabase {
  import opened Common
  import opened AsyncWaits
  import opened SqliteWorker

  // The operation of each call, by its number.
  datatype Operations<!DB> = Operations(effect: (nat, DB) -> DB, result: (nat, DB) -> Outcome)

  // A queued operation ends.
  predicate EndsQueued(s: State, step: Step) {
    step.Work? && step.work.End? && s.worker.Busy? && s.worker.call < |s.calls|
    && s.worker.stage == Running && s.worker.inline == []
  }

  function DatabaseNext<DB>(ops: Operations<DB>, db: DB, s: State, step: Step): DB {
    if EndsQueued(s, step) then ops.effect(s.worker.call, db) else db
  }

  function DatabaseAfter<DB>(ops: Operations<DB>, db: DB, s: State, steps: seq<Step>): DB
    decreases |steps|
  {
    if steps == [] then db
    else DatabaseAfter(ops, DatabaseNext(ops, db, s, steps[0]), Next(s, steps[0]), steps[1..])
  }

  // Each operation ends with what it returns or throws on the database as it is then.
  predicate GenuineStep<DB>(ops: Operations<DB>, db: DB, s: State, step: Step) {
    EndsQueued(s, step) ==> step.work.outcome == ops.result(s.worker.call, db)
  }

  ghost predicate Genuine<DB(!new)>(ops: Operations<DB>, db: DB, s: State, steps: seq<Step>)
    decreases |steps|
  {
    steps == [] ||
    (&& GenuineStep(ops, db, s, steps[0])
     && Genuine(ops, DatabaseNext(ops, db, s, steps[0]), Next(s, steps[0]), steps[1..]))
  }

  // ---------------------------------------------------------------- one after the other

  // Those of the queue whose operations have ended, in queue order.
  function EndedOf(calls: seq<Call>, queue: seq<nat>): seq<nat> {
    if queue == [] then []
    else
      var last := queue[|queue| - 1];
      EndedOf(calls, queue[..|queue| - 1]) + if last < |calls| && calls[last].ended.Some? then [last] else []
  }

  function Executed(s: State): seq<nat> {
    EndedOf(s.calls, if s.taken <= |s.enqueued| then s.enqueued[..s.taken] else s.enqueued)
  }

  function Replay<DB>(ops: Operations<DB>, db: DB, ids: seq<nat>): DB {
    if ids == [] then db else ops.effect(ids[|ids| - 1], Replay(ops, db, ids[..|ids| - 1]))
  }

  // Each call's outcome is that of its operation after those before it.
  ghost predicate Sequential<DB(!new)>(ops: Operations<DB>, db: DB, calls: seq<Call>, ids: seq<nat>) {
    forall i | 0 <= i < |ids| ::
      ids[i] < |calls| && calls[ids[i]].outcome == Some(ops.result(ids[i], Replay(ops, db, ids[..i])))
  }

  // Calls in the queue end no operation in this step.
  ghost predicate SameEnds(s: State, s': State)
    requires QueueInv(s)
  {
    && |s.calls| <= |s'.calls| && s.taken <= s'.taken <= |s'.enqueued|
    && s.enqueued[..s.taken] == s'.enqueued[..s.taken]
    && (forall p | 0 <= p < s.taken ::
          var c, c' := s.calls[s.enqueued[p]], s'.calls[s.enqueued[p]];
          c'.ended == c.ended && c'.outcome == c.outcome)
    && (forall p | s.taken <= p < s'.taken ::
          s'.enqueued[p] < |s'.calls| && s'.calls[s'.enqueued[p]].ended == None)
  }

  lemma {:induction false} EndedSame(calls: seq<Call>, calls': seq<Call>, queue: seq<nat>)
    requires |calls| <= |calls'|
    requires forall p | 0 <= p < |queue| :: queue[p] < |calls| && calls'[queue[p]].ended == calls[queue[p]].ended
    ensures EndedOf(calls', queue) == EndedOf(calls, queue)
  {
    if queue != [] {
      EndedSame(calls, calls', queue[..|queue| - 1]);
    }
  }

  // Ids of the queue, each of them ended.
  lemma {:induction false} EndedFrom(calls: seq<Call>, queue: seq<nat>, i: nat) returns (p: nat)
    requires i < |EndedOf(calls, queue)|
    ensures p < |queue| && queue[p] == EndedOf(calls, queue)[i] < |calls| && calls[queue[p]].ended.Some?
  {
    var n := |queue| - 1;
    if i < |EndedOf(calls, queue[..n])| {
      p := EndedFrom(calls, queue[..n], i);
    } else {
      p := n;
    }
  }

  lemma CallerEndsNone(s: State, id: nat, act: CallerAct)
    requires QueueInv(s) && CallsInv(s)
    ensures SameEnds(s, Next(s, Caller(id, act)))
  {
    if id < |s.calls| {
      CallerChanges(s.calls[id], act, |s.enqueued|, s.clock);
    }
  }

  lemma CallerChanges(c: Call, act: CallerAct, ticket: nat, clock: nat)
    ensures var c' := OnCaller(c, act, ticket, clock); c'.ended == c.ended && c'.outcome == c.outcome
  {
  }

  lemma TakeEndsNone(s: State)
    requires Inv(s)
    ensures SameEnds(s, Next(s, Take))
  {
    if s.worker.Idle? && s.taken < |s.enqueued| {
      var id := s.enqueued[s.taken];
      assert PlaceOf(s, id) == NotTaken && s.calls[id].ticket == Some(s.taken);
      Unstarted(s.calls[id], s.clock);
      NotEnded(s.calls[id], s.clock);
    }
  }

  lemma NotEnded(c: Call, clock: nat)
    requires CallInv(c, NotTaken, clock) && c.ticket.Some?
    ensures c.ended == None
  {
  }

  lemma WorkerChanges(c: Call, act: WorkerAct, stage: Stage, inlineOpen: bool, clock: nat)
    requires !(act.End? && stage == Running && !inlineOpen)
    ensures var c' := OnWorker(c, act, stage, inlineOpen, clock).0; c'.ended == c.ended && c'.outcome == c.outcome
  {
  }

  lemma WorkEndsNone(s: State, act: WorkerAct)
    requires CallsInv(s) && QueueInv(s) && InlineInv(s) && !EndsQueued(s, Work(act))
    ensures SameEnds(s, Next(s, Work(act)))
  {
    if s.worker.Busy? && s.worker.call < |s.calls| {
      var id, stage, inline := s.worker.call, s.worker.stage, s.worker.inline;
      if act.InlineEnd? {
        InlineEndEndsNone(s, act);
      } else if !act.InlineStart? {
        WorkerChanges(s.calls[id], act, stage, inline != [], s.clock);
      }
    }
  }

  // An inline call is not in the queue.
  lemma InlineEndEndsNone(s: State, act: WorkerAct)
    requires CallsInv(s) && QueueInv(s) && InlineInv(s) && act.InlineEnd?
    ensures SameEnds(s, Next(s, Work(act)))
  {
    if s.worker.Busy? && s.worker.stage == Running && s.worker.inline != [] {
      var x := s.worker.inline[|s.worker.inline| - 1];
      NoTicket(s.calls[x], PlaceOf(s, x), s.clock);
      FinishEndsNone(s, s.worker.call, s.worker.inline, act.outcome);
    }
  }

  lemma NoTicket(c: Call, place: Place, clock: nat)
    requires CallInv(c, place, clock) && c.kind == Inline
    ensures c.ticket == None
  {
  }

  lemma FinishEndsNone(s: State, id: nat, inline: seq<nat>, outcome: Outcome)
    requires QueueInv(s) && inline != [] && inline[|inline| - 1] < |s.calls|
    requires s.calls[inline[|inline| - 1]].ticket == None
    ensures SameEnds(s, InlineFinish(s, id, inline, outcome).(clock := s.clock + 1))
  {
  }

  lemma StepEndsNone(s: State, step: Step)
    requires Inv(s) && !EndsQueued(s, step)
    ensures SameEnds(s, Next(s, step))
  {
    match step
    case Invoke(_) =>
    case Caller(id, act) => CallerEndsNone(s, id, act);
    case Take => TakeEndsNone(s);
    case Work(act) => WorkEndsNone(s, act);
  }

  lemma {:induction false} EndedSkips(calls: seq<Call>, queue: seq<nat>, n: nat)
    requires n <= |queue| && forall p | n <= p < |queue| :: queue[p] < |calls| && calls[queue[p]].ended == None
    ensures EndedOf(calls, queue) == EndedOf(calls, queue[..n])
  {
    if n < |queue| {
      assert queue[..|queue| - 1][..n] == queue[..n];
      EndedSkips(calls, queue[..|queue| - 1], n);
    } else {
      assert queue[..n] == queue;
    }
  }

  // Nothing is executed that was not, and nothing less.
  lemma ExecutedSame(s: State, s': State)
    requires QueueInv(s) && SameEnds(s, s')
    ensures Executed(s') == Executed(s)
  {
    var queue, queue' := s.enqueued[..s.taken], s'.enqueued[..s'.taken];
    assert queue'[..s.taken] == queue;
    EndedSkips(s'.calls, queue', s.taken);
    EndedSame(s.calls, s'.calls, queue);
  }

  // The operation that ends is the one taken last, and all before it have ended or never will.
  lemma ExecutedMore(s: State, step: Step)
    requires QueueInv(s) && EndsQueued(s, step) && CallInv(s.calls[s.worker.call], Current(Running), s.clock)
    ensures Executed(Next(s, step)) == Executed(s) + [s.worker.call] && s.calls[s.worker.call].ended == None
    ensures s.worker.call < |Next(s, step).calls| && Next(s, step).calls[s.worker.call].outcome == Some(step.work.outcome)
  {
    var id, n, s' := s.worker.call, s.taken - 1, Next(s, step);
    var queue := s.enqueued[..s.taken];
    assert queue[n] == id && queue[..n] == s.enqueued[..n];
    EndStep(s, step);
    forall p | 0 <= p < n ensures queue[p] < |s.calls| && s'.calls[queue[p]].ended == s.calls[queue[p]].ended {
      assert queue[p] != id;
    }
    EndedSame(s.calls, s'.calls, queue[..n]);
  }

  lemma EndStep(s: State, step: Step)
    requires EndsQueued(s, step) && CallInv(s.calls[s.worker.call], Current(Running), s.clock)
    ensures var id, s' := s.worker.call, Next(s, step);
            && |s'.calls| == |s.calls| && s'.calls == s.calls[id := s'.calls[id]]
            && s'.enqueued == s.enqueued && s'.taken == s.taken
            && s.calls[id].ended == None && s'.calls[id].ended.Some? && s'.calls[id].outcome == Some(step.work.outcome)
  {
    EndChanges(s.calls[s.worker.call], step.work.outcome, s.clock);
  }

  lemma EndChanges(c: Call, outcome: Outcome, clock: nat)
    requires CallInv(c, Current(Running), clock)
    ensures c.ended == None
    ensures var c' := OnWorker(c, End(outcome), Running, false, clock).0; c'.ended.Some? && c'.outcome == Some(outcome)
  {
  }

  // ---------------------------------------------------------------- runs

  // So far the database and all outcomes are those of the executed operations in order.
  ghost predicate InOrder<DB(!new)>(ops: Operations<DB>, start: DB, db: DB, s: State) {
    db == Replay(ops, start, Executed(s)) && Sequential(ops, start, s.calls, Executed(s))
  }

  lemma {:induction false} InOrderStep<DB(!new)>(ops: Operations<DB>, start: DB, db: DB, s: State, step: Step)
    requires Inv(s) && InOrder(ops, start, db, s) && GenuineStep(ops, db, s, step)
    ensures InOrder(ops, start, DatabaseNext(ops, db, s, step), Next(s, step))
  {
    if EndsQueued(s, step) {
      assert PlaceOf(s, s.worker.call) == Current(Running);
      EndInOrder(ops, start, db, s, step);
    } else {
      StepEndsNone(s, step);
      ExecutedSame(s, Next(s, step));
      OutcomesSame(ops, start, s, Next(s, step));
    }
  }

  lemma {:induction false} OutcomesSame<DB(!new)>(ops: Operations<DB>, start: DB, s: State, s': State)
    requires QueueInv(s) && SameEnds(s, s') && Sequential(ops, start, s.calls, Executed(s)) && Executed(s') == Executed(s)
    ensures Sequential(ops, start, s'.calls, Executed(s'))
  {
    var ids := Executed(s);
    forall i | 0 <= i < |ids|
      ensures ids[i] < |s'.calls| && s'.calls[ids[i]].outcome == Some(ops.result(ids[i], Replay(ops, start, ids[..i])))
    {
      var p := EndedFrom(s.calls, s.enqueued[..s.taken], i);
      assert s.enqueued[p] == ids[i];
    }
  }

  lemma {:induction false} EndInOrder<DB(!new)>(ops: Operations<DB>, start: DB, db: DB, s: State, step: Step)
    requires QueueInv(s) && EndsQueued(s, step) && CallInv(s.calls[s.worker.call], Current(Running), s.clock)
    requires InOrder(ops, start, db, s) && GenuineStep(ops, db, s, step)
    ensures InOrder(ops, start, DatabaseNext(ops, db, s, step), Next(s, step))
  {
    var ids, id, s' := Executed(s), s.worker.call, Next(s, step);
    ExecutedMore(s, step);
    assert (ids + [id])[..|ids|] == ids;
    forall i | 0 <= i < |ids + [id]|
      ensures (ids + [id])[i] < |s'.calls|
              && s'.calls[(ids + [id])[i]].outcome
                 == Some(ops.result((ids + [id])[i], Replay(ops, start, (ids + [id])[..i])))
    {
      if i < |ids| {
        assert (ids + [id])[..i] == ids[..i];
        var p := EndedFrom(s.calls, s.enqueued[..s.taken], i);
        assert ids[i] != id && s'.calls[ids[i]] == s.calls[ids[i]];
      }
    }
  }

  /** In every run in which each operation returns or throws what it does on the database
      as it finds it, the database and every outcome are those of the executed operations
      one after the other, in queue order. */
  lemma {:induction false} OneAfterTheOther<DB(!new)>(ops: Operations<DB>, start: DB, db: DB, s: State, steps: seq<Step>)
    requires Inv(s) && InOrder(ops, start, db, s) && Genuine(ops, db, s, steps)
    ensures InOrder(ops, start, DatabaseAfter(ops, db, s, steps), Exec(s, steps))
    decreases |steps|
  {
    if steps != [] {
      InOrderStep(ops, start, db, s, steps[0]);
      NextKeepsInv(s, steps[0]);
      OneAfterTheOther(ops, start, DatabaseNext(ops, db, s, steps[0]), Next(s, steps[0]), steps[1..]);
    }
  }

  // ---------------------------------------------------------------- linearizability

  // Queued calls whose operations have ended, by ascending ticket below `bound`.
  ghost predicate Ascending(s: State, ids: seq<nat>, bound: nat) {
    && (forall i | 0 <= i < |ids| ::
          ids[i] < |s.calls| && s.calls[ids[i]].ended.Some? && s.calls[ids[i]].ticket.Some?
          && s.calls[ids[i]].ticket.value < bound)
    && (forall i, j | 0 <= i < j < |ids| :: s.calls[ids[i]].ticket.value < s.calls[ids[j]].ticket.value)
  }

  lemma AscendingMore(s: State, ids: seq<nat>, bound: nat, id: nat)
    requires Ascending(s, ids, bound)
    requires id < |s.calls| && s.calls[id].ended.Some? && s.calls[id].ticket == Some(bound)
    ensures Ascending(s, ids + [id], bound + 1)
  {
  }

  // Executed operations stand in queue order.
  lemma {:induction false} ExecutedAscend(s: State, n: nat)
    requires QueueInv(s) && n <= |s.enqueued|
    ensures Ascending(s, EndedOf(s.calls, s.enqueued[..n]), n)
  {
    if n > 0 {
      ExecutedAscend(s, n - 1);
      assert s.enqueued[..n][..n - 1] == s.enqueued[..n - 1];
      var id := s.enqueued[n - 1];
      if s.calls[id].ended.Some? {
        AscendingMore(s, EndedOf(s.calls, s.enqueued[..n - 1]), n - 1, id);
      }
    }
  }

  lemma {:induction false} ExecutedAll(s: State, queue: seq<nat>, p: nat)
    requires p < |queue| && queue[p] < |s.calls| && s.calls[queue[p]].ended.Some?
    ensures queue[p] in EndedOf(s.calls, queue)
  {
    if p < |queue| - 1 {
      ExecutedAll(s, queue[..|queue| - 1], p);
    }
  }

  // An operation that was over before another was called comes before it.
  ghost predicate RealTime(s: State, ids: seq<nat>) {
    forall i, j | 0 <= i < |ids| && 0 <= j < |ids| ::
      && ids[i] < |s.calls| && ids[j] < |s.calls|
      && (s.calls[ids[i]].ended.Some? && s.calls[ids[i]].ended.value < s.calls[ids[j]].invoked ==> i < j)
  }

  lemma EndedCall(c: Call, place: Place, clock: nat)
    requires CallInv(c, place, clock) && c.ended.Some?
    ensures c.started.Some? && c.invoked <= c.started.value < c.ended.value
    ensures c.ticket.Some? ==> place != NotTaken
  {
  }

  lemma KeepsRealTime(s: State)
    requires Inv(s)
    ensures RealTime(s, Executed(s))
  {
    var ids := Executed(s);
    ExecutedAscend(s, s.taken);
    forall i, j | 0 <= i < |ids| && 0 <= j < |ids|
      ensures ids[i] < |s.calls| && ids[j] < |s.calls|
      ensures s.calls[ids[i]].ended.Some? && s.calls[ids[i]].ended.value < s.calls[ids[j]].invoked ==> i < j
    {
      EndedCall(s.calls[ids[i]], PlaceOf(s, ids[i]), s.clock);
      EndedCall(s.calls[ids[j]], PlaceOf(s, ids[j]), s.clock);
      if j < i {
        InTicketOrder(s, ids[j], ids[i]);
      }
    }
  }

  lemma InTicketOrder(s: State, a: nat, b: nat)
    requires QueueInv(s) && OrderInv(s) && a < |s.calls| && b < |s.calls|
    requires s.calls[a].ticket.Some? && s.calls[b].ticket.Some?
    requires s.calls[a].ticket.value < s.calls[b].ticket.value < s.taken
    ensures Precedes(s.calls[a], s.calls[b])
  {
    assert s.enqueued[s.calls[a].ticket.value] == a && s.enqueued[s.calls[b].ticket.value] == b;
  }

  // The order is complete, without repetition, and what blocking calls return agrees with it.
  ghost predicate Complete(s: State, ids: seq<nat>) {
    Distinct(ids) && forall id | 0 <= id < |s.calls| && s.calls[id].kind != Inline :: s.calls[id].ended.Some? <==> id in ids
  }

  ghost predicate Returns<DB(!new)>(ops: Operations<DB>, start: DB, calls: seq<Call>, ids: seq<nat>) {
    forall i | 0 <= i < |ids| && ids[i] < |calls| && calls[ids[i]].kind == Blocking
               && calls[ids[i]].caller.Returned? && calls[ids[i]].caller.success ::
      var result := ops.result(ids[i], Replay(ops, start, ids[..i]));
      result.Value? && calls[ids[i]].caller.retVal == Some(result.v)
  }

  lemma ExecutedComplete(s: State)
    requires Inv(s)
    ensures Complete(s, Executed(s))
  {
    ExecutedAscend(s, s.taken);
    AscendingDistinct(s, Executed(s), s.taken);
    forall id | 0 <= id < |s.calls| && s.calls[id].kind != Inline
      ensures s.calls[id].ended.Some? <==> id in Executed(s)
    {
      EndedIsExecuted(s, id);
    }
  }

  lemma AscendingDistinct(s: State, ids: seq<nat>, bound: nat)
    requires Ascending(s, ids, bound)
    ensures Distinct(ids) && forall id | id in ids :: id < |s.calls| && s.calls[id].ended.Some?
  {
  }

  lemma EndedIsExecuted(s: State, id: nat)
    requires Inv(s) && id < |s.calls| && s.calls[id].kind != Inline
    ensures s.calls[id].ended.Some? <==> id in Executed(s)
  {
    ExecutedAscend(s, s.taken);
    AscendingDistinct(s, Executed(s), s.taken);
    if s.calls[id].ended.Some? {
      StartedHasTicket(s.calls[id], PlaceOf(s, id), s.clock);
      TakenHasTicket(s, id);
      var p := s.calls[id].ticket.value;
      assert s.enqueued[..s.taken][p] == id;
      ExecutedAll(s, s.enqueued[..s.taken], p);
    }
  }

  lemma ReturnedValue(c: Call, place: Place, clock: nat)
    requires CallInv(c, place, clock) && c.kind == Blocking && c.caller.Returned? && c.caller.success
    ensures c.outcome.Some? && c.outcome.value.Value? && c.caller.retVal == Some(c.outcome.value.v)
  {
  }

  lemma {:induction false} ReturnsFollow<DB(!new)>(ops: Operations<DB>, start: DB, s: State)
    requires CallsInv(s) && Sequential(ops, start, s.calls, Executed(s))
    ensures Returns(ops, start, s.calls, Executed(s))
  {
    var ids := Executed(s);
    forall i | 0 <= i < |ids| && ids[i] < |s.calls| && s.calls[ids[i]].kind == Blocking
               && s.calls[ids[i]].caller.Returned? && s.calls[ids[i]].caller.success
      ensures var result := ops.result(ids[i], Replay(ops, start, ids[..i]));
              result.Value? && s.calls[ids[i]].caller.retVal == Some(result.v)
    {
      ReturnedValue(s.calls[ids[i]], PlaceOf(s, ids[i]), s.clock);
    }
  }

  // One order explains the database and what every call was told.
  ghost predicate Explains<DB(!new)>(ops: Operations<DB>, start: DB, db: DB, s: State, ids: seq<nat>) {
    && db == Replay(ops, start, ids) && Sequential(ops, start, s.calls, ids) && Returns(ops, start, s.calls, ids)
    && Complete(s, ids) && RealTime(s, ids)
  }

  lemma {:induction false} InOrderExplains<DB(!new)>(ops: Operations<DB>, start: DB, db: DB, s: State)
    requires Inv(s) && InOrder(ops, start, db, s)
    ensures Explains(ops, start, db, s, Executed(s))
  {
    KeepsRealTime(s);
    ExecutedComplete(s);
    ReturnsFollow(ops, start, s);
  }

  /** Linearizability: in every such run from the start, there is one order of the executed
      operations that yields all outcomes and the database, holds every queued operation
      that has ended once, and agrees with real time; a blocking call that reports success
      returns the value its operation has in that order. It is the order of the queue. */
  lemma {:induction false} Linearizable<DB(!new)>(ops: Operations<DB>, start: DB, steps: seq<Step>)
    requires Genuine(ops, start, INIT, steps)
    ensures Explains(ops, start, DatabaseAfter(ops, start, INIT, steps), Exec(INIT, steps), Executed(Exec(INIT, steps)))
  {
    ExecKeepsInv(INIT, steps);
    OneAfterTheOther(ops, start, start, INIT, steps);
    InOrderExplains(ops, start, DatabaseAfter(ops, start, INIT, steps), Exec(INIT, steps));
  }
}
