/** The SQLite worker: blocking calls and futures queued to one FIFO thread by any number
    of callers, with the lock-by-lock handshake of every blocking call, and calls the
    worker makes itself, which run inline. Each step is one region under a message's lock,
    one queue operation, one semaphore operation, or the start or end of an operation.
    The statements are about when operations execute and what callers are told; what the
    database becomes is the subject of SqliteDatabase. */
module SqliteWorker {
  import opened Common
  import opened AsyncWaits

  datatype Kind = Blocking | Future | Inline

  // What a blocking caller does next. A future's caller is Returned once it has queued.
  datatype Phase =
    | Calling                     // hand the message to the thread's queue
    | Waiting                     // wait on the semaphore
    | Woke(waited: bool)          // take the message's lock
    | Holding(waited: bool)       // read the result and clear the waiting flag
    | Returned(waited: bool, success: bool, retVal: Option<int>)

  // Every recorded time is the number of the step at which it happened.
  datatype Call = Call(
    kind: Kind, caller: Phase, locked: bool, shared: Shared, starts: nat, outcome: Option<Outcome>,
    promise: seq<Outcome>, ticket: Option<nat>, parent: nat,
    invoked: nat, started: Option<nat>, ended: Option<nat>, returned: Option<nat>)

  datatype Stage =
    | Taken     // dequeued; take the message's lock
    | Entered   // locked; look at the waiting flag
    | Running   // the operation is executing
    | Ending    // result recorded; signal the semaphore
    | Leaving   // release the lock

  datatype Worker = Idle | Busy(call: nat, stage: Stage, inline: seq<nat>)

  // The queue is `enqueued[taken..]`; a call's ticket is its position in `enqueued`.
  datatype State = State(calls: seq<Call>, enqueued: seq<nat>, taken: nat, worker: Worker, clock: nat)

  datatype CallerAct = Dispatch(ok: bool) | Wake | TimeOut | Lock | Finish
  datatype WorkerAct = Enter | Check | End(outcome: Outcome) | Signal | Leave | InlineStart | InlineEnd(outcome: Outcome)

  datatype Step =
    | Invoke(kind: Kind)                 // AsyncInvoke or AsyncInvokeFuture is called
    | Caller(id: nat, act: CallerAct)    // its caller goes on; Dispatch(ok) is DispatchDelegate returning ok
    | Take                               // the worker dequeues
    | Work(work: WorkerAct)              // the worker goes on with what it dequeued

  const INIT := State([], [], 0, Idle, 0)

  function NewCall(kind: Kind, clock: nat): Call {
    Call(kind, Calling, false, FRESH, 0, None, [], None, 0, clock, None, None, None)
  }

  // What its caller's next act does to a call; `ticket` is the next free place in the queue.
  function OnCaller(c: Call, act: CallerAct, ticket: nat, clock: nat): Call {
    match act
    case Dispatch(ok) =>
      if c.kind == Inline || c.caller != Calling then c
      else c.(ticket := if ok then Some(ticket) else c.ticket,
              caller := if c.kind == Future then Returned(false, false, None) else if ok then Waiting else Woke(false))
    case Wake =>
      if c.caller == Waiting && c.shared.signaled
      then c.(caller := Woke(true), shared := c.shared.(signaled := false)) else c
    case TimeOut =>
      if c.caller == Waiting && !c.shared.signaled then c.(caller := Woke(false)) else c
    case Lock =>
      if c.caller.Woke? && !c.locked then c.(caller := Holding(c.caller.waited)) else c
    case Finish =>
      if c.caller.Holding? then
        var (shared, success, retVal) := FinishRegion(c.shared, c.caller.waited);
        c.(shared := shared, caller := Returned(c.caller.waited, success, retVal), returned := Some(clock))
      else c
  }

  // What the worker's next act does to the call it is busy with, and the stage it reaches
  // (None: it is done with the call). An operation ends only when its inline calls have.
  function OnWorker(c: Call, act: WorkerAct, stage: Stage, inlineOpen: bool, clock: nat): (Call, Option<Stage>) {
    var run := c.(starts := c.starts + 1, started := Some(clock));
    match act
    case Enter =>
      if stage != Taken then (c, Some(stage))
      else if c.kind == Future then (run, Some(Running))
      else if c.caller.Holding? then (c, Some(stage))
      else (c.(locked := true), Some(Entered))
    case Check =>
      if stage != Entered then (c, Some(stage))
      else if c.shared.invokerWaiting then (run, Some(Running))
      else (c, Some(Leaving))
    case End(outcome) =>
      if stage != Running || inlineOpen then (c, Some(stage))
      else
        var over := c.(ended := Some(clock), outcome := Some(outcome));
        if c.kind == Future then (over.(promise := c.promise + [outcome]), None)
        else (over.(shared := EndRegion(c.shared, outcome)), Some(Ending))
    case Signal =>
      if stage != Ending then (c, Some(stage)) else (c.(shared := c.shared.(signaled := true)), Some(Leaving))
    case Leave =>
      if stage != Leaving then (c, Some(stage)) else (c.(locked := false), None)
    case InlineStart => (c, Some(stage))
    case InlineEnd(_) => (c, Some(stage))
  }

  function CallerStep(s: State, id: nat, act: CallerAct): State
    requires id < |s.calls|
  {
    var c := OnCaller(s.calls[id], act, |s.enqueued|, s.clock);
    s.(calls := s.calls[id := c], enqueued := if c.ticket != s.calls[id].ticket then s.enqueued + [id] else s.enqueued)
  }

  function InlineBegin(s: State, id: nat, inline: seq<nat>): State {
    s.(calls := s.calls + [NewCall(Inline, s.clock).(started := Some(s.clock), starts := 1, parent := id)],
       worker := Busy(id, Running, inline + [|s.calls|]))
  }

  function InlineFinish(s: State, id: nat, inline: seq<nat>, outcome: Outcome): State
    requires inline != [] && inline[|inline| - 1] < |s.calls|
  {
    var x := inline[|inline| - 1];
    s.(calls := s.calls[x := s.calls[x].(ended := Some(s.clock), outcome := Some(outcome))],
       worker := Busy(id, Running, inline[..|inline| - 1]))
  }

  function WorkerStep(s: State, act: WorkerAct, id: nat, stage: Stage, inline: seq<nat>): State
    requires id < |s.calls|
  {
    match act
    case InlineStart =>
      if stage == Running then InlineBegin(s, id, inline) else s
    case InlineEnd(outcome) =>
      if stage == Running && inline != []
          && inline[|inline| - 1] < |s.calls| then InlineFinish(s, id, inline, outcome) else s
    case _ =>
      var (c, next) := OnWorker(s.calls[id], act, stage, inline != [], s.clock);
      s.(calls := s.calls[id := c], worker := if next.None? then Idle else Busy(id, next.value, inline))
  }

  function Effect(s: State, step: Step): State {
    match step
    case Invoke(kind) => if kind == Inline then s else s.(calls := s.calls + [NewCall(kind, s.clock)])
    case Caller(id, act) => if id < |s.calls| then CallerStep(s, id, act) else s
    case Take =>
      if s.worker.Idle? && s.taken < |s.enqueued|
      then s.(worker := Busy(s.enqueued[s.taken], Taken, []), taken := s.taken + 1) else s
    case Work(act) =>
      if s.worker.Busy? && s.worker.call < |s.calls|
      then WorkerStep(s, act, s.worker.call, s.worker.stage, s.worker.inline) else s
  }

  function Next(s: State, step: Step): State {
    Effect(s, step).(clock := s.clock + 1)
  }

  function Exec(s: State, steps: seq<Step>): State
    decreases |steps|
  {
    if steps == [] then s else Exec(Next(s, steps[0]), steps[1..])
  }

  // ---------------------------------------------------------------- one call

  // Where the worker stands with a call.
  datatype Place = NotTaken | Current(stage: Stage) | Over

  function PlaceOf(s: State, id: nat): Place
    requires id < |s.calls|
  {
    if s.worker.Busy? && s.worker.call == id then Current(s.worker.stage)
    else if s.calls[id].ticket.Some? && s.calls[id].ticket.value < s.taken then Over
    else NotTaken
  }

  predicate Before(t: Option<nat>, clock: nat) {
    t.Some? ==> t.value < clock
  }

  predicate HasLock(place: Place) {
    place.Current? && place.stage != Taken
  }

  // How far the operation has come at each place.
  ghost predicate Progress(c: Call, place: Place) {
    match place
    case NotTaken => c.starts == 0
    case Current(stage) =>
      (match stage
       case Taken => c.starts == 0
       case Entered => c.starts == 0
       case Running => c.starts == 1 && c.ended == None && (c.kind == Blocking ==> c.shared.invokerWaiting)
       case Ending => c.starts == 1 && c.ended.Some? && c.shared.invokerWaiting
       case Leaving => if c.starts == 1 then c.ended.Some? else c.returned.Some?)
    case Over => if c.starts == 1 then c.ended.Some? else c.kind == Blocking && c.returned.Some?
  }

  // The caller has been told, by the semaphore, that the worker is through.
  predicate Told(c: Call) {
    c.shared.signaled || ((c.caller.Woke? || c.caller.Holding? || c.caller.Returned?) && c.caller.waited)
  }

  // The handshake of one blocking call.
  ghost predicate Handshake(c: Call, place: Place) {
    && (c.shared.invokerWaiting <==> !c.caller.Returned?)
    && (c.caller.Returned? <==> c.returned.Some?)
    && (c.caller.Calling? ==> place == NotTaken && c.ticket == None)
    && (c.locked <==> HasLock(place)) && !(c.locked && c.caller.Holding?)
    && c.shared.retVal == (if c.outcome.Some? && c.outcome.value.Value? then Some(c.outcome.value.v) else None)
    && (c.shared.invokeSucceeded <==> c.shared.retVal.Some?)
    && (Told(c) ==> c.ended.Some? && place !in {Current(Running), Current(Ending)})
    && (c.caller.Returned? ==>
          && (c.caller.success <==> c.caller.waited && c.outcome.Some? && c.outcome.value.Value?)
          && c.caller.retVal == (if c.caller.success then Some(c.outcome.value.v) else None))
    && (c.returned.Some? && c.starts == 1 ==> c.ended.Some? && c.ended.value < c.returned.value)
  }

  // A future's promise is set when, and only when, its operation ends.
  ghost predicate FutureCall(c: Call, place: Place) {
    && !c.locked && (place.Current? ==> place.stage in {Taken, Running})
    && (c.caller.Calling? || c.caller.Returned?)
    && (c.caller.Calling? ==> place == NotTaken && c.ticket == None)
    && c.promise == if c.outcome.Some? then [c.outcome.value] else []
  }

  ghost predicate CallInv(c: Call, place: Place, clock: nat) {
    && Before(c.started, clock) && Before(c.ended, clock) && Before(c.returned, clock) && c.invoked < clock
    && c.starts <= 1 && (c.started.Some? <==> c.starts == 1)
    && (c.ended.Some? ==> c.started.Some? && c.started.value < c.ended.value)
    && (c.started.Some? ==> c.invoked <= c.started.value && (c.kind != Inline ==> c.invoked < c.started.value))
    && (c.outcome.Some? <==> c.ended.Some?)
    && match c.kind
       case Blocking => Progress(c, place) && Handshake(c, place)
       case Future => Progress(c, place) && FutureCall(c, place)
       case Inline => place == NotTaken && c.starts == 1 && c.ticket == None && c.caller.Calling?
  }

  ghost predicate CallsInv(s: State) {
    forall id {:trigger PlaceOf(s, id)} | 0 <= id < |s.calls| :: CallInv(s.calls[id], PlaceOf(s, id), s.clock)
  }

  // Tickets and the queue agree.
  ghost predicate QueueInv(s: State) {
    && s.taken <= |s.enqueued|
    && (forall p | 0 <= p < |s.enqueued| :: s.enqueued[p] < |s.calls| && s.calls[s.enqueued[p]].ticket == Some(p))
    && (forall id | 0 <= id < |s.calls| && s.calls[id].ticket.Some? ::
          s.calls[id].ticket.value < |s.enqueued| && s.enqueued[s.calls[id].ticket.value] == id)
    && (s.worker.Busy? ==> s.taken > 0 && s.worker.call == s.enqueued[s.taken - 1])
    && (s.worker.Busy? && s.worker.stage != Running ==> s.worker.inline == [])
  }

  lemma OnCallerInv(c: Call, place: Place, act: CallerAct, ticket: nat, clock: nat)
    requires CallInv(c, place, clock)
    ensures CallInv(OnCaller(c, act, ticket, clock), place, clock + 1)
    ensures OnCaller(c, act, ticket, clock).ticket != c.ticket ==>
              c.ticket == None && place == NotTaken && OnCaller(c, act, ticket, clock).ticket == Some(ticket)
  {
  }

  function PlaceAfter(next: Option<Stage>): Place {
    if next.Some? then Current(next.value) else Over
  }

  lemma OnWorkerInv(c: Call, stage: Stage, act: WorkerAct, inlineOpen: bool, clock: nat)
    requires CallInv(c, Current(stage), clock)
    ensures var (c', next) := OnWorker(c, act, stage, inlineOpen, clock);
            && CallInv(c', PlaceAfter(next), clock + 1) && c'.ticket == c.ticket && c'.kind == c.kind
  {
  }

  // ---------------------------------------------------------------- all calls together

  // An earlier operation is over before a later one starts.
  ghost predicate Precedes(a: Call, b: Call) {
    a.started.Some? && b.started.Some? ==> a.ended.Some? && a.ended.value < b.started.value
  }

  // Operations execute one at a time, in the order in which they were queued.
  ghost predicate OrderInv(s: State)
    requires QueueInv(s)
  {
    forall p, q | 0 <= p < q < s.taken :: Precedes(s.calls[s.enqueued[p]], s.calls[s.enqueued[q]])
  }

  // Call x ran on the worker, inside the operation that made it.
  ghost predicate InsideParent(s: State, x: Call) {
    && x.parent < |s.calls| && x.started.Some?
    && var parent := s.calls[x.parent];
       && parent.kind != Inline && parent.ticket.Some? && parent.ticket.value < s.taken
       && parent.started.Some? && parent.started.value < x.started.value
       && (parent.ended.Some? ==> x.ended.Some? && x.ended.value < parent.ended.value)
  }

  ghost predicate InlineInv(s: State) {
    && (forall x | 0 <= x < |s.calls| && s.calls[x].kind == Inline :: InsideParent(s, s.calls[x]))
    && (forall x | 0 <= x < |s.calls| && s.calls[x].kind == Inline && s.calls[x].ended == None ::
          s.worker.Busy? && s.worker.call == s.calls[x].parent && x in s.worker.inline)
    && (s.worker.Busy? ==> forall i | 0 <= i < |s.worker.inline| ::
          s.worker.inline[i] < |s.calls| && s.calls[s.worker.inline[i]].kind == Inline
          && s.calls[s.worker.inline[i]].ended == None)
    && (s.worker.Busy? ==> forall i, j | 0 <= i < j < |s.worker.inline| :: s.worker.inline[i] < s.worker.inline[j])
  }

  ghost predicate Inv(s: State) {
    CallsInv(s) && QueueInv(s) && OrderInv(s) && InlineInv(s)
  }

  lemma Later(c: Call, place: Place, clock: nat)
    requires CallInv(c, place, clock)
    ensures CallInv(c, place, clock + 1)
  {
  }

  // A step that neither starts nor ends an operation.
  ghost predicate SameHistory(s: State, s': State) {
    && |s.calls| <= |s'.calls| && s.enqueued <= s'.enqueued
    && (forall i | 0 <= i < |s.calls| ::
          var c, c' := s.calls[i], s'.calls[i];
          && c'.kind == c.kind && c'.started == c.started && c'.ended == c.ended && c'.parent == c.parent
          && (c.ticket.Some? ==> c'.ticket == c.ticket))
    && (forall i | |s.calls| <= i < |s'.calls| :: s'.calls[i].kind != Inline)
  }

  lemma HistoryKept(s: State, s': State)
    requires QueueInv(s) && QueueInv(s') && OrderInv(s) && InlineInv(s) && SameHistory(s, s')
    requires s'.taken == s.taken
    requires s'.worker == s.worker || (!(s.worker.Busy? && s.worker.inline != []) && (s'.worker.Busy? ==>
        s'.worker.inline == []))
    ensures OrderInv(s') && InlineInv(s')
  {
    forall p | 0 <= p < s.taken ensures s'.enqueued[p] == s.enqueued[p] {
    }
    forall x | 0 <= x < |s'.calls| && s'.calls[x].kind == Inline ensures InsideParent(s', s'.calls[x]) {
      assert InsideParent(s, s.calls[x]);
    }
  }

  lemma NewCallInv(kind: Kind, clock: nat)
    requires kind != Inline
    ensures CallInv(NewCall(kind, clock), NotTaken, clock + 1)
  {
  }

  lemma InvokeKeepsCalls(s: State, kind: Kind)
    requires CallsInv(s) && QueueInv(s)
    ensures CallsInv(Next(s, Invoke(kind)))
  {
    var s' := Next(s, Invoke(kind));
    forall id | 0 <= id < |s'.calls| ensures CallInv(s'.calls[id], PlaceOf(s', id), s'.clock) {
      if id < |s.calls| {
        assert PlaceOf(s', id) == PlaceOf(s, id);
        Later(s.calls[id], PlaceOf(s, id), s.clock);
      } else {
        assert PlaceOf(s', id) == NotTaken;
        NewCallInv(kind, s.clock);
      }
    }
  }

  lemma InvokeKeepsQueue(s: State, kind: Kind)
    requires QueueInv(s)
    ensures QueueInv(Next(s, Invoke(kind))) && SameHistory(s, Next(s, Invoke(kind)))
  {
  }

  lemma InvokeKeepsInv(s: State, kind: Kind)
    requires Inv(s)
    ensures Inv(Next(s, Invoke(kind)))
  {
    InvokeKeepsCalls(s, kind);
    InvokeKeepsQueue(s, kind);
    HistoryKept(s, Next(s, Invoke(kind)));
  }

  lemma CallsKept(s: State, s': State, id: nat)
    requires CallsInv(s) && id < |s.calls| == |s'.calls| && s'.clock == s.clock + 1
    requires forall i | 0 <= i < |s.calls| && i != id :: s'.calls[i] == s.calls[i] && PlaceOf(s', i) == PlaceOf(s, i)
    requires CallInv(s'.calls[id], PlaceOf(s', id), s'.clock)
    ensures CallsInv(s')
  {
    forall i | 0 <= i < |s'.calls| ensures CallInv(s'.calls[i], PlaceOf(s', i), s'.clock) {
      if i != id {
        Later(s.calls[i], PlaceOf(s, i), s.clock);
      }
    }
  }

  lemma OnCallerHistory(c: Call, act: CallerAct, ticket: nat, clock: nat)
    ensures var c' := OnCaller(c, act, ticket, clock);
            && c'.kind == c.kind && c'.started == c.started && c'.ended == c.ended && c'.parent == c.parent
            && (c'.ticket == c.ticket || c'.ticket == Some(ticket))
  {
  }

  lemma CallerKeepsQueue(s: State, id: nat, act: CallerAct)
    requires QueueInv(s) && id < |s.calls|
    requires OnCaller(s.calls[id], act, |s.enqueued|, s.clock).ticket != s.calls[id].ticket ==>
               s.calls[id].ticket == None && OnCaller(s.calls[id], act, |s.enqueued|, s.clock).ticket == Some(|s.enqueued|)
    ensures QueueInv(Next(s, Caller(id, act)))
    ensures PlaceOf(Next(s, Caller(id, act)), id) == PlaceOf(s, id)
  {
  }

  lemma CallerKeepsInv(s: State, id: nat, act: CallerAct)
    requires Inv(s)
    ensures Inv(Next(s, Caller(id, act)))
  {
    var s' := Next(s, Caller(id, act));
    if id < |s.calls| {
      OnCallerInv(s.calls[id], PlaceOf(s, id), act, |s.enqueued|, s.clock);
      OnCallerHistory(s.calls[id], act, |s.enqueued|, s.clock);
      CallerKeepsQueue(s, id, act);
      CallsKept(s, s', id);
      HistoryKept(s, s');
    } else {
      Idled(s, s');
    }
  }

  // Time passes and nothing else happens.
  lemma Idled(s: State, s': State)
    requires Inv(s) && s' == s.(clock := s.clock + 1)
    ensures Inv(s')
  {
    forall i | 0 <= i < |s'.calls| ensures CallInv(s'.calls[i], PlaceOf(s', i), s'.clock) {
      Later(s.calls[i], PlaceOf(s, i), s.clock);
    }
    HistoryKept(s, s');
  }

  lemma Unstarted(c: Call, clock: nat)
    requires CallInv(c, NotTaken, clock) && c.ticket.Some?
    ensures c.started == None && CallInv(c, Current(Taken), clock + 1)
  {
  }

  lemma TakeKeepsCalls(s: State)
    requires CallsInv(s) && QueueInv(s) && s.worker.Idle? && s.taken < |s.enqueued|
    ensures CallsInv(Next(s, Take)) && QueueInv(Next(s, Take)) && s.calls[s.enqueued[s.taken]].started == None
  {
    var id := s.enqueued[s.taken];
    assert PlaceOf(s, id) == NotTaken && s.calls[id].ticket == Some(s.taken);
    Unstarted(s.calls[id], s.clock);
    CallsKept(s, Next(s, Take), id);
  }

  lemma TakeKeepsHistory(s: State)
    requires QueueInv(s) && OrderInv(s) && InlineInv(s) && s.worker.Idle? && s.taken < |s.enqueued|
    requires QueueInv(Next(s, Take)) && s.calls[s.enqueued[s.taken]].started == None
    ensures OrderInv(Next(s, Take)) && InlineInv(Next(s, Take))
  {
  }

  lemma TakeKeepsInv(s: State)
    requires Inv(s)
    ensures Inv(Next(s, Take))
  {
    var s' := Next(s, Take);
    if s.worker.Idle? && s.taken < |s.enqueued| {
      TakeKeepsCalls(s);
      TakeKeepsHistory(s);
    } else {
      Idled(s, s');
    }
  }

  lemma OnWorkerHistory(c: Call, stage: Stage, act: WorkerAct, inlineOpen: bool, clock: nat)
    requires CallInv(c, Current(stage), clock)
    ensures var (c', next) := OnWorker(c, act, stage, inlineOpen, clock);
            && c.kind != Inline && c'.kind == c.kind && c'.parent == c.parent && c'.ticket == c.ticket
            && (c'.started == c.started || (c.started == None && c'.started == Some(clock) && c'.ended == None))
            && (c'.ended == c.ended || (c'.started == c.started && c'.started.Some?
                && c'.ended == Some(clock) && !inlineOpen))
            && (next != Some(Running) ==> !(stage == Running && inlineOpen))
  {
  }

  // An act of the worker other than an inline call.
  lemma ActKeepsOrder(s: State, s': State, id: nat, c': Call)
    requires QueueInv(s) && QueueInv(s') && OrderInv(s) && s.worker.Busy? && id == s.worker.call
    requires s'.taken == s.taken && s'.enqueued == s.enqueued && id < |s.calls| && s'.calls == s.calls[id := c']
    requires var c := s.calls[id];
             || (c'.started == c.started && c'.ended == c.ended)
             || (c'.started == c.started && c'.started.Some? && c'.ended.Some?)
             || (c'.started == Some(s.clock) && c'.ended == None)
    requires forall p | 0 <= p < s.taken - 1 :: var a := s.calls[s.enqueued[p]];
               a.started.Some? ==> a.ended.Some? && a.ended.value < s.clock
    ensures OrderInv(s')
  {
  }

  // Everything taken before the current operation is over.
  lemma EarlierOver(s: State)
    requires CallsInv(s) && QueueInv(s) && s.worker.Busy?
    ensures forall p | 0 <= p < s.taken - 1 :: var a := s.calls[s.enqueued[p]];
              a.started.Some? ==> a.ended.Some? && a.ended.value < s.clock
  {
    forall p | 0 <= p < s.taken - 1
      ensures var a := s.calls[s.enqueued[p]]; a.started.Some? ==> a.ended.Some? && a.ended.value < s.clock
    {
      assert s.enqueued[p] != s.worker.call;
      assert PlaceOf(s, s.enqueued[p]) == Over;
    }
  }

  lemma ActKeepsInline(s: State, s': State, id: nat, c': Call, stage: Stage)
    requires InlineInv(s) && QueueInv(s) && s.worker.Busy? && s.worker.call == id < |s.calls|
    requires s'.calls == s.calls[id := c'] && s'.taken == s.taken
    requires s'.worker == Idle || (s'.worker.Busy? && s'.worker.call == id && s'.worker.inline == s.worker.inline)
    requires s'.worker == Idle ==> s.worker.inline == []
    requires var c := s.calls[id];
             && c.kind != Inline && c'.kind == c.kind && c'.ticket == c.ticket && c'.parent == c.parent
             && (c'.started == c.started || c.started == None)
             && (c'.ended == c.ended || (c'.ended == Some(s.clock) && s.worker.inline == []))
    requires forall x | 0 <= x < |s.calls| && s.calls[x].kind == Inline :: Before(s.calls[x].ended, s.clock)
    ensures InlineInv(s')
  {
    forall x | 0 <= x < |s'.calls| && s'.calls[x].kind == Inline ensures InsideParent(s', s'.calls[x]) {
      assert x != id && InsideParent(s, s.calls[x]);
    }
  }

  lemma InlineEndedBefore(s: State)
    requires CallsInv(s)
    ensures forall x | 0 <= x < |s.calls| :: Before(s.calls[x].ended, s.clock)
  {
    forall x | 0 <= x < |s.calls| ensures Before(s.calls[x].ended, s.clock) {
      var _ := PlaceOf(s, x);
    }
  }

  lemma ActKeepsCalls(s: State, act: WorkerAct)
    requires CallsInv(s) && QueueInv(s) && s.worker.Busy? && !act.InlineStart? && !act.InlineEnd?
    ensures CallsInv(Next(s, Work(act)))
  {
    var s' := Next(s, Work(act));
    var id, stage, open := s.worker.call, s.worker.stage, s.worker.inline != [];
    assert PlaceOf(s, id) == Current(stage);
    OnWorkerInv(s.calls[id], stage, act, open, s.clock);
    OnWorkerHistory(s.calls[id], stage, act, open, s.clock);
    CallsKept(s, s', id);
  }

  lemma ActKeepsQueue(s: State, act: WorkerAct)
    requires QueueInv(s) && s.worker.Busy? && !act.InlineStart? && !act.InlineEnd?
    requires CallInv(s.calls[s.worker.call], Current(s.worker.stage), s.clock)
    ensures QueueInv(Next(s, Work(act)))
  {
    OnWorkerHistory(s.calls[s.worker.call], s.worker.stage, act, s.worker.inline != [], s.clock);
  }

  lemma ActKeepsHistory(s: State, act: WorkerAct)
    requires QueueInv(s) && OrderInv(s) && InlineInv(s) && s.worker.Busy? && !act.InlineStart? && !act.InlineEnd?
    requires CallInv(s.calls[s.worker.call], Current(s.worker.stage), s.clock) && QueueInv(Next(s, Work(act)))
    requires forall p | 0 <= p < s.taken - 1 :: var a := s.calls[s.enqueued[p]];
               a.started.Some? ==> a.ended.Some? && a.ended.value < s.clock
    requires forall x | 0 <= x < |s.calls| :: Before(s.calls[x].ended, s.clock)
    ensures OrderInv(Next(s, Work(act))) && InlineInv(Next(s, Work(act)))
  {
    var s' := Next(s, Work(act));
    var id, stage, open := s.worker.call, s.worker.stage, s.worker.inline != [];
    OnWorkerHistory(s.calls[id], stage, act, open, s.clock);
    var (c', next) := OnWorker(s.calls[id], act, stage, open, s.clock);
    ActKeepsOrder(s, s', id, c');
    ActKeepsInline(s, s', id, c', stage);
  }

  lemma ActKeepsInv(s: State, act: WorkerAct)
    requires Inv(s) && s.worker.Busy? && !act.InlineStart? && !act.InlineEnd?
    ensures Inv(Next(s, Work(act)))
  {
    ActKeepsCalls(s, act);
    EarlierOver(s);
    InlineEndedBefore(s);
    assert PlaceOf(s, s.worker.call) == Current(s.worker.stage);
    ActKeepsQueue(s, act);
    ActKeepsHistory(s, act);
  }

  lemma InlineStartKeepsInv(s: State)
    requires Inv(s) && s.worker.Busy?
    ensures Inv(Next(s, Work(InlineStart)))
  {
    if s.worker.stage == Running {
      assert PlaceOf(s, s.worker.call) == Current(Running);
      InlineStartKeepsCalls(s);
      InlineStartKeepsQueue(s);
      InlineStartKeepsInline(s);
    } else {
      Idled(s, Next(s, Work(InlineStart)));
    }
  }

  lemma NewInlineInv(parent: nat, clock: nat)
    ensures CallInv(NewCall(Inline, clock).(started := Some(clock), starts := 1, parent := parent), NotTaken, clock + 1)
  {
  }

  lemma InlineStartKeepsCalls(s: State)
    requires CallsInv(s) && QueueInv(s) && s.worker.Busy? && s.worker.stage == Running
    ensures CallsInv(Next(s, Work(InlineStart)))
  {
    var s' := Next(s, Work(InlineStart));
    NewInlineInv(s.worker.call, s.clock);
    forall i | 0 <= i < |s'.calls| ensures CallInv(s'.calls[i], PlaceOf(s', i), s'.clock) {
      if i < |s.calls| {
        assert PlaceOf(s', i) == PlaceOf(s, i);
        Later(s.calls[i], PlaceOf(s, i), s.clock);
      } else {
        assert PlaceOf(s', i) == NotTaken;
      }
    }
  }

  lemma InlineStartKeepsQueue(s: State)
    requires QueueInv(s) && OrderInv(s) && s.worker.Busy? && s.worker.stage == Running
    ensures QueueInv(Next(s, Work(InlineStart))) && OrderInv(Next(s, Work(InlineStart)))
  {
  }

  lemma InlineStartKeepsInline(s: State)
    requires QueueInv(s) && InlineInv(s) && s.worker.Busy? && s.worker.stage == Running
    requires CallInv(s.calls[s.worker.call], Current(Running), s.clock)
    ensures InlineInv(Next(s, Work(InlineStart)))
  {
    var s' := Next(s, Work(InlineStart));
    forall x | 0 <= x < |s'.calls| && s'.calls[x].kind == Inline ensures InsideParent(s', s'.calls[x]) {
      if x < |s.calls| {
        assert InsideParent(s, s.calls[x]);
      }
    }
    forall x | 0 <= x < |s'.calls| && s'.calls[x].kind == Inline && s'.calls[x].ended == None
      ensures s'.worker.Busy? && s'.worker.call == s'.calls[x].parent && x in s'.worker.inline
    {
      if x == |s.calls| {
        assert s'.worker.inline[|s.worker.inline|] == x;
      }
    }
  }

  lemma InlineEndKeepsInv(s: State, outcome: Outcome)
    requires Inv(s) && s.worker.Busy?
    ensures Inv(Next(s, Work(InlineEnd(outcome))))
  {
    var s' := Next(s, Work(InlineEnd(outcome)));
    var inline := s.worker.inline;
    if s.worker.stage == Running && inline != [] {
      var x := inline[|inline| - 1];
      assert PlaceOf(s, s.worker.call) == Current(Running) && PlaceOf(s, x) == NotTaken;
      InlineEndKeepsCalls(s, outcome);
      InlineEndKeepsQueue(s, outcome);
      InlineEndKeepsInline(s, outcome);
    } else {
      Idled(s, s');
    }
  }

  lemma InlineOver(c: Call, outcome: Outcome, clock: nat)
    requires CallInv(c, NotTaken, clock) && c.kind == Inline
    ensures CallInv(c.(ended := Some(clock), outcome := Some(outcome)), NotTaken, clock + 1)
  {
  }

  lemma InlineEndKeepsCalls(s: State, outcome: Outcome)
    requires CallsInv(s) && QueueInv(s)
    requires s.worker.Busy? && s.worker.stage == Running && s.worker.inline != []
    requires var x := s.worker.inline[|s.worker.inline| - 1];
             x < |s.calls| && x != s.worker.call && s.calls[x].kind == Inline && PlaceOf(s, x) == NotTaken
    ensures CallsInv(Next(s, Work(InlineEnd(outcome))))
  {
    var s' := Next(s, Work(InlineEnd(outcome)));
    var x := s.worker.inline[|s.worker.inline| - 1];
    InlineOver(s.calls[x], outcome, s.clock);
    CallsKept(s, s', x);
  }

  lemma InlineEndKeepsQueue(s: State, outcome: Outcome)
    requires QueueInv(s) && OrderInv(s)
    requires s.worker.Busy? && s.worker.stage == Running && s.worker.inline != []
    requires var x := s.worker.inline[|s.worker.inline| - 1]; x < |s.calls| && s.calls[x].ticket == None
    ensures var s' := Next(s, Work(InlineEnd(outcome))); QueueInv(s') && OrderInv(s')
  {
    var s' := Next(s, Work(InlineEnd(outcome)));
    var x := s.worker.inline[|s.worker.inline| - 1];
    forall p | 0 <= p < s.taken ensures s'.calls[s'.enqueued[p]] == s.calls[s.enqueued[p]] {
      assert s.enqueued[p] != x;
    }
  }

  lemma InlineEndKeepsInline(s: State, outcome: Outcome)
    requires QueueInv(s) && InlineInv(s)
    requires s.worker.Busy? && s.worker.stage == Running && s.worker.inline != []
    requires CallInv(s.calls[s.worker.call], Current(Running), s.clock)
    ensures InlineInv(Next(s, Work(InlineEnd(outcome))))
  {
    var s' := Next(s, Work(InlineEnd(outcome)));
    forall x | 0 <= x < |s'.calls| && s'.calls[x].kind == Inline ensures InsideParent(s', s'.calls[x]) {
      InlineEndInside(s, outcome, x);
    }
    forall x | 0 <= x < |s'.calls| && s'.calls[x].kind == Inline && s'.calls[x].ended == None
      ensures s'.worker.call == s'.calls[x].parent && x in s'.worker.inline
    {
      InlineStillOpen(s, outcome, x);
    }
    InlineEndOpens(s, outcome);
  }

  // A call that has not ended was open before, and is not the one that just ended.
  lemma InlineStillOpen(s: State, outcome: Outcome, x: nat)
    requires InlineInv(s) && s.worker.Busy? && s.worker.stage == Running && s.worker.inline != []
    requires var s' := Next(s, Work(InlineEnd(outcome)));
             s.worker.call < |s.calls| && x < |s'.calls| && s'.calls[x].kind == Inline && s'.calls[x].ended == None
    ensures var s' := Next(s, Work(InlineEnd(outcome)));
            s'.worker.Busy? && s'.worker.call == s'.calls[x].parent && x in s'.worker.inline
  {
    StillOpen(s.worker.inline, x);
  }

  lemma InlineEndOpens(s: State, outcome: Outcome)
    requires InlineInv(s) && s.worker.Busy? && s.worker.stage == Running && s.worker.inline != []
    requires s.worker.call < |s.calls|
    ensures var s' := Next(s, Work(InlineEnd(outcome)));
            s'.worker.Busy?
            && (forall i | 0 <= i < |s'.worker.inline| ::
                  s'.worker.inline[i] < |s'.calls| && s'.calls[s'.worker.inline[i]].kind == Inline
                  && s'.calls[s'.worker.inline[i]].ended == None)
            && (forall i, j | 0 <= i < j < |s'.worker.inline| :: s'.worker.inline[i] < s'.worker.inline[j])
  {
  }

  lemma InlineEndInside(s: State, outcome: Outcome, x: nat)
    requires QueueInv(s) && InlineInv(s) && x < |s.calls| && s.calls[x].kind == Inline
    requires s.worker.Busy? && s.worker.stage == Running && s.worker.inline != []
    requires CallInv(s.calls[s.worker.call], Current(Running), s.clock)
    ensures var s' := Next(s, Work(InlineEnd(outcome))); x < |s'.calls| && InsideParent(s', s'.calls[x])
  {
    assert InsideParent(s, s.calls[x]);
  }

  lemma StillOpen(inline: seq<nat>, x: nat)
    requires inline != [] && x in inline && x != inline[|inline| - 1]
    ensures x in inline[..|inline| - 1]
  {
    var i :| 0 <= i < |inline| && inline[i] == x;
    assert inline[..|inline| - 1][i] == x;
  }

  lemma NextKeepsInv(s: State, step: Step)
    requires Inv(s)
    ensures Inv(Next(s, step))
  {
    match step
    case Invoke(kind) => InvokeKeepsInv(s, kind);
    case Caller(id, act) => CallerKeepsInv(s, id, act);
    case Take => TakeKeepsInv(s);
    case Work(act) =>
      if s.worker.Idle? {
        Idled(s, Next(s, step));
      } else if act.InlineStart? {
        InlineStartKeepsInv(s);
      } else if act.InlineEnd? {
        InlineEndKeepsInv(s, act.outcome);
      } else {
        ActKeepsInv(s, act);
      }
  }

  lemma {:induction false} ExecKeepsInv(s: State, steps: seq<Step>)
    requires Inv(s)
    ensures Inv(Exec(s, steps))
    decreases |steps|
  {
    if steps != [] {
      NextKeepsInv(s, steps[0]);
      ExecKeepsInv(Next(s, steps[0]), steps[1..]);
    }
  }

  lemma {:induction false} ReachableCall(steps: seq<Step>, id: nat)
    requires id < |Exec(INIT, steps).calls|
    ensures var s := Exec(INIT, steps); Inv(s) && CallInv(s.calls[id], PlaceOf(s, id), s.clock)
  {
    ExecKeepsInv(INIT, steps);
  }

  // ---------------------------------------------------------------- the promises

  /** A blocking call, in every interleaving: the operation runs at most once; if it runs
      at all it is over before the caller returns, even when the caller timed out; success
      is reported exactly when the wait was signalled and the operation did not throw, and
      then the value is the operation's. */
  lemma BlockingCall(steps: seq<Step>, id: nat)
    requires id < |Exec(INIT, steps).calls| && Exec(INIT, steps).calls[id].kind == Blocking
    ensures var c := Exec(INIT, steps).calls[id];
            && c.starts <= 1
            && (c.returned.Some? && c.starts == 1 ==>
                  && c.started.Some? && c.ended.Some?
                  && c.invoked < c.started.value < c.ended.value < c.returned.value)
            && (c.caller.Returned? ==>
                  && (c.caller.success <==> c.caller.waited && c.outcome.Some? && c.outcome.value.Value?)
                  && c.caller.retVal == (if c.caller.success then Some(c.outcome.value.v) else None))
  {
    ReachableCall(steps, id);
  }

  // What a returned blocking call can no longer change.
  ghost predicate SameResult(c: Call, c': Call) {
    c'.kind == c.kind && c'.starts == c.starts && c'.outcome == c.outcome && c'.caller == c.caller
        && c'.returned == c.returned
  }

  lemma CallFinal(c: Call, place: Place, caller: CallerAct, ticket: nat, worker: WorkerAct, inlineOpen: bool, clock: nat)
    requires CallInv(c, place, clock) && c.kind == Blocking && c.returned.Some?
    ensures SameResult(c, OnCaller(c, caller, ticket, clock))
    ensures place.Current? ==> SameResult(c, OnWorker(c, worker, place.stage, inlineOpen, clock).0)
  {
  }

  lemma WorkLeavesReturned(s: State, act: WorkerAct, id: nat)
    requires id < |s.calls| && CallInv(s.calls[id], PlaceOf(s, id), s.clock)
    requires QueueInv(s) && InlineInv(s) && s.worker.Busy?
    requires s.calls[id].kind == Blocking && s.calls[id].returned.Some?
    ensures id < |Next(s, Work(act)).calls| && SameResult(s.calls[id], Next(s, Work(act)).calls[id])
  {
    CallFinal(s.calls[id], PlaceOf(s, id), Wake, 0, act, s.worker.inline != [], s.clock);
  }

  lemma ReturnedIsFinal(s: State, step: Step, id: nat)
    requires CallsInv(s) && QueueInv(s) && InlineInv(s)
    requires id < |s.calls| && s.calls[id].kind == Blocking && s.calls[id].returned.Some?
    ensures id < |Next(s, step).calls| && SameResult(s.calls[id], Next(s, step).calls[id])
  {
    var place := PlaceOf(s, id);
    match step
    case Invoke(kind) =>
    case Take =>
    case Caller(_, act) => CallFinal(s.calls[id], place, act, |s.enqueued|, Enter, false, s.clock);
    case Work(act) =>
      if s.worker.Busy? {
        WorkLeavesReturned(s, act, id);
      }
  }

  /** Once a blocking call has returned, nothing that happens later starts its operation
      or changes its result. */
  lemma {:induction false} NeverAfterReturn(s: State, steps: seq<Step>, id: nat)
    requires Inv(s) && id < |s.calls| && s.calls[id].kind == Blocking && s.calls[id].returned.Some?
    ensures id < |Exec(s, steps).calls| && SameResult(s.calls[id], Exec(s, steps).calls[id])
    decreases |steps|
  {
    if steps != [] {
      ReturnedIsFinal(s, steps[0], id);
      NextKeepsInv(s, steps[0]);
      NeverAfterReturn(Next(s, steps[0]), steps[1..], id);
    }
  }

  /** Queued operations execute one at a time and in queue order, and an operation the
      worker has gone past without executing is a blocking call whose caller gave up. */
  lemma QueueOrder(steps: seq<Step>, p: nat, q: nat)
    requires p < q < Exec(INIT, steps).taken
    ensures var s := Exec(INIT, steps);
            && q < |s.enqueued| && s.enqueued[p] < |s.calls| && s.enqueued[q] < |s.calls|
            && var a, b := s.calls[s.enqueued[p]], s.calls[s.enqueued[q]];
               && Precedes(a, b)
               && (a.starts == 0 ==> a.kind == Blocking && a.caller.Returned? && !a.caller.waited && !a.caller.success)
  {
    ExecKeepsInv(INIT, steps);
    var s := Exec(INIT, steps);
    assert s.enqueued[p] != s.enqueued[q];
    assert PlaceOf(s, s.enqueued[p]) == Over;
  }

  // The time t falls strictly inside the call's execution, which may not be over yet.
  predicate During(x: Call, t: nat) {
    x.started.Some? && x.started.value < t && (x.ended.Some? ==> t < x.ended.value)
  }

  // Two queued operations are the same call or do not overlap.
  lemma QueuedApart(s: State, a: nat, b: nat)
    requires QueueInv(s) && OrderInv(s) && a < |s.calls| && b < |s.calls|
    requires s.calls[a].ticket.Some? && s.calls[a].ticket.value < s.taken
    requires s.calls[b].ticket.Some? && s.calls[b].ticket.value < s.taken
    ensures a == b || Precedes(s.calls[a], s.calls[b]) || Precedes(s.calls[b], s.calls[a])
  {
    var p, q := s.calls[a].ticket.value, s.calls[b].ticket.value;
    assert s.enqueued[p] == a && s.enqueued[q] == b;
  }

  lemma NotDuring(call: Call, parent: Call, x: Call)
    requires call == parent || Precedes(call, parent) || Precedes(parent, call)
    requires parent.started.Some? && x.started.Some? && parent.started.value < x.started.value
    requires parent.ended.Some? ==> x.ended.Some? && x.ended.value < parent.ended.value
    requires call.ended.Some? ==> call.started.Some? && call.started.value < call.ended.value
    ensures call.started.Some? ==> !During(x, call.started.value)
    ensures call.ended.Some? ==> !During(x, call.ended.value)
  {
  }

  /** A call the worker makes itself runs inside one operation, and no queued operation
      starts or ends while it runs, or has started or ended since it began if it has not
      ended yet. */
  lemma InlineContiguous(steps: seq<Step>, x: nat, id: nat)
    requires x < |Exec(INIT, steps).calls| && Exec(INIT, steps).calls[x].kind == Inline
    requires id < |Exec(INIT, steps).calls| && Exec(INIT, steps).calls[id].kind != Inline
    ensures var s := Exec(INIT, steps);
            && InsideParent(s, s.calls[x])
            && (s.calls[id].started.Some? ==> !During(s.calls[x], s.calls[id].started.value))
            && (s.calls[id].ended.Some? ==> !During(s.calls[x], s.calls[id].ended.value))
  {
    ExecKeepsInv(INIT, steps);
    var s := Exec(INIT, steps);
    ReachableCall(steps, id);
    assert InsideParent(s, s.calls[x]);
    StartedHasTicket(s.calls[id], PlaceOf(s, id), s.clock);
    if s.calls[id].started.Some? {
      TakenHasTicket(s, id);
      QueuedApart(s, id, s.calls[x].parent);
      NotDuring(s.calls[id], s.calls[s.calls[x].parent], s.calls[x]);
    }
  }

  lemma TakenHasTicket(s: State, id: nat)
    requires QueueInv(s) && id < |s.calls| && PlaceOf(s, id) != NotTaken
    ensures s.calls[id].ticket.Some? && s.calls[id].ticket.value < s.taken
  {
  }

  lemma StartedHasTicket(c: Call, place: Place, clock: nat)
    requires CallInv(c, place, clock) && c.kind != Inline
    ensures c.started.Some? ==> place != NotTaken
    ensures c.ended.Some? ==> c.started.Some? && c.started.value < c.ended.value
  {
  }

  /** A future's promise is fulfilled at most once: by its operation, when that ends, with
      what it returned or threw. */
  lemma PromiseOnce(steps: seq<Step>, id: nat)
    requires id < |Exec(INIT, steps).calls| && Exec(INIT, steps).calls[id].kind == Future
    ensures var c := Exec(INIT, steps).calls[id];
            && c.starts <= 1
            && (c.outcome.Some? <==> c.ended.Some?) && c.promise == (if c.outcome.Some? then [c.outcome.value] else [])
  {
    ReachableCall(steps, id);
  }
}
