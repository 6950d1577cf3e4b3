/** Every run of Start, Stop, construction, destruction and ProcessTimers, called in any
    order by any threads; each call is one region under the timer lock. A pass that runs out
    of room for snapshots ends the run: its assertion fails under that lock. */
module TimerRuns {
  import opened Common
  import opened Timers

  type Id = nat

  datatype Step =
    | Create(t: Id)
    | Start(t: Id, timeout: int, once: bool, now: int)
    | Stop(t: Id)
    | Destroy(t: Id)
    | Process(readings: seq<Reading>)

  const INIT: State<Id> := State([], map[], false, false)

  // Only timers that exist are started or stopped.
  function Next(s: State<Id>, step: Step): State<Id> {
    if s.faulted then s else
    match step
    case Create(t) => if t in s.timers then s else CreateRegion(s, t)
    case Start(t, timeout, once, now) => if t in s.timers then StartRegion(s, t, timeout, once, now) else s
    case Stop(t) => if t in s.timers then StopRegion(s, t) else s
    case Destroy(t) => if t in s.timers then DestroyRegion(s, t) else s
    case Process(readings) => if AllExist(s) && |readings| >= |s.list| then ProcessRegion(s, readings) else s
  }

  function Exec(s: State<Id>, steps: seq<Step>): State<Id>
    decreases |steps|
  {
    if steps == [] then s else Exec(Next(s, steps[0]), steps[1..])
  }

  // ---------------------------------------------------------------- the list

  // Every enabled timer is in the list, and a disabled one only while the stopped flag
  // says that there is something to drop.
  ghost predicate TimerOk(s: State<Id>, t: Id) {
    && (t in s.list ==> t in s.timers)
    && (t in s.timers && s.timers[t].enabled ==> t in s.list && s.timers[t].timeout > 0)
    && (t in s.list && t in s.timers && !s.timers[t].enabled ==> s.stopped)
  }

  ghost predicate Inv(s: State<Id>) {
    Distinct(s.list) && forall t :: TimerOk(s, t)
  }

  lemma InvAllExist(s: State<Id>)
    requires Inv(s)
    ensures AllExist(s)
  {
    forall i | 0 <= i < |s.list| ensures s.list[i] in s.timers {
      assert s.list[i] in s.list && TimerOk(s, s.list[i]);
    }
  }

  lemma {:induction false} EnabledDistinct(list: seq<Id>, timers: map<Id, Fields>)
    requires Distinct(list)
    ensures Distinct(Enabled(list, timers))
  {
    if list != [] {
      EnabledDistinct(list[1..], timers);
      EnabledAre(list[1..], timers);
      assert list[0] !in list[1..];
    }
  }

  // Where a timer stands in the list.
  function IndexOf(list: seq<Id>, t: Id): (i: nat)
    ensures i <= |list| && (i < |list| ==> list[i] == t) && (i == |list| <==> t !in list)
  {
    if list == [] then 0 else if list[0] == t then 0 else 1 + IndexOf(list[1..], t)
  }

  // Whether the walk comes to a timer before its snapshots are used up.
  predicate Reached(list: seq<Id>, readings: seq<Reading>, p: Pass<Id>, t: Id)
    requires |readings| >= |list| && forall i | 0 <= i < |list| :: list[i] in p.timers
    decreases |list|
  {
    if list == [] || |p.fired| >= MAX_TIMER_EXPIRED then false
    else if list[0] == t then true
    else Reached(list[1..], readings[1..], Visit(list[0], readings[0], p), t)
  }

  // What the walk does to one timer: it checks it once, with its own reading, if it gets
  // that far.
  lemma {:induction false} WalkOne(list: seq<Id>, readings: seq<Reading>, p: Pass<Id>, t: Id)
    requires Distinct(list) && |readings| >= |list| && forall i | 0 <= i < |list| :: list[i] in p.timers
    requires t in p.timers
    ensures var q, i, reached := Walk(list, readings, p), IndexOf(list, t), Reached(list, readings, p, t);
            && q.timers.Keys == p.timers.Keys
            && (reached ==> i < |list|)
            && q.timers[t] == (if reached then Check(p.timers[t], readings[i]) else p.timers[t])
            && (t in q.fired <==> t in p.fired || (reached && Expired(p.timers[t], readings[i])))
            && (p.stopped ==> q.stopped)
            && (reached && Expired(p.timers[t], readings[i]) && p.timers[t].once ==> q.stopped)
    decreases |list|
  {
    if list != [] && |p.fired| < MAX_TIMER_EXPIRED {
      var rest, next := list[1..], Visit(list[0], readings[0], p);
      assert Distinct(rest) && list[0] !in rest;
      WalkOne(rest, readings[1..], next, t);
      if list[0] == t {
        NotReached(rest, readings[1..], next, t);
      }
    }
  }

  lemma {:induction false} NotReached(list: seq<Id>, readings: seq<Reading>, p: Pass<Id>, t: Id)
    requires |readings| >= |list| && forall i | 0 <= i < |list| :: list[i] in p.timers
    requires t !in list
    ensures !Reached(list, readings, p, t)
    decreases |list|
  {
    if list != [] && |p.fired| < MAX_TIMER_EXPIRED {
      NotReached(list[1..], readings[1..], Visit(list[0], readings[0], p), t);
    }
  }

  lemma CleanKeepsInv(s: State<Id>)
    requires Inv(s)
    ensures Inv(CleanRegion(s))
    ensures var list := CleanRegion(s).list;
            forall i | 0 <= i < |list| :: list[i] in s.timers && s.timers[list[i]].enabled
  {
    var c := CleanRegion(s);
    EnabledAre(s.list, s.timers);
    EnabledDistinct(s.list, s.timers);
    forall t ensures TimerOk(c, t) {
      assert TimerOk(s, t);
    }
    forall i | 0 <= i < |c.list| ensures c.list[i] in s.timers && s.timers[c.list[i]].enabled {
      assert c.list[i] in c.list && TimerOk(c, c.list[i]);
    }
  }

  lemma ProcessKeepsInv(s: State<Id>, readings: seq<Reading>)
    requires Inv(s) && AllExist(s) && |readings| >= |s.list|
    ensures Inv(ProcessRegion(s, readings))
  {
    CleanKeepsInv(s);
    EnabledAre(s.list, s.timers);
    var c, after := CleanRegion(s), ProcessRegion(s, readings);
    var p := Pass(c.timers, [], c.stopped, false);
    forall t ensures TimerOk(after, t) {
      assert TimerOk(c, t);
      if t in c.timers {
        WalkOne(c.list, readings, p, t);
      } else {
        WalkKeys(c.list, readings, p);
      }
    }
  }

  lemma {:induction false} WalkKeys(list: seq<Id>, readings: seq<Reading>, p: Pass<Id>)
    requires |readings| >= |list| && forall i | 0 <= i < |list| :: list[i] in p.timers
    ensures Walk(list, readings, p).timers.Keys == p.timers.Keys
    decreases |list|
  {
    if list != [] && |p.fired| < MAX_TIMER_EXPIRED {
      WalkKeys(list[1..], readings[1..], Visit(list[0], readings[0], p));
    }
  }

  lemma NextKeepsInv(s: State<Id>, step: Step)
    requires Inv(s)
    ensures Inv(Next(s, step))
  {
    var n := Next(s, step);
    match step
    case Process(readings) =>
      InvAllExist(s);
      if !s.faulted && |readings| >= |s.list| { ProcessKeepsInv(s, readings); }
    case Destroy(x) =>
      WithoutIs(s.list, x);
      forall t ensures TimerOk(n, t) { assert TimerOk(s, t); }
    case Create(_) => forall t ensures TimerOk(n, t) { assert TimerOk(s, t); }
    case Stop(_) => forall t ensures TimerOk(n, t) { assert TimerOk(s, t); }
    case Start(_, _, _, _) => forall t ensures TimerOk(n, t) { assert TimerOk(s, t); }
  }

  lemma {:induction false} ExecKeepsInv(s: State<Id>, steps: seq<Step>)
    requires Inv(s)
    ensures Inv(Exec(s, steps))
    decreases |steps|
  {
    if steps != [] {
      NextKeepsInv(s, steps[0]);
      ExecKeepsInv(Next(s, steps[0]), steps[1..]);
    }
  }

  /** In every run the list holds no timer twice, every enabled timer is in it, and a
      disabled one is in it only while the stopped flag is set. */
  lemma ListHolds(steps: seq<Step>, t: Id)
    ensures var s := Exec(INIT, steps);
            && Distinct(s.list)
            && (t in s.timers && s.timers[t].enabled ==> t in s.list)
            && (t in s.list ==> t in s.timers && (s.timers[t].enabled || s.stopped))
  {
    ExecKeepsInv(INIT, steps);
    assert TimerOk(Exec(INIT, steps), t);
  }

  // ---------------------------------------------------------------- what fires

  // The timers of the list that have expired, each by its own reading, in list order.
  function ExpiredOf(list: seq<Id>, timers: map<Id, Fields>, readings: seq<Reading>): seq<Id>
    requires |readings| >= |list|
  {
    if list == [] then []
    else (if list[0] in timers && Expired(timers[list[0]], readings[0]) then [list[0]] else [])
         + ExpiredOf(list[1..], timers, readings[1..])
  }

  function FirstFew(ids: seq<Id>): seq<Id> {
    if |ids| <= MAX_TIMER_EXPIRED then ids else ids[..MAX_TIMER_EXPIRED]
  }

  lemma {:induction false} ExpiredElsewhere(list: seq<Id>, timers: map<Id, Fields>, readings: seq<Reading>,
      t: Id, f: Fields)
    requires |readings| >= |list| && t !in list
    ensures ExpiredOf(list, timers[t := f], readings) == ExpiredOf(list, timers, readings)
  {
    if list != [] {
      ExpiredElsewhere(list[1..], timers, readings[1..], t, f);
    }
  }

  lemma {:induction false} ExpiredConcat(a: seq<Id>, b: seq<Id>, timers: map<Id, Fields>, readings: seq<Reading>)
    requires |readings| >= |a| + |b|
    ensures ExpiredOf(a + b, timers, readings) == ExpiredOf(a, timers, readings) + ExpiredOf(b, timers, readings[|a|..])
  {
    if a == [] {
      assert a + b == b && readings[0..] == readings;
    } else {
      assert (a + b)[1..] == a[1..] + b && readings[1..][|a| - 1..] == readings[|a|..];
      ExpiredConcat(a[1..], b, timers, readings[1..]);
    }
  }

  // How many of the timers before the last one of the list have expired.
  function ExpiredBeforeLast(list: seq<Id>, timers: map<Id, Fields>, readings: seq<Reading>): nat
    requires |readings| >= |list|
  {
    if list == [] then 0 else |ExpiredOf(list[..|list| - 1], timers, readings)|
  }

  // Visiting the first timer moves it, if it has expired, from what is to come to what has.
  lemma VisitFires(list: seq<Id>, readings: seq<Reading>, p: Pass<Id>)
    requires list != [] && Distinct(list) && |readings| >= |list| && list[0] in p.timers
    ensures var next := Visit(list[0], readings[0], p);
            next.fired + ExpiredOf(list[1..], next.timers, readings[1..]) == p.fired + ExpiredOf(list, p.timers, readings)
  {
    assert list[0] !in list[1..];
    ExpiredElsewhere(list[1..], p.timers, readings[1..], list[0], Check(p.timers[list[0]], readings[0]));
  }

  lemma VisitFiresBeforeLast(list: seq<Id>, readings: seq<Reading>, p: Pass<Id>)
    requires list != [] && Distinct(list) && |readings| >= |list| && list[0] in p.timers
    ensures var next := Visit(list[0], readings[0], p);
            |list| > 1 ==>
              |next.fired| + ExpiredBeforeLast(list[1..], next.timers, readings[1..])
              == |p.fired| + ExpiredBeforeLast(list, p.timers, readings)
  {
    if |list| > 1 {
      var front := list[..|list| - 1];
      assert front[1..] == list[1..][..|list| - 2];
      VisitFires(front, readings, p);
    }
  }

  lemma {:induction false} WalkFires(list: seq<Id>, readings: seq<Reading>, p: Pass<Id>)
    requires Distinct(list) && |readings| >= |list| && forall i | 0 <= i < |list| :: list[i] in p.timers
    requires |p.fired| <= MAX_TIMER_EXPIRED && !p.full
    ensures var q, expired := Walk(list, readings, p), p.fired + ExpiredOf(list, p.timers, readings);
            && q.fired == FirstFew(expired)
            && (q.full <==> list != [] && |p.fired| + ExpiredBeforeLast(list, p.timers, readings) >= MAX_TIMER_EXPIRED)
    decreases |list|
  {
    if list == [] {
      assert p.fired + [] == p.fired;
    } else if |p.fired| < MAX_TIMER_EXPIRED {
      var rest, next := list[1..], Visit(list[0], readings[0], p);
      assert Distinct(rest);
      WalkFires(rest, readings[1..], next);
      VisitFires(list, readings, p);
      VisitFiresBeforeLast(list, readings, p);
    } else {
      assert (p.fired + ExpiredOf(list, p.timers, readings))[..MAX_TIMER_EXPIRED] == p.fired;
    }
  }

  function ExpiredUnder(s: State<Id>, readings: seq<Reading>): seq<Id>
    requires |readings| >= |s.list|
  {
    EnabledAre(s.list, s.timers);
    ExpiredOf(CleanRegion(s).list, s.timers, readings)
  }

  // At least sixteen timers have expired, and the sixteenth of them is not the last of the
  // swept list.
  predicate TooMany(s: State<Id>, readings: seq<Reading>)
    requires |readings| >= |s.list|
  {
    EnabledAre(s.list, s.timers);
    var list := CleanRegion(s).list;
    list != [] && ExpiredBeforeLast(list, s.timers, readings) >= MAX_TIMER_EXPIRED
  }

  /** After every run, ProcessTimers invokes the signals of all timers of the list that
      have expired, in list order, of which there are at most sixteen; unless the sixteenth
      of them is not the last of the list, and exactly then it ends in the fault handler
      and invokes nothing. */
  lemma {:induction false} ProcessFires(steps: seq<Step>, readings: seq<Reading>)
    requires !Exec(INIT, steps).faulted
    requires |readings| >= |Exec(INIT, steps).list| && AllExist(Exec(INIT, steps))
    ensures var s, next := Exec(INIT, steps), Next(Exec(INIT, steps), Process(readings));
            var p, expired := PassOf(s, readings), ExpiredUnder(s, readings);
            && (next.faulted <==> TooMany(s, readings))
            && Delivered(p) == (if TooMany(s, readings) then [] else expired)
            && (!TooMany(s, readings) ==> |expired| <= MAX_TIMER_EXPIRED)
  {
    var s := Exec(INIT, steps);
    ExecKeepsInv(INIT, steps);
    CleanKeepsInv(s);
    EnabledAre(s.list, s.timers);
    var list := CleanRegion(s).list;
    WalkFires(list, readings, Pass(s.timers, [], CleanRegion(s).stopped, false));
    assert [] + ExpiredUnder(s, readings) == ExpiredUnder(s, readings);
    if list != [] {
      ExpiredSplit(list, s.timers, readings);
    }
  }

  // The last timer adds at most one.
  lemma ExpiredSplit(list: seq<Id>, timers: map<Id, Fields>, readings: seq<Reading>)
    requires list != [] && |readings| >= |list|
    ensures |ExpiredOf(list, timers, readings)| <= ExpiredBeforeLast(list, timers, readings) + 1
  {
    var n := |list| - 1;
    assert list == list[..n] + [list[n]] && [list[n]][1..] == [];
    ExpiredConcat(list[..n], [list[n]], timers, readings);
  }

  // ---------------------------------------------------------------- one timer too many

  // Timer 0 is started for 100, and then the timers from 1 on for 10.
  function TimeoutFor(t: Id): int {
    if t == 0 then 100 else 10
  }

  function Starting(n: nat): seq<Step> {
    if n == 0 then [] else Starting(n - 1) + [Create(n - 1), Start(n - 1, TimeoutFor(n - 1), true, 0)]
  }

  function Started(n: nat): State<Id> {
    State(seq(n, i requires 0 <= i < n => (n - 1 - i) as Id),
          map t: Id | 0 <= t < n :: Fields(TimeoutFor(t), TimeoutFor(t), true, true), false, false)
  }

  lemma {:induction false} ExecConcat(s: State<Id>, a: seq<Step>, b: seq<Step>)
    ensures Exec(s, a + b) == Exec(Exec(s, a), b)
    decreases |a|
  {
    if a == [] {
      assert a + b == b;
    } else {
      assert (a + b)[1..] == a[1..] + b;
      ExecConcat(Next(s, a[0]), a[1..], b);
    }
  }

  lemma {:induction false} StartingIs(n: nat)
    ensures Exec(INIT, Starting(n)) == Started(n)
  {
    if n == 0 {
      assert Started(0) == INIT;
    } else {
      var t := n - 1;
      StartingIs(t);
      ExecConcat(INIT, Starting(t), [Create(t), Start(t, TimeoutFor(t), true, 0)]);
      var s := Started(t);
      var created := Next(s, Create(t));
      Steps(s, Create(t), [Start(t, TimeoutFor(t), true, 0)]);
      Steps(created, Start(t, TimeoutFor(t), true, 0), []);
      var started := Next(created, Start(t, TimeoutFor(t), true, 0));
      assert t !in created.list;
      assert started.list == Started(n).list;
      assert started.timers == Started(n).timers;
    }
  }

  lemma {:induction false} ExpiredAll(list: seq<Id>, timers: map<Id, Fields>, readings: seq<Reading>)
    requires |readings| >= |list|
    requires forall i | 0 <= i < |list| :: list[i] in timers && Expired(timers[list[i]], readings[i])
    ensures ExpiredOf(list, timers, readings) == list
  {
    if list != [] {
      ExpiredAll(list[1..], timers, readings[1..]);
    }
  }

  /** Sixteen expired timers and, behind them in the list, one that has not expired: the
      next pass ends in the fault handler and invokes none of the sixteen. */
  lemma {:induction false} SixteenAndOne()
    ensures var s, step := Exec(INIT, Starting(17)), Process(seq(17, _ => Reading(20, 20, 20)));
            && |s.list| == 17 && AllExist(s) && |ExpiredUnder(s, step.readings)| == 16
            && Next(s, step).faulted && Delivered(PassOf(s, step.readings)) == []
  {
    var s, readings := Started(17), seq(17, _ => Reading(20, 20, 20));
    StartingIs(17);
    var front := s.list[..16];
    assert s.list == front + [0];
    ExpiredAll(front, s.timers, readings);
    ExpiredConcat(front, [0], s.timers, readings);
    assert [0 as Id][1..] == [] && ExpiredOf([0], s.timers, readings[16..]) == [];
    ProcessFires(Starting(17), readings);
  }

  // ---------------------------------------------------------------- deadlines

  // The clock never goes back during one check.
  ghost predicate Ticking(step: Step) {
    step.Process? ==>
      forall i | 0 <= i < |step.readings| ::
        step.readings[i].first <= step.readings[i].second <= step.readings[i].third
  }

  // No clock reading is later than `now`.
  ghost predicate Before(step: Step, now: int) {
    step.Process? ==> forall i | 0 <= i < |step.readings| :: step.readings[i].first <= now
  }

  // Nobody starts, stops or destroys the timer.
  predicate LeavesAlone(step: Step, t: Id) {
    match step
    case Start(u, _, _, _) => u != t
    case Stop(u) => u != t
    case Destroy(u) => u != t
    case _ => true
  }

  predicate FiresIn(s: State<Id>, step: Step, t: Id) {
    !s.faulted && step.Process? && AllExist(s) && |step.readings| >= |s.list|
    && t in Delivered(PassOf(s, step.readings))
  }

  function Fires(s: State<Id>, steps: seq<Step>, t: Id): nat
    decreases |steps|
  {
    if steps == [] then 0
    else (if FiresIn(s, steps[0], t) then 1 else 0) + Fires(Next(s, steps[0]), steps[1..], t)
  }

  // Each time the timer fires, it is processed no later than one period after it fell due.
  ghost predicate InTime(s: State<Id>, steps: seq<Step>, t: Id)
    decreases |steps|
  {
    steps == [] ||
    (&& (FiresIn(s, steps[0], t) && t in s.timers ==> Punctual(s, steps[0].readings, t))
     && InTime(Next(s, steps[0]), steps[1..], t))
  }

  predicate Punctual(s: State<Id>, readings: seq<Reading>, t: Id)
    requires t in s.timers
  {
    var i := IndexOf(CleanRegion(s).list, t);
    i < |readings| ==> readings[i].second <= s.timers[t].expireTime + s.timers[t].timeout
  }

  // A periodic timer with this period and deadline.
  predicate Periodic(s: State<Id>, t: Id, period: int, deadline: int) {
    t in s.timers && s.timers[t] == Fields(period, deadline, true, false)
  }

  function DeadlineAfter(s: State<Id>, t: Id): int {
    if t in s.timers then s.timers[t].expireTime else 0
  }

  // One step: unless it ends in the fault handler, the deadline moves exactly when the timer
  // fires, and by just one period exactly when it is processed in time.
  lemma {:induction false} DeadlineStep(s: State<Id>, step: Step, t: Id, period: int, deadline: int)
    requires Inv(s) && Periodic(s, t, period, deadline) && LeavesAlone(step, t) && Ticking(step)
    ensures var n, next := Next(s, step), DeadlineAfter(Next(s, step), t);
            && Periodic(n, t, period, next) && next >= deadline
            && (!FiresIn(s, step, t) && !n.faulted ==> next == deadline)
            && (n.faulted && !s.faulted ==> !FiresIn(s, step, t))
            && (FiresIn(s, step, t) ==>
                  && next >= deadline + period
                  && (next == deadline + period <==> Punctual(s, step.readings, t))
                  && exists i | 0 <= i < |step.readings| :: step.readings[i].first >= deadline)
  {
    assert TimerOk(s, t);
    if !s.faulted && step.Process? && AllExist(s) && |step.readings| >= |s.list| {
      CleanKeepsInv(s);
      EnabledAre(s.list, s.timers);
      var c := CleanRegion(s);
      WalkOne(c.list, step.readings, Pass(c.timers, [], c.stopped, false), t);
    }
  }

  // Nothing follows the fault handler.
  lemma {:induction false} FaultedStays(s: State<Id>, steps: seq<Step>, t: Id)
    requires s.faulted
    ensures Exec(s, steps) == s && Fires(s, steps, t) == 0
    decreases |steps|
  {
    if steps != [] {
      FaultedStays(s, steps[1..], t);
    }
  }

  /** For any schedule of ProcessTimers calls, and whatever else happens to other timers,
      a periodic timer that is left alone has its deadline at least one period on for each
      time it fired, and, as long as no pass has ended in the fault handler, exactly that if
      and only if it was always processed in time. */
  lemma {:induction false} Deadlines(s: State<Id>, steps: seq<Step>, t: Id, period: int, deadline: int)
    requires Inv(s) && Periodic(s, t, period, deadline)
    requires forall k | 0 <= k < |steps| :: LeavesAlone(steps[k], t) && Ticking(steps[k])
    ensures var n, k, after := Exec(s, steps), Fires(s, steps, t), DeadlineAfter(Exec(s, steps), t);
            && Periodic(n, t, period, after)
            && after >= deadline + k * period
            && (!n.faulted ==> (after == deadline + k * period <==> InTime(s, steps, t)))
    decreases |steps|
  {
    if steps != [] {
      assert LeavesAlone(steps[0], t) && Ticking(steps[0]);
      DeadlineStep(s, steps[0], t, period, deadline);
      NextKeepsInv(s, steps[0]);
      var n := Next(s, steps[0]);
      if n.faulted {
        FaultedStays(n, steps[1..], t);
      }
      Deadlines(n, steps[1..], t, period, DeadlineAfter(n, t));
      assert (Fires(n, steps[1..], t) + 1) * period == Fires(n, steps[1..], t) * period + period;
    }
  }

  // ---------------------------------------------------------------- when a timer is due

  // Where a timer stands in the list as it is swept, and so which reading is its own.
  function Place(s: State<Id>, t: Id): nat {
    IndexOf(CleanRegion(s).list, t)
  }

  // A pass that does not run out of room comes to every timer of the list.
  lemma {:induction false} AllReached(list: seq<Id>, readings: seq<Reading>, p: Pass<Id>, t: Id)
    requires |readings| >= |list| && forall i | 0 <= i < |list| :: list[i] in p.timers
    requires t in list && !p.full && !Walk(list, readings, p).full
    ensures Reached(list, readings, p, t)
    decreases |list|
  {
    if list[0] != t && |p.fired| < MAX_TIMER_EXPIRED {
      AllReached(list[1..], readings[1..], Visit(list[0], readings[0], p), t);
    }
  }

  // A step of ProcessTimers that takes effect and does not end in the fault handler.
  predicate Passes(s: State<Id>, step: Step) {
    !s.faulted && step.Process? && AllExist(s) && |step.readings| >= |s.list| && !Next(s, step).faulted
  }

  lemma {:induction false} ProcessOne(s: State<Id>, step: Step, t: Id)
    requires Inv(s) && Passes(s, step) && t in s.timers
    ensures var f, next := s.timers[t], Next(s, step);
            && t in next.timers
            && (f.enabled ==>
                  && Place(s, t) < |step.readings|
                  && (FiresIn(s, step, t) <==> step.readings[Place(s, t)].first >= f.expireTime)
                  && (FiresIn(s, step, t) ==> next.timers[t].enabled == !f.once))
            && (!f.enabled ==> !FiresIn(s, step, t))
            && (!FiresIn(s, step, t) ==> next.timers[t] == f)
  {
    CleanKeepsInv(s);
    EnabledAre(s.list, s.timers);
    var c := CleanRegion(s);
    var p := Pass(c.timers, [], c.stopped, false);
    assert TimerOk(s, t) && TimerOk(c, t);
    WalkOne(c.list, step.readings, p, t);
    if s.timers[t].enabled {
      AllReached(c.list, step.readings, p, t);
    }
  }

  // Unless the timer fires, it keeps its deadline.
  lemma {:induction false} QuietKeeps(s: State<Id>, steps: seq<Step>, t: Id)
    requires Inv(s) && t in s.timers && Fires(s, steps, t) == 0 && !Exec(s, steps).faulted
    requires forall k | 0 <= k < |steps| :: LeavesAlone(steps[k], t)
    ensures t in Exec(s, steps).timers && Exec(s, steps).timers[t] == s.timers[t]
    decreases |steps|
  {
    if steps != [] {
      assert LeavesAlone(steps[0], t);
      var n := Next(s, steps[0]);
      if n.faulted {
        FaultedStays(n, steps[1..], t);
      } else if Passes(s, steps[0]) {
        ProcessOne(s, steps[0], t);
      }
      NextKeepsInv(s, steps[0]);
      QuietKeeps(n, steps[1..], t);
    }
  }

  // The state right after Start.
  function JustStarted(before: seq<Step>, t: Id, timeout: int, once: bool, start: int): State<Id> {
    Next(Exec(INIT, before), Start(t, timeout, once, start))
  }

  lemma StartArms(before: seq<Step>, t: Id, timeout: int, once: bool, start: int)
    requires t in Exec(INIT, before).timers && timeout > 0 && !Exec(INIT, before).faulted
    ensures var s := JustStarted(before, t, timeout, once, start);
            Inv(s) && !s.faulted && t in s.timers && s.timers[t] == Fields(timeout, start + timeout, true, once)
  {
    ExecKeepsInv(INIT, before);
    NextKeepsInv(Exec(INIT, before), Start(t, timeout, once, start));
  }

  /** After every run, a timer that has been started and left alone since, and has not fired
      yet, fires in a pass that does not end in the fault handler if and only if the pass
      reads the clock for it at `start + timeout` or later. */
  lemma {:induction false} FirstDue(before: seq<Step>, t: Id, timeout: int, once: bool, start: int, after: seq<Step>, step: Step)
    requires t in Exec(INIT, before).timers && timeout > 0 && !Exec(INIT, before).faulted
    requires forall k | 0 <= k < |after| :: LeavesAlone(after[k], t)
    requires var s := JustStarted(before, t, timeout, once, start);
             Fires(s, after, t) == 0 && Passes(Exec(s, after), step)
    ensures var s := Exec(JustStarted(before, t, timeout, once, start), after);
            Place(s, t) < |step.readings| && (FiresIn(s, step, t) <==> step.readings[Place(s, t)].first >= start + timeout)
  {
    var s := JustStarted(before, t, timeout, once, start);
    StartArms(before, t, timeout, once, start);
    ExecKeepsInv(s, after);
    QuietKeeps(s, after, t);
    ProcessOne(Exec(s, after), step, t);
  }

  /** A periodic timer that has fired k times since, each time in time, fires in the next
      such pass if and only if the clock reads `start + (k + 1) * period` or later. */
  lemma {:induction false} PeriodicDue(before: seq<Step>, t: Id, period: int, start: int, after: seq<Step>, step: Step)
    requires t in Exec(INIT, before).timers && period > 0 && !Exec(INIT, before).faulted
    requires forall k | 0 <= k < |after| :: LeavesAlone(after[k], t) && Ticking(after[k])
    requires var s := JustStarted(before, t, period, false, start);
             InTime(s, after, t) && Passes(Exec(s, after), step)
    ensures var s := JustStarted(before, t, period, false, start);
            var k, n := Fires(s, after, t), Exec(s, after);
            Place(n, t) < |step.readings| && (FiresIn(n, step, t) <==> step.readings[Place(n, t)].first >= start + (k + 1) * period)
  {
    var s := JustStarted(before, t, period, false, start);
    StartArms(before, t, period, false, start);
    ExecKeepsInv(s, after);
    DeadlineInTime(s, after, t, period, start);
    ProcessOne(Exec(s, after), step, t);
  }

  lemma {:induction false} DeadlineInTime(s: State<Id>, steps: seq<Step>, t: Id, period: int, start: int)
    requires Inv(s) && Periodic(s, t, period, start + period) && InTime(s, steps, t) && !Exec(s, steps).faulted
    requires forall k | 0 <= k < |steps| :: LeavesAlone(steps[k], t) && Ticking(steps[k])
    ensures Periodic(Exec(s, steps), t, period, start + (Fires(s, steps, t) + 1) * period)
  {
    Deadlines(s, steps, t, period, start + period);
    OnePeriodMore(Fires(s, steps, t), period);
  }

  lemma OnePeriodMore(k: nat, period: int)
    ensures (k + 1) * period == k * period + period
  {
  }

  /** And a one-shot timer fires at most once for each start. */
  lemma {:induction false} OneShotOnce(before: seq<Step>, t: Id, timeout: int, start: int, after: seq<Step>)
    requires t in Exec(INIT, before).timers && timeout > 0 && !Exec(INIT, before).faulted
    requires forall k | 0 <= k < |after| :: LeavesAlone(after[k], t)
    ensures Fires(JustStarted(before, t, timeout, true, start), after, t) <= 1
  {
    StartArms(before, t, timeout, true, start);
    OneShotFrom(JustStarted(before, t, timeout, true, start), after, t);
  }

  lemma {:induction false} OneShotFrom(s: State<Id>, steps: seq<Step>, t: Id)
    requires Inv(s) && t in s.timers && s.timers[t].once
    requires forall k | 0 <= k < |steps| :: LeavesAlone(steps[k], t)
    ensures Fires(s, steps, t) <= if s.timers[t].enabled then 1 else 0
    decreases |steps|
  {
    if steps != [] {
      assert LeavesAlone(steps[0], t);
      var n := Next(s, steps[0]);
      NextKeepsInv(s, steps[0]);
      if n.faulted {
        NoneWhenFaulted(s, steps[0], t);
        FaultedStays(n, steps[1..], t);
      } else {
        if Passes(s, steps[0]) {
          ProcessOne(s, steps[0], t);
          OnceStays(s, steps[0], t);
        }
        OneShotFrom(n, steps[1..], t);
      }
    }
  }

  lemma NoneWhenFaulted(s: State<Id>, step: Step, t: Id)
    requires Next(s, step).faulted
    ensures !FiresIn(s, step, t)
  {
  }

  lemma OnceStays(s: State<Id>, step: Step, t: Id)
    requires Inv(s) && Passes(s, step) && t in s.timers
    ensures t in Next(s, step).timers && Next(s, step).timers[t].once == s.timers[t].once
  {
    CleanKeepsInv(s);
    EnabledAre(s.list, s.timers);
    var c := CleanRegion(s);
    WalkOne(c.list, step.readings, Pass(c.timers, [], c.stopped, false), t);
  }

  // Nobody starts the timer.
  predicate DoesNotStart(step: Step, t: Id) {
    step.Start? ==> step.t != t
  }

  lemma {:induction false} OffStaysSilent(s: State<Id>, steps: seq<Step>, t: Id)
    requires Inv(s) && (t in s.timers ==> !s.timers[t].enabled)
    requires forall k | 0 <= k < |steps| :: DoesNotStart(steps[k], t)
    ensures Fires(s, steps, t) == 0
    decreases |steps|
  {
    if steps != [] {
      assert DoesNotStart(steps[0], t);
      NextKeepsInv(s, steps[0]);
      OffStep(s, steps[0], t);
      OffStaysSilent(Next(s, steps[0]), steps[1..], t);
    }
  }

  lemma {:induction false} OffStep(s: State<Id>, step: Step, t: Id)
    requires Inv(s) && (t in s.timers ==> !s.timers[t].enabled) && DoesNotStart(step, t)
    ensures !FiresIn(s, step, t) && (t in Next(s, step).timers ==> !Next(s, step).timers[t].enabled)
  {
    if !s.faulted && step.Process? && AllExist(s) && |step.readings| >= |s.list| {
      CleanKeepsInv(s);
      EnabledAre(s.list, s.timers);
      var c := CleanRegion(s);
      var p := Pass(c.timers, [], c.stopped, false);
      if t in s.timers {
        WalkOne(c.list, step.readings, p, t);
      } else {
        WalkKeys(c.list, step.readings, p);
        FiredExist(c.list, step.readings, p);
      }
    }
  }

  lemma {:induction false} FiredExist(list: seq<Id>, readings: seq<Reading>, p: Pass<Id>)
    requires |readings| >= |list| && forall i | 0 <= i < |list| :: list[i] in p.timers
    requires forall t | t in p.fired :: t in p.timers
    ensures forall t | t in Walk(list, readings, p).fired :: t in p.timers
    decreases |list|
  {
    if list != [] && |p.fired| < MAX_TIMER_EXPIRED {
      FiredExist(list[1..], readings[1..], Visit(list[0], readings[0], p));
    }
  }

  /** A timer that has been created, stopped or destroyed does not fire until it is started
      again, whatever else happens. */
  lemma {:induction false} SilentUntilStarted(before: seq<Step>, step: Step, t: Id, after: seq<Step>)
    requires !Exec(INIT, before).faulted
    requires step == Stop(t) || step == Destroy(t) || (step == Create(t) && t !in Exec(INIT, before).timers)
    requires forall k | 0 <= k < |after| :: DoesNotStart(after[k], t)
    ensures Fires(Next(Exec(INIT, before), step), after, t) == 0
  {
    ExecKeepsInv(INIT, before);
    NextKeepsInv(Exec(INIT, before), step);
    OffStaysSilent(Next(Exec(INIT, before), step), after, t);
  }

  // ---------------------------------------------------------------- the grid

  // The deadlines a timer takes in a run, up to the fault handler if it comes to that, all
  // lie a whole number of periods from `origin`.
  ghost predicate AlwaysOnGrid(s: State<Id>, steps: seq<Step>, t: Id, period: int, origin: int)
    requires period > 0
    decreases |steps|
  {
    && (s.faulted || (DeadlineAfter(s, t) - origin) % period == 0)
    && (steps != [] ==> AlwaysOnGrid(Next(s, steps[0]), steps[1..], t, period, origin))
  }

  // Each firing is processed in time, or restarts the timer a whole number of periods
  // after it fell due.
  ghost predicate Lands(s: State<Id>, steps: seq<Step>, t: Id, period: int)
    requires period > 0
    decreases |steps|
  {
    steps == [] ||
    (&& (FiresIn(s, steps[0], t) && t in s.timers ==>
           Punctual(s, steps[0].readings, t) || RestartsOnGrid(s, steps[0].readings, t, period))
     && Lands(Next(s, steps[0]), steps[1..], t, period))
  }

  predicate RestartsOnGrid(s: State<Id>, readings: seq<Reading>, t: Id, period: int)
    requires t in s.timers && period > 0
  {
    var i := IndexOf(CleanRegion(s).list, t);
    i < |readings| ==> (readings[i].third - s.timers[t].expireTime) % period == 0
  }

  lemma AddMultiple(a: int, b: int, period: int)
    requires period > 0 && a % period == 0
    ensures (a + b) % period == b % period
  {
    var k := a / period;
    assert a == k * period;
    var q, r := b / period, b % period;
    assert a + b == (k + q) * period + r by { assert (k + q) * period == k * period + q * period; }
    var e := (a + b) / period - (k + q);
    assert e * period == r - (a + b) % period by {
      assert (e + (k + q)) * period == e * period + (k + q) * period;
    }
    if e >= 1 { Scales(e, 1, period); }
    if e <= -1 { Scales(-1, e, period); }
  }

  // A late firing restarts the timer at the third reading.
  lemma LateStep(s: State<Id>, step: Step, t: Id, period: int, deadline: int)
    requires Inv(s) && Periodic(s, t, period, deadline) && FiresIn(s, step, t)
    requires !Punctual(s, step.readings, t)
    ensures var i := IndexOf(CleanRegion(s).list, t);
            i < |step.readings| && DeadlineAfter(Next(s, step), t) == step.readings[i].third
  {
    assert TimerOk(s, t);
    CleanKeepsInv(s);
    EnabledAre(s.list, s.timers);
    var c := CleanRegion(s);
    WalkOne(c.list, step.readings, Pass(c.timers, [], c.stopped, false), t);
  }

  // One step stays on the grid exactly when a firing is punctual or restarts on it.
  lemma GridStep(s: State<Id>, step: Step, t: Id, period: int, deadline: int, origin: int)
    requires Inv(s) && Periodic(s, t, period, deadline) && period > 0 && (deadline - origin) % period == 0
    requires LeavesAlone(step, t) && Ticking(step)
    ensures Periodic(Next(s, step), t, period, DeadlineAfter(Next(s, step), t))
    ensures !Next(s, step).faulted ==>
              ((DeadlineAfter(Next(s, step), t) - origin) % period == 0 <==>
                 (FiresIn(s, step, t) ==> Punctual(s, step.readings, t) || RestartsOnGrid(s, step.readings, t, period)))
  {
    DeadlineStep(s, step, t, period, deadline);
    var next := DeadlineAfter(Next(s, step), t);
    AddMultiple(deadline - origin, next - deadline, period);
    if FiresIn(s, step, t) {
      if Punctual(s, step.readings, t) {
        AddMultiple(period, 0, period);
      } else {
        LateStep(s, step, t, period, deadline);
      }
    }
  }

  lemma {:induction false} FaultedRest(s: State<Id>, steps: seq<Step>, t: Id, period: int, origin: int)
    requires s.faulted && period > 0
    ensures AlwaysOnGrid(s, steps, t, period, origin) && Lands(s, steps, t, period)
    decreases |steps|
  {
    if steps != [] {
      FaultedRest(s, steps[1..], t, period, origin);
    }
  }

  /** All deadlines of a periodic timer that is left alone lie on its grid if and only if
      each firing was processed in time or came a whole number of periods late. */
  lemma {:induction false} OnGridIff(s: State<Id>, steps: seq<Step>, t: Id, period: int, deadline: int, origin: int)
    requires Inv(s) && Periodic(s, t, period, deadline) && period > 0 && (deadline - origin) % period == 0
    requires forall k | 0 <= k < |steps| :: LeavesAlone(steps[k], t) && Ticking(steps[k])
    ensures AlwaysOnGrid(s, steps, t, period, origin) <==> Lands(s, steps, t, period)
    decreases |steps|
  {
    if steps != [] {
      assert LeavesAlone(steps[0], t) && Ticking(steps[0]);
      GridStep(s, steps[0], t, period, deadline, origin);
      NextKeepsInv(s, steps[0]);
      var n := Next(s, steps[0]);
      if n.faulted {
        FaultedRest(n, steps[1..], t, period, origin);
      } else if (DeadlineAfter(n, t) - origin) % period == 0 {
        OnGridIff(n, steps[1..], t, period, DeadlineAfter(n, t), origin);
      }
    }
  }

  const ONE_TIMER := [Create(0), Start(0, 10, false, 0)]

  /** A firing more than a period late can leave the grid, and one that comes exactly two
      periods late stays on it although the deadline moved by more than a period. */
  lemma LateFirings()
    ensures Periodic(Exec(INIT, ONE_TIMER), 0, 10, 10)
    ensures Periodic(Exec(INIT, ONE_TIMER + [Process([Reading(30, 31, 33)])]), 0, 10, 33)
    ensures Periodic(Exec(INIT, ONE_TIMER + [Process([Reading(30, 30, 30)])]), 0, 10, 30)
  {
    ProcessedOnce(Reading(30, 31, 33));
    ProcessedOnce(Reading(30, 30, 30));
  }

  lemma ProcessedOnce(r: Reading)
    ensures Periodic(Exec(INIT, ONE_TIMER), 0, 10, 10)
    ensures var n := Exec(INIT, ONE_TIMER + [Process([r])]);
            0 in n.timers && n.timers[0] == Check(Fields(10, 10, true, false), r)
  {
    var s := State([0], map[0 := Fields(10, 10, true, false)], false, false);
    var created := Next(INIT, Create(0));
    assert Next(created, Start(0, 10, false, 0)) == s;
    Steps(INIT, Create(0), [Start(0, 10, false, 0)]);
    Steps(created, Start(0, 10, false, 0), []);
    Steps(INIT, Create(0), [Start(0, 10, false, 0), Process([r])]);
    Steps(created, Start(0, 10, false, 0), [Process([r])]);
    Steps(s, Process([r]), []);
    assert ONE_TIMER + [Process([r])] == [Create(0)] + [Start(0, 10, false, 0), Process([r])];
    assert s.list[1..] == [] && AllExist(s);
    var p := Pass(s.timers, [], false, false);
    assert Walk(s.list, [r], p) == Visit(0, r, p);
  }

  lemma Steps(s: State<Id>, first: Step, rest: seq<Step>)
    ensures Exec(s, [first] + rest) == Exec(Next(s, first), rest)
  {
    assert ([first] + rest)[1..] == rest;
  }

  lemma {:induction false} FiresBefore(s: State<Id>, steps: seq<Step>, t: Id, period: int, deadline: int, now: int)
    requires Inv(s) && Periodic(s, t, period, deadline)
    requires forall k | 0 <= k < |steps| :: LeavesAlone(steps[k], t) && Ticking(steps[k]) && Before(steps[k], now)
    ensures Fires(s, steps, t) > 0 ==> Fires(s, steps, t) * period <= now - deadline + period
    decreases |steps|
  {
    assert TimerOk(s, t);
    if steps != [] {
      assert LeavesAlone(steps[0], t) && Ticking(steps[0]) && Before(steps[0], now);
      DeadlineStep(s, steps[0], t, period, deadline);
      NextKeepsInv(s, steps[0]);
      var n := Next(s, steps[0]);
      FiresBefore(n, steps[1..], t, period, DeadlineAfter(n, t), now);
      OneMore(Fires(n, steps[1..], t), period, DeadlineAfter(n, t), deadline, now);
    }
  }

  lemma OneMore(rest: nat, period: int, next: int, deadline: int, now: int)
    requires rest > 0 ==> rest * period <= now - next + period
    ensures (rest + 1) * period == rest * period + period
    ensures rest > 0 && next >= deadline + period ==> (rest + 1) * period <= now - deadline + period
  {
  }

  /** A periodic timer started at `start` and then left alone has, by any later time `now`
      and for any schedule of ProcessTimers calls, fired at most floor((now - start) / T)
      times. */
  lemma {:induction false} FiresAtMost(before: seq<Step>, t: Id, period: int, start: int, after: seq<Step>, now: int)
    requires t in Exec(INIT, before).timers && period > 0 && now >= start
    requires forall k | 0 <= k < |after| :: LeavesAlone(after[k], t) && Ticking(after[k]) && Before(after[k], now)
    ensures var s := Next(Exec(INIT, before), Start(t, period, false, start));
            Fires(s, after, t) <= (now - start) / period
  {
    ExecKeepsInv(INIT, before);
    var s := Next(Exec(INIT, before), Start(t, period, false, start));
    NextKeepsInv(Exec(INIT, before), Start(t, period, false, start));
    if s.faulted {
      FaultedStays(s, after, t);
    } else {
      FiresBefore(s, after, t, period, start + period, now);
    }
    AtMost(Fires(s, after, t), period, now - start);
  }

  lemma Scales(a: int, b: int, d: int)
    requires d > 0
    ensures a >= b ==> a * d >= b * d
  {
    if a >= b {
      assert (a - b) * d >= 0;
    }
  }

  lemma AtMost(n: nat, period: int, span: int)
    requires period > 0 && span >= 0 && (n > 0 ==> n * period <= span)
    ensures n <= span / period
  {
    var q := span / period;
    assert span < (q + 1) * period;
    Scales(n, q + 1, period);
  }
}
