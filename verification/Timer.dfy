/** Timers: what each operation does to the list of timers and to their fields, for timers
    of any identity type. The classes in TimerList are proved against these functions. */
module Timers {
  import opened Common
  const MAX_TIMER_EXPIRED: nat := 16

  datatype Fields = Fields(timeout: int, expireTime: int, enabled: bool, once: bool)

  // CheckExpired reads the clock up to three times.
  datatype Reading = Reading(first: int, second: int, third: int)

  // `list` is the intrusive list from its head; `timers` are the timers that exist; once
  // `faulted`, the program is in its fault handler, which does not return, with the lock
  // held.
  datatype State<T(==)> = State(list: seq<T>, timers: map<T, Fields>, stopped: bool, faulted: bool)

  // A new timer is off.
  const OFF := Fields(0, 0, false, false)

  function CreateRegion<T>(s: State<T>, t: T): State<T> {
    s.(timers := s.timers[t := OFF])
  }

  // A timeout that is not positive is refused.
  function StartRegion<T>(s: State<T>, t: T, timeout: int, once: bool, now: int): State<T> {
    if timeout <= 0 then s
    else s.(list := if t in s.list then s.list else [t] + s.list,
            timers := s.timers[t := Fields(timeout, now + timeout, true, once)])
  }

  function StopRegion<T>(s: State<T>, t: T): State<T> {
    if t in s.timers then s.(timers := s.timers[t := s.timers[t].(enabled := false)], stopped := true) else s
  }

  function Without<T(==)>(list: seq<T>, t: T): seq<T> {
    if list == [] then [] else if list[0] == t then list[1..] else [list[0]] + Without(list[1..], t)
  }

  lemma {:induction false} WithoutIs<T>(list: seq<T>, t: T)
    requires Distinct(list)
    ensures Distinct(Without(list, t))
    ensures t !in Without(list, t)
    ensures forall x | x in list && x != t :: x in Without(list, t)
    ensures forall x | x in Without(list, t) :: x in list
  {
    if list != [] {
      WithoutIs(list[1..], t);
      assert list[0] !in list[1..];
    }
  }

  function DestroyRegion<T>(s: State<T>, t: T): State<T> {
    s.(list := Without(s.list, t), timers := s.timers - {t})
  }

  function Enabled<T>(list: seq<T>, timers: map<T, Fields>): seq<T> {
    if list == [] then []
    else (if list[0] in timers && timers[list[0]].enabled then [list[0]] else []) + Enabled(list[1..], timers)
  }

  // ProcessTimers first drops disabled timers, if any was stopped.
  function CleanRegion<T>(s: State<T>): State<T> {
    if s.stopped then s.(list := Enabled(s.list, s.timers), stopped := false) else s
  }

  predicate Expired(f: Fields, r: Reading) {
    f.enabled && r.first >= f.expireTime
  }

  // A periodic timer that has fallen more than a whole period behind starts anew.
  function Check(f: Fields, r: Reading): Fields {
    if !Expired(f, r) then f
    else if f.once then f.(enabled := false)
    else
      var next := f.expireTime + f.timeout;
      f.(expireTime := if r.second > next then r.third else next)
  }

  // The pass over the list: each timer is checked in turn, with its reading. If a timer
  // is left and there is no room for another snapshot, an assertion fails.
  datatype Pass<T> = Pass(timers: map<T, Fields>, fired: seq<T>, stopped: bool, full: bool)

  function Walk<T(==)>(list: seq<T>, readings: seq<Reading>, p: Pass<T>): Pass<T>
    requires |readings| >= |list| && forall i | 0 <= i < |list| :: list[i] in p.timers
    decreases |list|
  {
    if list == [] then p
    else if |p.fired| >= MAX_TIMER_EXPIRED then p.(full := true)
    else Walk(list[1..], readings[1..], Visit(list[0], readings[0], p))
  }

  function Visit<T>(t: T, r: Reading, p: Pass<T>): Pass<T>
    requires t in p.timers
  {
    var f := p.timers[t];
    p.(timers := p.timers[t := Check(f, r)],
       fired := if Expired(f, r) then p.fired + [t] else p.fired,
       stopped := p.stopped || (Expired(f, r) && f.once))
  }

  predicate AllExist<T>(s: State<T>) {
    forall i | 0 <= i < |s.list| :: s.list[i] in s.timers
  }

  lemma {:induction false} EnabledAre<T>(list: seq<T>, timers: map<T, Fields>)
    ensures |Enabled(list, timers)| <= |list|
    ensures forall t :: t in Enabled(list, timers) <==> t in list && t in timers && timers[t].enabled
  {
    if list != [] {
      EnabledAre(list[1..], timers);
    }
  }

  function PassOf<T>(s: State<T>, readings: seq<Reading>): Pass<T>
    requires AllExist(s) && |readings| >= |s.list|
  {
    var clean := CleanRegion(s);
    EnabledAre(s.list, s.timers);
    Walk(clean.list, readings, Pass(clean.timers, [], clean.stopped, false))
  }

  // The timers whose signals a pass invokes once it has released the lock.
  function Delivered<T>(p: Pass<T>): seq<T> {
    if p.full then [] else p.fired
  }

  function ProcessRegion<T>(s: State<T>, readings: seq<Reading>): State<T>
    requires AllExist(s) && |readings| >= |s.list|
  {
    var p := PassOf(s, readings);
    State(CleanRegion(s).list, p.timers, p.stopped, s.faulted || p.full)
  }
}
