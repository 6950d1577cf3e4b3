/** The timers themselves: objects linked through their `next` fields, with the list
    surgery of ~Timer, Start and ProcessTimers done in place. */
module TimerList {
  import opened Common
  import opened Timers

  class Timer {
    var timeout: int
    var expireTime: int
    var enabled: bool
    var once: bool
    var next: Timer?

    constructor ()
      ensures View() == OFF && next == null
    {
      timeout, expireTime, enabled, once, next := 0, 0, false, false, null;
    }

    ghost function View(): Fields
      reads this
    {
      Fields(timeout, expireTime, enabled, once)
    }

    method Arm(timeout: int, once: bool, now: int)
      modifies this`timeout, this`once, this`expireTime, this`enabled
      ensures View() == Fields(timeout, now + timeout, true, once)
    {
      this.timeout := timeout;
      this.once := once;
      expireTime := now + timeout;
      enabled := true;
    }

    /** CheckExpired, with what its reads of the clock return; `stopped` is the flag that
        all timers share. */
    method CheckExpired(r: Reading, stopped: bool) returns (expired: bool, stopped': bool)
      modifies this`enabled, this`expireTime
      ensures View() == Check(old(View()), r)
      ensures expired == Expired(old(View()), r) && stopped' == (stopped || (expired && old(once)))
    {
      stopped' := stopped;
      if !enabled {
        return false, stopped;
      }
      if r.first < expireTime {
        return false, stopped;
      }
      if once {
        enabled := false;
        stopped' := true;
      } else {
        expireTime := expireTime + timeout;
        if r.second > expireTime {
          expireTime := r.third;
        }
      }
      expired := true;
    }
  }

  class TimerService {
    var head: Timer?
    var timerStopped: bool
    var faulted: bool
    // The list that the links spell, and the timers that exist.
    ghost var list: seq<Timer>
    ghost var timers: set<Timer>

    ghost predicate Linked(p: Timer?, rest: seq<Timer>)
      reads rest
    {
      && p == (if rest == [] then null else rest[0])
      && forall i {:trigger rest[i].next} | 0 <= i < |rest| :: rest[i].next == if i + 1 < |rest| then rest[i + 1] else null
    }

    ghost predicate Valid()
      reads this, timers, list
    {
      && Linked(head, list)
      && Distinct(list)
      && (forall i | 0 <= i < |list| :: list[i] in timers)
    }

    ghost function View(): State<Timer>
      reads this, timers
    {
      State(list, map t | t in timers :: t.View(), timerStopped, faulted)
    }

    constructor ()
      ensures Valid() && View() == State([], map[], false, false)
    {
      head, timerStopped, faulted, list, timers := null, false, false, [], {};
    }

    method Create() returns (t: Timer)
      requires Valid()
      modifies this
      ensures Valid() && fresh(t) && View() == CreateRegion(old(View()), t)
    {
      t := new Timer();
      timers := timers + {t};
    }

    method Stop(t: Timer)
      requires Valid() && t in timers
      modifies this`timerStopped, t
      ensures Valid() && View() == StopRegion(old(View()), t)
    {
      t.enabled := false;
      timerStopped := true;
    }

    // The search for a timer, along the live links.
    method Find(t: Timer) returns (found: bool)
      requires Valid()
      ensures found == (t in list)
    {
      var p := head;
      ghost var i := 0;
      while p != null
        invariant i <= |list| && p == (if i < |list| then list[i] else null)
        invariant t !in list[..i]
        decreases |list| - i
      {
        if p == t {
          return true;
        }
        p := p.next;
        i := i + 1;
      }
      assert list[..i] == list;
      return false;
    }

    method Start(t: Timer, timeout: int, once: bool, now: int)
      requires Valid() && t in timers
      modifies this`head, this`list, t
      ensures Valid()
      ensures View() == StartRegion(old(View()), t, timeout, once, now)
    {
      if timeout <= 0 {
        return;  // std::invalid_argument, or ASSERT
      }
      t.Arm(timeout, once, now);
      var found := Find(t);
      if !found {
        PushFront(t);
      }
      assert forall u | u in timers && u != t :: u.View() == old(u.View());
      OneChanged(old(View()).timers, View().timers, t, Fields(timeout, now + timeout, true, once));
    }

    method PushFront(t: Timer)
      requires Valid() && t in timers && t !in list
      modifies this`head, this`list, t`next
      ensures Valid() && list == [t] + old(list)
    {
      t.next := head;
      head := t;
      list := [t] + list;
    }

    // Takes the timer behind `prev` (the head if that is null) out of the list.
    method Unlink(prev: Timer?, t: Timer, ghost i: nat)
      requires Valid() && i < |list| && list[i] == t
      requires prev == if i == 0 then null else list[i - 1]
      modifies this`head, this`list, timers`next
      ensures Valid() && list == old(list[..i] + list[i + 1..]) && t.next == null
    {
      if prev == null {
        head := t.next;
      } else {
        prev.next := t.next;
      }
      t.next := null;
      list := list[..i] + list[i + 1..];
    }

    // Takes a timer out of the list, if it is there.
    method Detach(t: Timer)
      requires Valid()
      modifies this`head, this`list, timers`next
      ensures Valid() && list == Without(old(list), t)
    {
      var prev: Timer?, p := null, head;
      ghost var i := 0;
      while p != null && p != t
        invariant i <= |list| && p == (if i < |list| then list[i] else null)
        invariant prev == if i == 0 then null else list[i - 1]
        invariant t !in list[..i]
        decreases |list| - i
      {
        prev := p;
        p := p.next;
        i := i + 1;
      }
      WithoutAt(list, t, i);
      if p != null {
        Unlink(prev, t, i);
      } else {
        assert list[..i] == list;
      }
    }

    /** ~Timer. */
    method Destroy(t: Timer)
      requires Valid() && t in timers
      modifies this`head, this`list, this`timers, timers`next
      ensures Valid() && View() == DestroyRegion(old(View()), t)
    {
      Detach(t);
      assert forall u | u in timers :: u.View() == old(u.View());
      WithoutIs(old(list), t);
      assert t !in list;
      timers := timers - {t};
    }

    // Where a walk along the links is: at position i, behind `prev`.
    ghost predicate At(prev: Timer?, p: Timer?, i: nat)
      reads this
    {
      && i <= |list| && (p == null <==> i == |list|)
      && p == (if i < |list| then list[i] else null)
      && prev == if i == 0 then null else list[i - 1]
    }

    // One step of the sweep.
    method DropIfDisabled(prev: Timer?, p: Timer, ghost i: nat) returns (prev': Timer?, p': Timer?)
      requires Valid() && At(prev, p, i)
      modifies this`head, this`list, timers`next
      ensures Valid()
      ensures p.enabled ==> list == old(list) && At(prev', p', i + 1)
      ensures !p.enabled ==> list == old(list[..i] + list[i + 1..]) && At(prev', p', i)
    {
      p' := p.next;
      if !p.enabled {
        Unlink(prev, p, i);
        prev' := prev;
      } else {
        prev' := p;
      }
    }

    // The sweep has kept `kept` of the list `was`, and has `rest` before it.
    ghost predicate Sweeping(prev: Timer?, p: Timer?, kept: seq<Timer>, rest: seq<Timer>, was: seq<Timer>,
        all: map<Timer, Fields>)
      reads this, timers, list
    {
      && Valid() && At(prev, p, |kept|) && list == kept + rest
      && Enabled(was, all) == kept + Enabled(rest, all)
      && forall t | t in timers :: t in all && t.enabled == all[t].enabled
    }

    method SweepOne(prev: Timer?, p: Timer, ghost kept: seq<Timer>, ghost rest: seq<Timer>,
                    ghost was: seq<Timer>, ghost all: map<Timer, Fields>)
      returns (prev': Timer?, p': Timer?, ghost kept': seq<Timer>, ghost rest': seq<Timer>)
      requires Sweeping(prev, p, kept, rest, was, all)
      modifies this`head, this`list, timers`next
      ensures Sweeping(prev', p', kept', rest', was, all) && |rest'| < |rest|
    {
      assert rest[0] == list[|kept|] == p && p in timers;
      Unlinked(kept, rest);
      prev', p' := DropIfDisabled(prev, p, |kept|);
      rest' := rest[1..];
      kept' := if p.enabled then kept + [p] else kept;
    }

    // Drops the disabled timers from the list.
    method DropDisabled()
      requires Valid()
      modifies this`head, this`list, timers`next
      ensures Valid() && list == Enabled(old(list), old(View()).timers)
    {
      var prev: Timer?, p := null, head;
      ghost var was, all, rest := list, View().timers, list;
      ghost var kept: seq<Timer> := [];
      while p != null
        invariant Sweeping(prev, p, kept, rest, was, all)
        decreases |rest|
      {
        prev, p, kept, rest := SweepOne(prev, p, kept, rest, was, all);
      }
      assert |rest| == 0;
    }

    ghost function Sofar(fired: seq<Timer>): Pass<Timer>
      reads this, timers
    {
      Pass(View().timers, fired, timerStopped, false)
    }

    method VisitTimer(t: Timer, r: Reading, fired: seq<Timer>) returns (fired': seq<Timer>)
      requires Valid() && t in timers
      modifies this`timerStopped, t`enabled, t`expireTime
      ensures Valid() && Sofar(fired') == Visit(t, r, old(Sofar(fired)))
    {
      var expired;
      expired, timerStopped := t.CheckExpired(r, timerStopped);
      fired' := if expired then fired + [t] else fired;
      assert forall u | u in timers && u != t :: u.View() == old(u.View());
      OneChanged(old(View()).timers, View().timers, t, Check(old(t.View()), r));
    }

    /** ProcessTimers: under the lock the sweep, then one check per timer; then, outside the
        lock, the captured signals are invoked. If there is no room for another snapshot the
        fault handler is called under the lock, and nothing is invoked. */
    method ProcessTimers(readings: seq<Reading>) returns (invoked: seq<Timer>)
      requires Valid() && |readings| >= |list|
      modifies this`head, this`list, this`timerStopped, this`faulted, timers
      ensures Valid() && AllExist(old(View()))
      ensures View() == ProcessRegion(old(View()), readings)
      ensures invoked == Delivered(PassOf(old(View()), readings))
    {
      var fired, full := LockedPass(readings);
      if full {
        faulted := true;  // ASSERT_TRUE
        return [];
      }
      invoked := fired;
    }

    // What happens under the lock, up to the fault.
    method LockedPass(readings: seq<Reading>) returns (fired: seq<Timer>, full: bool)
      requires Valid() && |readings| >= |list|
      modifies this`head, this`list, this`timerStopped, timers
      ensures Valid() && AllExist(old(View()))
      ensures var p := PassOf(old(View()), readings); fired == p.fired && full == p.full
      ensures View().(faulted := faulted || full) == ProcessRegion(old(View()), readings)
    {
      EnabledAre(list, View().timers);
      Clean();
      fired, full := WalkList(readings);
    }

    method Clean()
      requires Valid()
      modifies this`head, this`list, this`timerStopped, timers`next
      ensures Valid() && View() == CleanRegion(old(View()))
    {
      if timerStopped {
        DropDisabled();
        assert forall u | u in timers :: u.View() == old(u.View());
        timerStopped := false;
      }
    }

    method WalkList(readings: seq<Reading>) returns (fired: seq<Timer>, full: bool)
      requires Valid() && |readings| >= |list|
      modifies this`timerStopped, timers
      ensures Valid() && AllExist(old(View()))
      ensures Walk(list, readings, old(Sofar([]))) == Pass(View().timers, fired, timerStopped, full)
    {
      fired, full := [], false;
      ghost var whole := Walk(list, readings, Sofar([]));
      var t, i := head, 0;
      while t != null
        invariant Valid() && i <= |list| && t == (if i < |list| then list[i] else null)
        invariant View().timers.Keys == timers
        invariant Walk(list[i..], readings[i..], Sofar(fired)) == whole
        decreases |list| - i
      {
        if |fired| >= MAX_TIMER_EXPIRED {
          full := true;
          break;
        }
        WalkFrom(list, readings, i, Sofar(fired));
        fired := VisitTimer(t, readings[i], fired);
        t := t.next;
        i := i + 1;
      }
    }
  }

  lemma OneChanged(was: map<Timer, Fields>, now: map<Timer, Fields>, t: Timer, f: Fields)
    requires now.Keys == was.Keys && t in was && now[t] == f
    requires forall u | u in was && u != t :: now[u] == was[u]
    ensures now == was[t := f]
  {
  }

  lemma WalkFrom(list: seq<Timer>, readings: seq<Reading>, i: nat, p: Pass<Timer>)
    requires i < |list| <= |readings| && |p.fired| < MAX_TIMER_EXPIRED
    requires forall j | 0 <= j < |list| :: list[j] in p.timers
    ensures Walk(list[i..], readings[i..], p) == Walk(list[i + 1..], readings[i + 1..], Visit(list[i], readings[i], p))
  {
    assert list[i..][1..] == list[i + 1..] && readings[i..][1..] == readings[i + 1..];
  }

  lemma Unlinked(kept: seq<Timer>, rest: seq<Timer>)
    requires rest != []
    ensures var i, list := |kept|, kept + rest;
            list == kept + [rest[0]] + rest[1..] && list[..i] + list[i + 1..] == kept + rest[1..]
  {
  }

  lemma {:induction false} WithoutAt(list: seq<Timer>, t: Timer, i: nat)
    requires i <= |list| && t !in list[..i] && (i < |list| ==> list[i] == t)
    ensures Without(list, t) == if i < |list| then list[..i] + list[i + 1..] else list
  {
    if i > 0 {
      assert list[0] == list[..i][0] && list[1..][..i - 1] == list[..i][1..];
      WithoutAt(list[1..], t, i - 1);
      assert list == [list[0]] + list[1..];
    }
  }
}
