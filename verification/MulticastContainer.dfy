/** The container class itself, its fields changed in place, against the functions of
    MulticastDelegates. */
module MulticastContainer {
  import opened Common
  import opened MulticastDelegates

  class MulticastDelegate {
    var delegates: seq<Slot>
    var broadcastCount: nat
    var cleanup: bool

    ghost function View(): Box
      reads this
    {
      Box(delegates, broadcastCount, cleanup)
    }

    constructor (slots: seq<Slot>)
      ensures View() == Box(slots, 0, false)
    {
      delegates, broadcastCount, cleanup := slots, 0, false;
    }

    method PushBack(d: Delegate)
      modifies this
      ensures View() == old(View()).(slots := old(delegates) + [Some(d)])
    {
      delegates := delegates + [Some(d)];
    }

    method Remove(d: Delegate)
      modifies this
      ensures View() == RemoveFrom(old(View()), d)
    {
      var it := 0;
      while it < |delegates| && delegates[it] != Some(d)
        invariant it <= |delegates|
        invariant forall j | 0 <= j < it :: delegates[j] != Some(d)
      {
        it := it + 1;
      }
      FirstIs(delegates, d, it);
      if it != |delegates| {
        if broadcastCount > 0 {
          delegates := delegates[it := None];
          cleanup := true;
        } else {
          delegates := delegates[..it] + delegates[it + 1..];
        }
      }
    }

    method Clear()
      modifies this
      ensures View() == ClearAll(old(View()))
    {
      if broadcastCount > 0 {
        var i := 0;
        while i < |delegates|
          invariant i <= |delegates| == old(|delegates|)
          invariant forall j | 0 <= j < i :: delegates[j] == None
          invariant broadcastCount == old(broadcastCount)
        {
          delegates := delegates[i := None];
          i := i + 1;
        }
        cleanup := true;
        assert delegates == Blanked(old(delegates));
      } else {
        delegates := [];
      }
    }

    method CopyFrom(other: MulticastDelegate)
      requires other != this
      modifies this
      ensures View() == old(View()).(slots := old(delegates) + Full(Items(other.delegates)))
    {
      var i := 0;
      assert Full(Items([])) == [];
      while i < |other.delegates|
        invariant i <= |other.delegates|
        invariant broadcastCount == old(broadcastCount) && cleanup == old(cleanup)
        invariant delegates == old(delegates) + Full(Items(other.delegates[..i]))
      {
        TakeOne(other.delegates, i);
        if other.delegates[i].Some? {
          delegates := delegates + [other.delegates[i]];
        }
        i := i + 1;
      }
      assert other.delegates[..i] == other.delegates;
    }

    /** Copy assignment; assigning a container to itself changes nothing. */
    method CopyAssign(rhs: MulticastDelegate)
      modifies this
      ensures View() == if rhs == this then old(View()) else CopyInto(old(View()), old(rhs.delegates))
    {
      if rhs != this {
        this.Clear();
        CopyFrom(rhs);
      }
    }

    /** Move assignment leaves the other container empty. */
    method MoveAssign(rhs: MulticastDelegate)
      modifies this, rhs`delegates
      ensures View() == if rhs == this then old(View()) else MoveInto(old(View()), old(rhs.delegates))
      ensures rhs != this ==> rhs.delegates == []
    {
      if rhs != this {
        this.Clear();
        if broadcastCount > 0 {
          var i := 0;
          ghost var cleared := delegates;
          while i < |rhs.delegates|
            invariant i <= |rhs.delegates| && rhs.delegates == old(rhs.delegates)
            invariant broadcastCount == old(broadcastCount) && cleanup
            invariant delegates == cleared + rhs.delegates[..i]
          {
            delegates := delegates + [rhs.delegates[i]];
            i := i + 1;
          }
          assert rhs.delegates[..i] == rhs.delegates;
        } else {
          delegates := rhs.delegates;
        }
        rhs.delegates := [];
        assert [] + old(rhs.delegates) == old(rhs.delegates);
      }
    }

    method Cleanup()
      modifies this
      ensures View() == Purge(old(View()))
    {
      if !cleanup {
        return;
      }
      var kept, i := [], 0;
      assert Full(Items([])) == [];
      while i < |delegates|
        invariant i <= |delegates| && delegates == old(delegates)
        invariant broadcastCount == old(broadcastCount) && cleanup
        invariant kept == Full(Items(delegates[..i]))
      {
        TakeOne(delegates, i);
        if delegates[i] != None {
          kept := kept + [delegates[i]];
        }
        i := i + 1;
      }
      assert delegates[..i] == delegates;
      delegates := kept;
      cleanup := false;
    }

    /** operator(): the live loop under its guard. `script` is what the callbacks do; they
        may throw, and they may broadcast through the same container. */
    method Broadcast(script: Script) returns (trace: seq<Delegate>, threw: bool)
      modifies this
      ensures var r := Emit(old(View()), script);
              View() == r.box && trace == r.trace && threw == r.threw
      decreases script, 1
    {
      broadcastCount := broadcastCount + 1;
      var it, rest := 0, script;
      trace, threw := [], false;
      ghost var whole := Pass(View(), script, 0);
      while it < |delegates| && !threw
        invariant broadcastCount > 0 && (rest == script || rest < script)
        invariant Goes(View(), rest, it, trace, threw, whole)
        decreases rest, |delegates| - it, !threw
      {
        var delegate := delegates[it];
        if delegate == None {
          GoesOverBlank(View(), rest, it, trace, whole);
        } else {
          match rest {
            case Quiet =>
              GoesOverQuiet(View(), it, trace, whole);
              trace := trace + [delegate.value];
            case Turn(actions, after) =>
              GoesOverTurn(View(), actions, after, it, trace, whole);
              trace := trace + [delegate.value];
              var called: seq<Delegate>;
              called, threw := RunCallback(actions);
              trace, rest := trace + called, after;
          }
        }
        it := it + 1;
      }
      broadcastCount := broadcastCount - 1;
      if broadcastCount == 0 {
        Cleanup();
      }
    }

    // What one callback does to the container that invoked it.
    method RunCallback(actions: Actions) returns (trace: seq<Delegate>, threw: bool)
      modifies this
      ensures var r := Perform(old(View()), actions);
              View() == r.box && trace == r.trace && threw == r.threw
      decreases actions, 0
    {
      trace, threw := [], false;
      match actions {
        case Stop => return;
        case Do(action, rest) =>
          match action {
            case PushBack(d) => this.PushBack(d);
            case Remove(d) => this.Remove(d);
            case Clear => this.Clear();
            case CopyAssign(rhs) =>
              var other := new MulticastDelegate(rhs);
              this.CopyAssign(other);
            case MoveAssign(rhs) =>
              var other := new MulticastDelegate(rhs);
              this.MoveAssign(other);
            case Throw => return [], true;
            case Broadcast(script, caught) =>
              trace, threw := this.Broadcast(script);
              if threw && !caught {
                return;
              }
          }
          var later: seq<Delegate>;
          later, threw := RunCallback(rest);
          trace := trace + later;
      }
    }
  }

  // Unless a callback threw, what is left of the pass gives the rest of the whole's result.
  ghost predicate Goes(b: Box, script: Script, pos: nat, trace: seq<Delegate>, threw: bool, whole: Result) {
    var left := if threw then Result(b, [], [], true) else Pass(b, script, pos);
    whole.box == left.box && whole.trace == trace + left.trace && whole.threw == left.threw
  }

  lemma GoesOverBlank(b: Box, script: Script, pos: nat, trace: seq<Delegate>, whole: Result)
    requires pos < |b.slots| && b.slots[pos] == None && Goes(b, script, pos, trace, false, whole)
    ensures Goes(b, script, pos + 1, trace, false, whole)
  {
  }

  lemma GoesOverQuiet(b: Box, pos: nat, trace: seq<Delegate>, whole: Result)
    requires pos < |b.slots| && b.slots[pos].Some? && Goes(b, Quiet, pos, trace, false, whole)
    ensures Goes(b, Quiet, pos + 1, trace + [b.slots[pos].value], false, whole)
  {
    var left := Pass(b, Quiet, pos + 1);
    assert trace + ([b.slots[pos].value] + left.trace) == trace + [b.slots[pos].value] + left.trace;
  }

  lemma GoesOverTurn(b: Box, actions: Actions, rest: Script, pos: nat, trace: seq<Delegate>, whole: Result)
    requires pos < |b.slots| && b.slots[pos].Some? && Goes(b, Turn(actions, rest), pos, trace, false, whole)
    ensures var called := Perform(b, actions);
            Goes(called.box, rest, pos + 1, trace + [b.slots[pos].value] + called.trace, called.threw, whole)
  {
    var invoked, called := [b.slots[pos].value], Perform(b, actions);
    if called.threw {
      assert trace + (invoked + called.trace) == trace + invoked + called.trace + [];
    } else {
      var left := Pass(called.box, rest, pos + 1);
      assert trace + (invoked + called.trace + left.trace) == trace + invoked + called.trace + left.trace;
    }
  }

  lemma {:induction false} FirstIs(slots: seq<Slot>, d: Delegate, i: nat)
    requires i <= |slots| && (i < |slots| ==> slots[i] == Some(d))
    requires forall j | 0 <= j < i :: slots[j] != Some(d)
    ensures FirstOf(slots, d) == i
  {
    var first := FirstOf(slots, d);
    if first < i {
      assert false;
    }
  }

  lemma TakeOne(slots: seq<Slot>, i: nat)
    requires i < |slots|
    ensures Full(Items(slots[..i + 1])) == Full(Items(slots[..i])) + if slots[i].Some? then [slots[i]] else []
  {
    assert slots[..i + 1][..i] == slots[..i];
  }
}
