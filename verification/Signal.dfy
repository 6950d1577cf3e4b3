/** Signal: state blocks and connection handles, the regions that change them, and every
    run of them. */
module Signals {
  const SIGNAL_SBO_COUNT: nat := 8

  // A state block. Each connection stores its own copy of the delegate, known by its number.
  datatype Block = Block(alive: bool, delegates: seq<nat>)

  const EMPTY_BLOCK := Block(true, [])

  // std::list::remove takes out every equal element.
  function Removed(list: seq<nat>, copy: nat): seq<nat> {
    if list == [] then [] else (if list[0] == copy then [] else [list[0]]) + Removed(list[1..], copy)
  }

  function Pushed(b: Block, copy: nat): Block {
    b.(delegates := b.delegates + [copy])
  }

  function DisconnectRegion(b: Block, copy: nat): Block {
    if b.alive then b.(delegates := Removed(b.delegates, copy)) else b
  }

  const DEAD := Block(false, [])

  // What GetSnapshot captures: a small buffer, or a copy of the list.
  datatype Snapshot = Snapshot(small: seq<nat>, large: seq<nat>, count: nat)

  method GetSnapshot(delegates: seq<nat>) returns (s: Snapshot)
    ensures s.count == |delegates|
    ensures s == if |delegates| <= SIGNAL_SBO_COUNT then Snapshot(delegates, [], |delegates|)
                 else Snapshot([], delegates, |delegates|)
  {
    var small: seq<nat>, large: seq<nat> := [], [];
    if |delegates| <= SIGNAL_SBO_COUNT {
      for i := 0 to |delegates|
        invariant small == delegates[..i]
      {
        small := small + [delegates[i]];
      }
    } else {
      large := delegates;
    }
    s := Snapshot(small, large, |delegates|);
  }

  method InvokeSnapshot(s: Snapshot) returns (invoked: seq<nat>)
    requires s.count <= SIGNAL_SBO_COUNT ==> |s.small| == s.count
    ensures invoked == if s.count <= SIGNAL_SBO_COUNT then s.small else s.large
  {
    invoked := [];
    if s.count <= SIGNAL_SBO_COUNT {
      for i := 0 to s.count
        invariant invoked == s.small[..i]
      {
        invoked := invoked + [s.small[i]];
      }
    } else {
      for i := 0 to |s.large|
        invariant invoked == s.large[..i]
      {
        invoked := invoked + [s.large[i]];
      }
    }
  }

  // ---------------------------------------------------------------- the classes

  class StateBlock {
    var alive: bool
    var delegates: seq<nat>

    ghost function View(): Block
      reads this
    {
      Block(alive, delegates)
    }

    constructor ()
      ensures View() == EMPTY_BLOCK
    {
      alive, delegates := true, [];
    }

    // DisconnectImpl, under the block's lock.
    method DisconnectImpl(copy: nat)
      modifies this
      ensures View() == DisconnectRegion(old(View()), copy)
    {
      if alive {
        var kept, i := [], 0;
        while i < |delegates|
          invariant i <= |delegates| && delegates == old(delegates) && alive
          invariant kept + Removed(delegates[i..], copy) == Removed(delegates, copy)
        {
          if delegates[i] != copy {
            kept := kept + [delegates[i]];
          }
          i := i + 1;
        }
        assert delegates[i..] == [];
        delegates := kept;
      }
    }

    method Kill()
      modifies this
      ensures View() == DEAD
    {
      alive, delegates := false, [];
    }
  }

  class Connection {
    var state: StateBlock?
    var copy: nat
    var connected: bool

    ghost predicate Valid()
      reads this
    {
      connected ==> state != null
    }

    constructor ()
      ensures !connected && Valid()
    {
      state, copy, connected := null, 0, false;
    }

    constructor To(state: StateBlock, copy: nat)
      ensures connected && this.state == state && this.copy == copy && Valid()
    {
      this.state, this.copy, connected := state, copy, true;
    }

    /** The move constructor: the other handle is left disconnected. */
    constructor MoveFrom(other: Connection)
      requires other.Valid()
      modifies other
      ensures Valid() && !other.connected
      ensures connected == old(other.connected)
      ensures connected ==> state == old(other.state) && copy == old(other.copy)
    {
      state, copy, connected := other.state, other.copy, other.connected;
      new;
      other.state := null;
      other.connected := false;
    }

    /** Disconnecting is idempotent, and touches no block but the one it refers to. */
    method Disconnect()
      requires Valid()
      modifies this, state
      ensures !connected && Valid()
      ensures old(connected) ==> old(state).View() == DisconnectRegion(old(state.View()), old(copy))
      ensures !old(connected) && old(state) != null ==> old(state).View() == old(state.View())
    {
      if !connected {
        return;
      }
      state.DisconnectImpl(copy);
      state := null;
      connected := false;
    }

    /** Move assignment disconnects what this handle held; self-assignment does nothing. */
    method Assign(other: Connection)
      requires Valid() && other.Valid()
      modifies this, other, state
      ensures Valid() && other.Valid()
      ensures other == this ==> connected == old(connected) && state == old(state) && copy == old(copy)
      ensures other != this ==> !other.connected && connected == old(other.connected)
      ensures other != this && connected ==> state == old(other.state) && copy == old(other.copy)
      ensures other != this && old(connected) ==>
                old(state).View() == DisconnectRegion(old(state.View()), old(copy))
    {
      if this != other {
        Disconnect();
        state, copy, connected := other.state, other.copy, other.connected;
        other.state := null;
        other.connected := false;
      }
    }
  }

  class Signal {
    var state: StateBlock
    // The number of the next delegate copy.
    var nextCopy: nat

    constructor ()
      ensures fresh(state) && state.View() == EMPTY_BLOCK
    {
      state := new StateBlock();
      nextCopy := 0;
    }

    method Connect() returns (c: Connection)
      modifies this`nextCopy, state
      ensures fresh(c) && c.connected && c.state == state && c.copy == old(nextCopy) && nextCopy == old(nextCopy) + 1
      ensures state.View() == Pushed(old(state.View()), c.copy)
    {
      var copy := nextCopy;
      nextCopy := nextCopy + 1;
      state.delegates := state.delegates + [copy];
      c := new Connection.To(state, copy);
    }

    /** operator(): whether the list fits the small buffer or not, exactly the delegates
        at capture are invoked, in order. */
    method Invoke() returns (invoked: seq<nat>)
      ensures invoked == state.delegates
    {
      var s := GetSnapshot(state.delegates);
      invoked := InvokeSnapshot(s);
    }

    /** Clear takes a new block first, and empties the old one in a second region. */
    method Clear()
      modifies this`state, state
      ensures fresh(state) && state.View() == EMPTY_BLOCK && old(state).View() == DEAD
    {
      var oldState := state;
      state := new StateBlock();
      oldState.Kill();
    }

    // ~Signal.
    method Destroy()
      modifies state
      ensures state.View() == DEAD
    {
      state.Kill();
    }
  }
}
