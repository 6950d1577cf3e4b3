/** Every run of one signal: Connect, Disconnect, handle moves and destruction, Clear and
    the signal's own destruction, by any threads. Each step is one region under a lock, or
    what a thread does to a handle of its own. */
module SignalRuns {
  import opened Signals

  // On: connected. Removing: disconnecting, past the block's region, its fields not yet reset.
  datatype Handle = Off | On(block: nat, copy: nat) | Removing(block: nat, copy: nat)

  // What became of one delegate copy: the block it was connected to, and the handle, if
  // any, that is connected through it.
  datatype Copy = Copy(block: nat, holder: Holder)
  datatype Holder = Nobody | HeldBy(handle: nat)

  // Blocks and copies are numbered in the order they are made.
  datatype State = State(blocks: seq<Block>, current: nat, living: bool, handles: map<nat, Handle>, copies: seq<Copy>)

  datatype Step =
    | Connect(h: nat)
    | Remove(h: nat)               // Disconnect: the region under the block's lock
    | Reset(h: nat)                // and the handle's fields after it
    | MoveConstruct(from: nat, to: nat)
    | MoveAssign(from: nat, to: nat)   // once `to` has been disconnected
    | DestroyHandle(h: nat)            // once it has been disconnected
    | SwapBlock                    // Clear's first region
    | KillBlock(b: nat)            // and its second, on the block replaced
    | DestroySignal

  const INIT := State([EMPTY_BLOCK], 0, true, map[], [])

  function Move(s: State, from: nat, to: nat): State
    requires from in s.handles
  {
    var h := s.handles[from];
    s.(handles := s.handles[from := Off][to := h],
       copies := if h.On? && h.copy < |s.copies| then s.copies[h.copy := s.copies[h.copy].(holder := HeldBy(to))] else s.copies)
  }

  function RemoveStep(s: State, h: nat, b: nat, c: nat): State {
    s.(handles := s.handles[h := Removing(b, c)],
       blocks := if b < |s.blocks| then s.blocks[b := DisconnectRegion(s.blocks[b], c)] else s.blocks,
       copies := if c < |s.copies| then Released(s.copies, c) else s.copies)
  }

  function ConnectStep(s: State, h: nat): State
    requires s.current < |s.blocks|
  {
    s.(handles := s.handles[h := On(s.current, |s.copies|)],
       blocks := s.blocks[s.current := Pushed(s.blocks[s.current], |s.copies|)],
       copies := s.copies + [Copy(s.current, HeldBy(h))])
  }

  function Next(s: State, step: Step): State {
    match step
    case Connect(h) => if s.living && h !in s.handles && s.current < |s.blocks| then ConnectStep(s, h) else s
    case Remove(h) =>
      if h in s.handles && s.handles[h].On? then RemoveStep(s, h, s.handles[h].block, s.handles[h].copy) else s
    case Reset(h) => if h in s.handles && s.handles[h].Removing? then s.(handles := s.handles[h := Off]) else s
    case MoveConstruct(from, to) =>
      if from in s.handles && !s.handles[from].Removing? && to !in s.handles then Move(s, from, to) else s
    case MoveAssign(from, to) =>
      if from in s.handles && !s.handles[from].Removing? && to in s.handles && s.handles[to].Off? && from != to
      then Move(s, from, to) else s
    case DestroyHandle(h) => if h in s.handles && s.handles[h].Off? then s.(handles := s.handles - {h}) else s
    case SwapBlock =>
      if s.living then s.(blocks := s.blocks + [EMPTY_BLOCK], current := |s.blocks|) else s
    case KillBlock(b) => if b < |s.blocks| && b != s.current then s.(blocks := s.blocks[b := DEAD]) else s
    case DestroySignal =>
      if s.living && s.current < |s.blocks| then s.(living := false, blocks := s.blocks[s.current := DEAD]) else s
  }

  function Exec(s: State, steps: seq<Step>): State
    decreases |steps|
  {
    if steps == [] then s else Exec(Next(s, steps[0]), steps[1..])
  }

  // ---------------------------------------------------------------- what a block should list

  // The copies connected to block b and still held, in the order they were connected.
  function Members(copies: seq<Copy>, b: nat): seq<nat> {
    if copies == [] then []
    else
      var n := |copies| - 1;
      Members(copies[..n], b) + OwnPlace(copies[n], n, b)
  }

  function OwnPlace(copy: Copy, n: nat, b: nat): seq<nat> {
    if copy.block == b && copy.holder != Nobody then [n] else []
  }

  lemma {:induction false} MembersAre(copies: seq<Copy>, b: nat)
    ensures forall c :: c in Members(copies, b) <==> 0 <= c < |copies| && copies[c].block == b && copies[c].holder != Nobody
    ensures forall i, j | 0 <= i < j < |Members(copies, b)| :: Members(copies, b)[i] < Members(copies, b)[j]
  {
    if copies != [] {
      var before := Members(copies[..|copies| - 1], b);
      MembersAre(copies[..|copies| - 1], b);
      assert forall i | 0 <= i < |before| :: before[i] in before && before[i] < |copies| - 1;
    }
  }

  lemma {:induction false} RemovedConcat(a: seq<nat>, b: seq<nat>, c: nat)
    ensures Removed(a + b, c) == Removed(a, c) + Removed(b, c)
  {
    if a == [] {
      assert a + b == b;
    } else {
      assert (a + b)[1..] == a[1..] + b;
      RemovedConcat(a[1..], b, c);
    }
  }

  lemma {:induction false} RemovedNone(list: seq<nat>, c: nat)
    requires c !in list
    ensures Removed(list, c) == list
  {
    if list != [] {
      RemovedNone(list[1..], c);
    }
  }

  // Letting a copy go takes it out of its block's list, and changes no other list.
  function Released(copies: seq<Copy>, c: nat): seq<Copy>
    requires c < |copies|
  {
    copies[c := copies[c].(holder := Nobody)]
  }

  lemma NotYetListed(copies: seq<Copy>, b: nat)
    ensures |copies| !in Members(copies, b)
  {
    MembersAre(copies, b);
  }

  lemma LetLastGo(before: seq<nat>, copy: Copy, n: nat, b: nat)
    requires n !in before
    ensures before + OwnPlace(copy.(holder := Nobody), n, b) == Removed(before + OwnPlace(copy, n, b), n)
  {
    RemovedNone(before, n);
    RemovedConcat(before, OwnPlace(copy, n, b), n);
  }

  lemma {:induction false} LetGo(copies: seq<Copy>, c: nat, b: nat)
    requires c < |copies|
    ensures Members(Released(copies, c), b) == Removed(Members(copies, b), c)
    decreases |copies|
  {
    var n := |copies| - 1;
    if c == n {
      assert Released(copies, c)[..n] == copies[..n];
      NotYetListed(copies[..n], b);
      LetLastGo(Members(copies[..n], b), copies[n], n, b);
    } else {
      LetGo(copies[..n], c, b);
      LetEarlierGo(copies, c, b);
    }
  }

  lemma LetEarlierGo(copies: seq<Copy>, c: nat, b: nat)
    requires c < |copies| - 1
    requires Members(Released(copies[..|copies| - 1], c), b) == Removed(Members(copies[..|copies| - 1], b), c)
    ensures Members(Released(copies, c), b) == Removed(Members(copies, b), c)
  {
    var n := |copies| - 1;
    assert Released(copies, c)[..n] == Released(copies[..n], c);
    RemovedConcat(Members(copies[..n], b), OwnPlace(copies[n], n, b), c);
    RemovedNone(OwnPlace(copies[n], n, b), c);
  }

  lemma LetGoElsewhere(copies: seq<Copy>, c: nat, b: nat)
    requires c < |copies| && copies[c].block != b
    ensures Members(Released(copies, c), b) == Members(copies, b)
  {
    LetGo(copies, c, b);
    MembersAre(copies, b);
    RemovedNone(Members(copies, b), c);
  }

  lemma {:induction false} PassedOn(copies: seq<Copy>, c: nat, h: nat, b: nat)
    requires c < |copies| && copies[c].holder != Nobody
    ensures Members(copies[c := copies[c].(holder := HeldBy(h))], b) == Members(copies, b)
  {
    var n := |copies| - 1;
    var after := copies[c := copies[c].(holder := HeldBy(h))];
    if c == n {
      assert after[..n] == copies[..n];
    } else {
      assert after[..n] == copies[..n][c := copies[c].(holder := HeldBy(h))];
      PassedOn(copies[..n], c, h, b);
    }
  }

  // ---------------------------------------------------------------- the invariant

  ghost predicate Listed(s: State, b: nat) {
    b < |s.blocks| ==>
      s.blocks[b].delegates == if s.blocks[b].alive then Members(s.copies, b) else []
  }

  // Handles and copies know of each other.
  ghost predicate Matched(s: State) {
    && (forall h | h in s.handles && s.handles[h].On? ::
          s.handles[h].copy < |s.copies| && s.copies[s.handles[h].copy] == Copy(s.handles[h].block, HeldBy(h)))
    && (forall c | 0 <= c < |s.copies| && s.copies[c].holder.HeldBy? ::
          s.copies[c].holder.handle in s.handles && s.handles[s.copies[c].holder.handle] == On(s.copies[c].block, c))
    && (forall c | 0 <= c < |s.copies| :: s.copies[c].block < |s.blocks|)
  }

  ghost predicate Inv(s: State) {
    && s.current < |s.blocks|
    && (s.living <==> s.blocks[s.current].alive)
    && Matched(s)
    && forall b: nat :: Listed(s, b)
  }

  lemma {:induction false} NoMembers(copies: seq<Copy>, b: nat)
    requires forall c | 0 <= c < |copies| :: copies[c].block != b
    ensures Members(copies, b) == []
  {
    if copies != [] {
      NoMembers(copies[..|copies| - 1], b);
    }
  }

  lemma ConnectKeepsInv(s: State, h: nat)
    requires Inv(s) && s.living && h !in s.handles
    ensures Inv(ConnectStep(s, h))
  {
    var t := ConnectStep(s, h);
    assert t.copies[..|s.copies|] == s.copies;
    forall b: nat ensures Listed(t, b) { assert Listed(s, b); }
  }

  lemma RemoveKeepsInv(s: State, h: nat)
    requires Inv(s) && h in s.handles && s.handles[h].On?
    ensures Inv(Next(s, Remove(h)))
  {
    var t, c := Next(s, Remove(h)), s.handles[h].copy;
    forall b: nat ensures Listed(t, b) {
      assert Listed(s, b);
      if b == s.handles[h].block {
        LetGo(s.copies, c, b);
      } else {
        LetGoElsewhere(s.copies, c, b);
      }
    }
  }

  lemma MoveKeepsInv(s: State, from: nat, to: nat)
    requires Inv(s) && from in s.handles && !s.handles[from].Removing? && from != to
    requires to in s.handles ==> s.handles[to].Off?
    ensures Inv(Move(s, from, to))
  {
    var t := Move(s, from, to);
    forall b: nat ensures Listed(t, b) {
      assert Listed(s, b);
      if s.handles[from].On? {
        PassedOn(s.copies, s.handles[from].copy, to, b);
      }
    }
  }

  lemma ClearKeepsInv(s: State, b: nat)
    requires Inv(s)
    ensures Inv(Next(s, SwapBlock)) && Inv(Next(s, KillBlock(b))) && Inv(Next(s, DestroySignal))
  {
    NoMembers(s.copies, |s.blocks|);
    forall x: nat ensures Listed(Next(s, SwapBlock), x) { assert Listed(s, x); }
    forall x: nat ensures Listed(Next(s, KillBlock(b)), x) { assert Listed(s, x); }
    forall x: nat ensures Listed(Next(s, DestroySignal), x) { assert Listed(s, x); }
  }

  lemma OwnKeepsInv(s: State, h: nat)
    requires Inv(s)
    ensures Inv(Next(s, Reset(h))) && Inv(Next(s, DestroyHandle(h)))
  {
    forall b: nat ensures Listed(Next(s, Reset(h)), b) { assert Listed(s, b); }
    forall b: nat ensures Listed(Next(s, DestroyHandle(h)), b) { assert Listed(s, b); }
  }

  lemma NextKeepsInv(s: State, step: Step)
    requires Inv(s)
    ensures Inv(Next(s, step))
  {
    match step
    case Connect(h) => if s.living && h !in s.handles { ConnectKeepsInv(s, h); }
    case Remove(h) => if h in s.handles && s.handles[h].On? { RemoveKeepsInv(s, h); }
    case Reset(h) => OwnKeepsInv(s, h);
    case MoveConstruct(from, to) =>
      if from in s.handles && !s.handles[from].Removing? && to !in s.handles { MoveKeepsInv(s, from, to); }
    case MoveAssign(from, to) =>
      if from in s.handles && !s.handles[from].Removing? && to in s.handles && s.handles[to].Off? && from != to {
        MoveKeepsInv(s, from, to);
      }
    case DestroyHandle(h) => OwnKeepsInv(s, h);
    case SwapBlock => ClearKeepsInv(s, 0);
    case KillBlock(b) => ClearKeepsInv(s, b);
    case DestroySignal => ClearKeepsInv(s, 0);
  }

  lemma {:induction false} ExecKeepsInv(s: State, steps: seq<Step>)
    requires Inv(s)
    ensures Inv(Exec(s, steps))
    decreases |steps|
  {
    if steps != [] {
      NextKeepsInv(s, steps[0]);
      ExecKeepsInv(Next(s, steps[0]), steps[1..]);
    }
  }

  lemma InitInv()
    ensures Inv(INIT)
  {
    forall b: nat ensures Listed(INIT, b) { }
  }

  // ---------------------------------------------------------------- what users may rely on

  /** In every run, while the signal exists, its list is exactly the delegates of the
      connected handles that refer to the current block, in the order they connected; so
      that is what a snapshot captures and invokes. */
  lemma ListIsConnectedHandles(steps: seq<Step>, c: nat)
    requires Exec(INIT, steps).living
    ensures var s := Exec(INIT, steps);
            && s.current < |s.blocks|
            && var list := s.blocks[s.current].delegates;
            && (forall i, j | 0 <= i < j < |list| :: list[i] < list[j])
            && (c in list <==> exists h :: h in s.handles && s.handles[h] == On(s.current, c))
  {
    var s := Exec(INIT, steps);
    InitInv();
    ExecKeepsInv(INIT, steps);
    assert Listed(s, s.current);
    MembersAre(s.copies, s.current);
    if c in s.blocks[s.current].delegates {
      assert s.handles[s.copies[c].holder.handle] == On(s.current, c);
    }
  }

  // The list that a snapshot would capture.
  function Current(s: State): seq<nat> {
    if s.current < |s.blocks| then s.blocks[s.current].delegates else []
  }

  /** What each step does to the list, in every run. Connecting appends one new delegate,
      for the handle; disconnecting takes out the handle's own and leaves the others in their
      order; Clear and destruction leave none; and nothing else changes it. */
  lemma ListChanges(steps: seq<Step>, step: Step)
    ensures var s, t := Exec(INIT, steps), Next(Exec(INIT, steps), step);
            && (s.living && step.Connect? && step.h !in s.handles ==>
                  var c := |s.copies|;
                  c !in Current(s) && Current(t) == Current(s) + [c]
                  && t.handles == s.handles[step.h := On(s.current, c)])
            && (step.Remove? && step.h in s.handles && s.handles[step.h].On? && s.handles[step.h].block == s.current ==>
                  var c := s.handles[step.h].copy;
                  && (s.living ==> exists i :: 0 <= i < |Current(s)| && Current(s)[i] == c
                                               && Current(t) == Current(s)[..i] + Current(s)[i + 1..])
                  && !t.handles[step.h].On?)
            && (s.living && (step.SwapBlock? || step.DestroySignal?) ==> Current(t) == [])
            && ((step.Reset? || step.MoveConstruct? || step.MoveAssign? || step.DestroyHandle? || step.KillBlock?) ==>
                  Current(t) == Current(s))
  {
    var s := Exec(INIT, steps);
    InitInv();
    ExecKeepsInv(INIT, steps);
    assert Listed(s, s.current);
    MembersAre(s.copies, s.current);
    if s.living && step.Remove? && step.h in s.handles && s.handles[step.h].On? && s.handles[step.h].block == s.current {
      RemovedOne(Current(s), s.handles[step.h].copy);
    }
  }

  /** And to the handles: a move passes the connection on and leaves the other handle off, a
      disconnected handle is off, a destroyed one is gone, and Clear's old block is dead. */
  lemma HandleChanges(s: State, from: nat, to: nat)
    ensures from in s.handles && !s.handles[from].Removing? && to !in s.handles ==>
              Next(s, MoveConstruct(from, to)).handles == s.handles[from := Off][to := s.handles[from]]
    ensures from in s.handles && !s.handles[from].Removing? && to in s.handles && s.handles[to].Off? && from != to ==>
              Next(s, MoveAssign(from, to)).handles == s.handles[from := Off][to := s.handles[from]]
    ensures from in s.handles && s.handles[from].On? ==>
              Next(Next(s, Remove(from)), Reset(from)).handles == s.handles[from := Off]
    ensures from in s.handles && s.handles[from].Off? ==> Next(s, DestroyHandle(from)).handles == s.handles - {from}
    ensures from < |s.blocks| && from != s.current ==> Next(s, KillBlock(from)).blocks == s.blocks[from := Block(false, [])]
  {
  }

  lemma {:induction false} RemovedOne(list: seq<nat>, c: nat)
    requires c in list && forall i, j | 0 <= i < j < |list| :: list[i] < list[j]
    ensures exists i :: 0 <= i < |list| && list[i] == c && Removed(list, c) == list[..i] + list[i + 1..]
  {
    var i :| 0 <= i < |list| && list[i] == c;
    assert forall j | 0 <= j < |list| && j != i :: list[j] != c;
    RemovedAt(list, c, i);
  }

  lemma {:induction false} RemovedAt(list: seq<nat>, c: nat, i: nat)
    requires i < |list| && list[i] == c && c !in list[..i] && c !in list[i + 1..]
    ensures Removed(list, c) == list[..i] + list[i + 1..]
  {
    if i == 0 {
      RemovedNone(list[1..], c);
      assert list[..0] + list[1..] == list[1..];
    } else {
      assert list[1..][..i - 1] == list[..i][1..] && list[1..][i..] == list[i + 1..];
      RemovedAt(list[1..], c, i - 1);
      assert list[..i] == [list[0]] + list[..i][1..];
    }
  }

  /** Once the signal is destroyed its last block is dead and empty, and stays so. */
  lemma DestroyedIsEmpty(before: seq<Step>, after: seq<Step>)
    requires Exec(INIT, before).living
    ensures var s := Next(Exec(INIT, before), DestroySignal);
            var t := Exec(s, after);
            t.current == s.current && s.current < |t.blocks| && t.blocks[s.current] == DEAD
  {
    InitInv();
    ExecKeepsInv(INIT, before);
    StaysDead(Next(Exec(INIT, before), DestroySignal), after);
  }

  lemma {:induction false} StaysDead(s: State, steps: seq<Step>)
    requires !s.living && s.current < |s.blocks| && s.blocks[s.current] == DEAD
    ensures var t := Exec(s, steps);
            t.current == s.current && s.current < |t.blocks| && t.blocks[s.current] == DEAD
    decreases |steps|
  {
    if steps != [] {
      StaysDead(Next(s, steps[0]), steps[1..]);
    }
  }

  /** A stale handle, one that refers to a block that Clear has replaced, or to a destroyed
      signal's, never alters the current list, whatever is done with it. */
  lemma StaleHandlesAreHarmless(steps: seq<Step>, h: nat, step: Step)
    requires var s := Exec(INIT, steps);
             h in s.handles && (s.handles[h].On? ==> s.handles[h].block != s.current || !s.living)
    requires step == Remove(h) || step == Reset(h) || step == DestroyHandle(h)
             || (step.MoveConstruct? && step.from == h) || (step.MoveAssign? && step.from == h)
    ensures var s, t := Exec(INIT, steps), Next(Exec(INIT, steps), step);
            t.current == s.current && s.current < |s.blocks| == |t.blocks|
            && t.blocks[s.current] == s.blocks[s.current]
  {
    InitInv();
    ExecKeepsInv(INIT, steps);
  }
}
