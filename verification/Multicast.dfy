/** MulticastDelegate: a list that callbacks may change while it is being broadcast.
    During a broadcast removal only blanks a slot, and the blanks go when the outermost
    broadcast ends. `Box` and its functions are the container's value; the class below
    is proved against them. */
module MulticastDelegates {
  import opened Common
  // Delegates are compared by identity; a blanked slot is None.
  type Delegate = nat
  type Slot = Option<Delegate>

  datatype Box = Box(slots: seq<Slot>, depth: nat, cleanup: bool)

  // What a callback does to the container it is called from. Any terminating behaviour of
  // callbacks is some finite script: the n-th turn is what the n-th invoked delegate does.
  datatype Action =
    | PushBack(d: Delegate)
    | Remove(d: Delegate)
    | Clear
    | CopyAssign(rhs: seq<Slot>)
    | MoveAssign(rhs: seq<Slot>)
    | Broadcast(script: Script, caught: bool)  // nested; the callback may catch what it throws
    | Throw
  datatype Actions = Stop | Do(action: Action, rest: Actions)
  datatype Script = Quiet | Turn(actions: Actions, rest: Script)

  // `trace` lists every delegate invoked, nested broadcasts included; `own` lists what
  // this pass itself invoked, and at which position.
  datatype Visit = Visit(pos: nat, who: Delegate)
  datatype Result = Result(box: Box, trace: seq<Delegate>, own: seq<Visit>, threw: bool)

  // The delegates a list of slots stands for.
  function Items(slots: seq<Slot>): seq<Delegate> {
    if slots == [] then []
    else
      var last := slots[|slots| - 1];
      Items(slots[..|slots| - 1]) + if last.Some? then [last.value] else []
  }

  function Full(items: seq<Delegate>): seq<Slot> {
    seq(|items|, i requires 0 <= i < |items| => Some(items[i]))
  }

  function Blanked(slots: seq<Slot>): seq<Slot> {
    seq(|slots|, _ => None)
  }

  function FirstOf(slots: seq<Slot>, d: Delegate): (i: nat)
    ensures i <= |slots| && (i < |slots| ==> slots[i] == Some(d))
    ensures forall j | 0 <= j < i :: slots[j] != Some(d)
  {
    if slots == [] then 0 else if slots[0] == Some(d) then 0 else 1 + FirstOf(slots[1..], d)
  }

  function RemoveFrom(b: Box, d: Delegate): Box {
    var i := FirstOf(b.slots, d);
    if i == |b.slots| then b
    else if b.depth > 0 then b.(slots := b.slots[i := None], cleanup := true)
    else b.(slots := b.slots[..i] + b.slots[i + 1..])
  }

  function ClearAll(b: Box): Box {
    if b.depth > 0 then b.(slots := Blanked(b.slots), cleanup := true) else b.(slots := [])
  }

  function CopyInto(b: Box, rhs: seq<Slot>): Box {
    var cleared := ClearAll(b);
    cleared.(slots := cleared.slots + Full(Items(rhs)))
  }

  function MoveInto(b: Box, rhs: seq<Slot>): Box {
    var cleared := ClearAll(b);
    cleared.(slots := cleared.slots + rhs)
  }

  function Enter(b: Box): Box {
    b.(depth := b.depth + 1)
  }

  function Purge(b: Box): Box {
    if b.cleanup then b.(slots := Full(Items(b.slots)), cleanup := false) else b
  }

  function Leave(b: Box): Box
    requires b.depth > 0
  {
    var left := b.(depth := b.depth - 1);
    if left.depth == 0 then Purge(left) else left
  }

  function Then(first: Result, rest: Result): Result {
    Result(rest.box, first.trace + rest.trace, first.own + rest.own, rest.threw)
  }

  // One action, then the rest, until one throws.
  function Perform(b: Box, actions: Actions): (r: Result)
    ensures r.box.depth == b.depth
    decreases actions, 0
  {
    match actions
    case Stop => Result(b, [], [], false)
    case Do(action, rest) =>
      match action
      case PushBack(d) => Perform(b.(slots := b.slots + [Some(d)]), rest)
      case Remove(d) => Perform(RemoveFrom(b, d), rest)
      case Clear => Perform(ClearAll(b), rest)
      case CopyAssign(rhs) => Perform(CopyInto(b, rhs), rest)
      case MoveAssign(rhs) => Perform(MoveInto(b, rhs), rest)
      case Throw => Result(b, [], [], true)
      case Broadcast(script, caught) =>
        var nested := Emit(b, script);
        if nested.threw && !caught then nested.(own := []) else Then(nested.(own := []), Perform(nested.box, rest))
  }

  // operator(): the guard is left whether or not a callback throws.
  function Emit(b: Box, script: Script): (r: Result)
    ensures r.box.depth == b.depth
    decreases script, |b.slots| + 1
  {
    var r := Pass(Enter(b), script, 0);
    r.(box := Leave(r.box))
  }

  // The broadcast loop, from position `pos` of the live list.
  function Pass(b: Box, script: Script, pos: nat): (r: Result)
    ensures r.box.depth == b.depth
    decreases script, if pos < |b.slots| then |b.slots| - pos else 0
  {
    if pos >= |b.slots| then Result(b, [], [], false)
    else if b.slots[pos] == None then Pass(b, script, pos + 1)
    else
      var invoked := Result(b, [b.slots[pos].value], [Visit(pos, b.slots[pos].value)], false);
      match script
      case Quiet => Then(invoked, Pass(b, Quiet, pos + 1))
      case Turn(actions, rest) =>
        var called := Perform(b, actions).(own := []);
        if called.threw then Then(invoked, called)
        else Then(Then(invoked, called), Pass(called.box, rest, pos + 1))
  }

  // ---------------------------------------------------------------- the plain sequence it stands for

  // A plain list from which delegates are removed at once. Each active broadcast,
  // outermost first, has a cursor: the index of the delegate it visits next.
  datatype Plain = Plain(items: seq<Delegate>, cursors: seq<nat>)
  datatype PlainResult = PlainResult(state: Plain, trace: seq<Delegate>, threw: bool)

  function IndexOf(items: seq<Delegate>, d: Delegate): (i: nat)
    ensures i <= |items| && (i < |items| ==> items[i] == d)
    ensures forall j | 0 <= j < i :: items[j] != d
  {
    if items == [] then 0 else if items[0] == d then 0 else 1 + IndexOf(items[1..], d)
  }

  function PlainRemove(p: Plain, d: Delegate): Plain {
    var i := IndexOf(p.items, d);
    if i == |p.items| then p
    else Plain(p.items[..i] + p.items[i + 1..],
               seq(|p.cursors|, k requires 0 <= k < |p.cursors| => if p.cursors[k] > i then p.cursors[k] - 1 else p.cursors[k]))
  }

  function PlainAssign(p: Plain, items: seq<Delegate>): Plain {
    Plain(items, seq(|p.cursors|, _ => 0))
  }

  function PlainThen(first: seq<Delegate>, rest: PlainResult): PlainResult {
    rest.(trace := first + rest.trace)
  }

  function PlainPerform(p: Plain, actions: Actions): (r: PlainResult)
    ensures |r.state.cursors| == |p.cursors|
    decreases actions, 0
  {
    match actions
    case Stop => PlainResult(p, [], false)
    case Do(action, rest) =>
      match action
      case PushBack(d) => PlainPerform(p.(items := p.items + [d]), rest)
      case Remove(d) => PlainPerform(PlainRemove(p, d), rest)
      case Clear => PlainPerform(PlainAssign(p, []), rest)
      case CopyAssign(rhs) => PlainPerform(PlainAssign(p, Items(rhs)), rest)
      case MoveAssign(rhs) => PlainPerform(PlainAssign(p, Items(rhs)), rest)
      case Throw => PlainResult(p, [], true)
      case Broadcast(script, caught) =>
        var nested := PlainEmit(p, script);
        if nested.threw && !caught then nested else PlainThen(nested.trace, PlainPerform(nested.state, rest))
  }

  function PlainEmit(p: Plain, script: Script): (r: PlainResult)
    ensures |r.state.cursors| == |p.cursors|
    decreases script, |p.items| + 1
  {
    var r := PlainPass(p.(cursors := p.cursors + [0]), script);
    r.(state := Plain(r.state.items, r.state.cursors[..|p.cursors|]))
  }

  function PlainPass(p: Plain, script: Script): (r: PlainResult)
    requires p.cursors != []
    ensures |r.state.cursors| == |p.cursors|
    decreases script, var next := p.cursors[|p.cursors| - 1]; if next < |p.items| then |p.items| - next else 0
  {
    var next := p.cursors[|p.cursors| - 1];
    if next >= |p.items| then PlainResult(p, [], false)
    else
      var moved := p.(cursors := p.cursors[|p.cursors| - 1 := next + 1]);
      match script
      case Quiet => PlainThen([p.items[next]], PlainPass(moved, Quiet))
      case Turn(actions, rest) =>
        var called := PlainPerform(moved, actions);
        if called.threw then PlainThen([p.items[next]], called)
        else PlainThen([p.items[next]] + called.trace, PlainPass(called.state, rest))
  }

  // ---------------------------------------------------------------- slots and items

  ghost predicate NoBlank(slots: seq<Slot>) {
    forall i | 0 <= i < |slots| :: slots[i].Some?
  }

  // How many delegates stand before a position.
  function Rank(slots: seq<Slot>, pos: nat): nat
    requires pos <= |slots|
  {
    |Items(slots[..pos])|
  }

  lemma {:induction false} ItemsConcat(a: seq<Slot>, b: seq<Slot>)
    ensures Items(a + b) == Items(a) + Items(b)
  {
    if b == [] {
      assert a + b == a;
    } else {
      var n := |b| - 1;
      assert (a + b)[..|a + b| - 1] == a + b[..n];
      ItemsConcat(a, b[..n]);
    }
  }

  lemma {:induction false} ItemsFull(items: seq<Delegate>)
    ensures Items(Full(items)) == items && NoBlank(Full(items))
  {
    if items != [] {
      var n := |items| - 1;
      assert Full(items)[..n] == Full(items[..n]);
      ItemsFull(items[..n]);
    }
  }

  lemma {:induction false} ItemsBlanked(slots: seq<Slot>)
    ensures Items(Blanked(slots)) == []
  {
    if slots != [] {
      assert Blanked(slots)[..|slots| - 1] == Blanked(slots[..|slots| - 1]);
      ItemsBlanked(slots[..|slots| - 1]);
    }
  }

  lemma {:induction false} NoBlankIsFull(slots: seq<Slot>)
    requires NoBlank(slots)
    ensures slots == Full(Items(slots))
  {
    if slots != [] {
      NoBlankIsFull(slots[..|slots| - 1]);
    }
  }

  lemma {:induction false} ItemsLast(slots: seq<Slot>, i: nat)
    requires |slots| == i + 1
    ensures Items(slots) == Items(slots[..i]) + if slots[i].Some? then [slots[i].value] else []
  {
  }

  lemma {:induction false} ItemsAt(slots: seq<Slot>, i: nat)
    requires i < |slots|
    ensures Items(slots) == Items(slots[..i]) + (if slots[i].Some? then [slots[i].value] else []) + Items(slots[i + 1..])
    ensures Rank(slots, i + 1) == Rank(slots, i) + if slots[i].Some? then 1 else 0
  {
    var front, back := slots[..i + 1], slots[i + 1..];
    assert slots == front + back;
    ItemsConcat(front, back);
    ItemsLast(front, i);
    assert front[..i] == slots[..i];
  }

  lemma RankMonotone(slots: seq<Slot>, p: nat, q: nat)
    requires p <= q <= |slots|
    ensures Rank(slots, p) <= Rank(slots, q)
  {
    assert slots[..q] == slots[..p] + slots[p..q];
    ItemsConcat(slots[..p], slots[p..q]);
  }

  lemma RankAppend(slots: seq<Slot>, more: seq<Slot>, p: nat)
    requires p <= |slots|
    ensures Rank(slots + more, p) == Rank(slots, p)
  {
    assert (slots + more)[..p] == slots[..p];
  }

  // Blanking a slot removes its delegate, and moves back the ranks behind it.
  lemma BlankOne(slots: seq<Slot>, i: nat)
    requires i < |slots| && slots[i].Some?
    ensures var r := Rank(slots, i);
            && r < |Items(slots)| && Items(slots)[r] == slots[i].value
            && Items(slots[i := None]) == Items(slots)[..r] + Items(slots)[r + 1..]
    ensures forall p | 0 <= p <= |slots| ::
              Rank(slots[i := None], p) == if p > i then Rank(slots, p) - 1 else Rank(slots, p)
    ensures forall p | 0 <= p <= |slots| :: p > i <==> Rank(slots, p) > Rank(slots, i)
  {
    ItemsAt(slots, i);
    ItemsAt(slots[i := None], i);
    assert slots[i := None][..i] == slots[..i] && slots[i := None][i + 1..] == slots[i + 1..];
    forall p | 0 <= p <= |slots|
      ensures Rank(slots[i := None], p) == if p > i then Rank(slots, p) - 1 else Rank(slots, p)
      ensures p > i <==> Rank(slots, p) > Rank(slots, i)
    {
      if p > i {
        ItemsAt(slots[..p], i);
        ItemsAt(slots[..p][i := None], i);
        assert slots[i := None][..p] == slots[..p][i := None];
        assert slots[..p][i := None][..i] == slots[..p][..i] == slots[..i];
        assert slots[..p][i := None][i + 1..] == slots[..p][i + 1..];
      } else {
        assert slots[i := None][..p] == slots[..p];
        RankMonotone(slots, p, i);
      }
    }
  }

  lemma {:induction false} FirstOfItems(slots: seq<Slot>, d: Delegate)
    ensures var i := FirstOf(slots, d);
            if i == |slots| then d !in Items(slots) && IndexOf(Items(slots), d) == |Items(slots)|
            else IndexOf(Items(slots), d) == Rank(slots, i) && Rank(slots, i) < |Items(slots)|
  {
    var i, items := FirstOf(slots, d), Items(slots);
    NotBefore(slots[..i], d);
    if i < |slots| {
      ItemsAt(slots, i);
      var r := Rank(slots, i);
      assert items[..r] == Items(slots[..i]) && items[r] == d;
      assert forall j | 0 <= j < r :: items[j] == items[..r][j] != d;
    } else {
      assert slots[..i] == slots;
    }
  }

  lemma {:induction false} NotBefore(slots: seq<Slot>, d: Delegate)
    requires forall j | 0 <= j < |slots| :: slots[j] != Some(d)
    ensures d !in Items(slots)
  {
    if slots != [] {
      NotBefore(slots[..|slots| - 1], d);
    }
  }

  // ---------------------------------------------------------------- lazy removal is removal

  // The container stands for the plain list; `positions` are where the active broadcasts
  // stand in the live list, outermost first.
  ghost predicate Stands(b: Box, positions: seq<nat>, p: Plain) {
    && p.items == Items(b.slots)
    && |positions| == |p.cursors| == b.depth
    && (forall k | 0 <= k < |positions| ::
          positions[k] <= |b.slots| && p.cursors[k] == Rank(b.slots, positions[k]))
    && (!b.cleanup ==> NoBlank(b.slots))
    && (b.depth == 0 ==> !b.cleanup)
  }

  // No container that is itself in mid-broadcast is moved in while this one is idle.
  ghost predicate MovesClean(depth: nat, actions: Actions) {
    depth == 0 && actions.Do? ==>
      && (actions.action.MoveAssign? ==> NoBlank(actions.action.rhs))
      && MovesClean(depth, actions.rest)
  }

  lemma PushStands(b: Box, positions: seq<nat>, p: Plain, more: seq<Slot>)
    requires Stands(b, positions, p) && (!b.cleanup ==> NoBlank(more))
    ensures Stands(b.(slots := b.slots + more), positions, p.(items := p.items + Items(more)))
  {
    ItemsConcat(b.slots, more);
    forall k | 0 <= k < |positions|
      ensures Rank(b.slots + more, positions[k]) == Rank(b.slots, positions[k])
    {
      RankAppend(b.slots, more, positions[k]);
    }
  }

  lemma ClearStands(b: Box, positions: seq<nat>, p: Plain)
    requires Stands(b, positions, p)
    ensures Stands(ClearAll(b), positions, PlainAssign(p, []))
  {
    ItemsBlanked(b.slots);
    forall k | 0 <= k < |positions| && b.depth > 0
      ensures Rank(Blanked(b.slots), positions[k]) == 0
    {
      assert Blanked(b.slots)[..positions[k]] == Blanked(b.slots[..positions[k]]);
      ItemsBlanked(b.slots[..positions[k]]);
    }
  }

  lemma AssignStands(b: Box, positions: seq<nat>, p: Plain, rhs: seq<Slot>)
    requires Stands(b, positions, p)
    requires b.depth == 0 ==> NoBlank(rhs)
    ensures Stands(MoveInto(b, rhs), positions, PlainAssign(p, Items(rhs)))
  {
    ClearStands(b, positions, p);
    PushStands(ClearAll(b), positions, PlainAssign(p, []), rhs);
    assert [] + Items(rhs) == Items(rhs);
  }

  lemma EraseItem(slots: seq<Slot>, i: nat)
    requires i < |slots| && slots[i].Some?
    ensures Items(slots[..i] + slots[i + 1..]) == Items(slots[i := None])
  {
    ItemsConcat(slots[..i], slots[i + 1..]);
    ItemsAt(slots[i := None], i);
    assert slots[i := None][..i] == slots[..i] && slots[i := None][i + 1..] == slots[i + 1..];
  }

  lemma RemoveStands(b: Box, positions: seq<nat>, p: Plain, d: Delegate)
    requires Stands(b, positions, p)
    ensures Stands(RemoveFrom(b, d), positions, PlainRemove(p, d))
  {
    FirstOfItems(b.slots, d);
    var i := FirstOf(b.slots, d);
    if i < |b.slots| {
      BlankOne(b.slots, i);
      if b.depth > 0 {
        BlankStands(b, positions, p, d, i);
      } else {
        EraseItem(b.slots, i);
        EraseStands(b, positions, p, d, i);
      }
    }
  }

  lemma BlankStands(b: Box, positions: seq<nat>, p: Plain, d: Delegate, i: nat)
    requires Stands(b, positions, p) && b.depth > 0 && i < |b.slots| && b.slots[i].Some?
    requires IndexOf(p.items, d) == Rank(b.slots, i) < |p.items|
    ensures Stands(b.(slots := b.slots[i := None], cleanup := true), positions, PlainRemove(p, d))
  {
    BlankOne(b.slots, i);
  }

  lemma EraseStands(b: Box, positions: seq<nat>, p: Plain, d: Delegate, i: nat)
    requires Stands(b, positions, p) && b.depth == 0 && i < |b.slots|
    requires var r := Rank(b.slots, i);
             && IndexOf(p.items, d) == r < |p.items|
             && Items(b.slots[..i] + b.slots[i + 1..]) == p.items[..r] + p.items[r + 1..]
    ensures Stands(b.(slots := b.slots[..i] + b.slots[i + 1..]), positions, PlainRemove(p, d))
  {
  }

  lemma LeaveStands(b: Box, positions: seq<nat>, last: nat, p: Plain)
    requires b.depth > 0 && |positions| == b.depth - 1 && Stands(b, positions + [last], p)
    ensures Stands(Leave(b), positions, p.(cursors := p.cursors[..|positions|]))
  {
    assert forall k | 0 <= k < |positions| :: (positions + [last])[k] == positions[k];
    if positions == [] && b.cleanup {
      ItemsFull(Items(b.slots));
    }
  }

  /** Under any nesting of broadcasts, one callback's actions have on the container exactly
      the effect, the invocations and the outcome they have on the plain list. */
  lemma {:induction false} PerformRefines(b: Box, positions: seq<nat>, p: Plain, actions: Actions)
    requires Stands(b, positions, p) && MovesClean(b.depth, actions)
    ensures var r, q := Perform(b, actions), PlainPerform(p, actions);
            Stands(r.box, positions, q.state) && r.trace == q.trace && r.threw == q.threw
    decreases actions, 0
  {
    match actions
    case Stop =>
    case Do(action, rest) =>
      match action
      case PushBack(d) =>
        PushStands(b, positions, p, [Some(d)]);
        assert [Some(d)][..0] == [] && Items([Some(d)]) == [d];
        PerformRefines(b.(slots := b.slots + [Some(d)]), positions, p.(items := p.items + [d]), rest);
      case Remove(d) =>
        RemoveStands(b, positions, p, d);
        PerformRefines(RemoveFrom(b, d), positions, PlainRemove(p, d), rest);
      case Clear =>
        ClearStands(b, positions, p);
        PerformRefines(ClearAll(b), positions, PlainAssign(p, []), rest);
      case CopyAssign(rhs) =>
        ItemsFull(Items(rhs));
        AssignStands(b, positions, p, Full(Items(rhs)));
        PerformRefines(CopyInto(b, rhs), positions, PlainAssign(p, Items(rhs)), rest);
      case MoveAssign(rhs) =>
        AssignStands(b, positions, p, rhs);
        PerformRefines(MoveInto(b, rhs), positions, PlainAssign(p, Items(rhs)), rest);
      case Throw =>
      case Broadcast(script, caught) =>
        EmitRefines(b, positions, p, script);
        var nested, plain := Emit(b, script), PlainEmit(p, script);
        if !nested.threw || caught {
          PerformRefines(nested.box, positions, plain.state, rest);
        }
  }

  lemma {:induction false} EmitRefines(b: Box, positions: seq<nat>, p: Plain, script: Script)
    requires Stands(b, positions, p)
    ensures var r, q := Emit(b, script), PlainEmit(p, script);
            Stands(r.box, positions, q.state) && r.trace == q.trace && r.threw == q.threw
    decreases script, |b.slots| + 1
  {
    var entered := p.(cursors := p.cursors + [0]);
    assert b.slots[..0] == [];
    var final := PassRefines(Enter(b), positions, 0, entered, script);
    LeaveStands(Pass(Enter(b), script, 0).box, positions, final, PlainPass(entered, script).state);
  }

  lemma PassEnds(b: Box, positions: seq<nat>, pos: nat, p: Plain)
    requires b.depth > 0 && |positions| == b.depth - 1 && Stands(b, positions + [pos], p)
    ensures pos >= |b.slots| <==> pos == |b.slots|
    ensures pos >= |b.slots| ==> p.cursors[|positions|] == |p.items|
  {
    assert (positions + [pos])[|positions|] == pos;
    if pos >= |b.slots| {
      assert b.slots[..pos] == b.slots;
    }
  }

  // The loop's iterator moves on: over a blank the plain list's cursor stays, over a
  // delegate it moves with it.
  lemma PassMoves(b: Box, positions: seq<nat>, pos: nat, p: Plain)
    requires b.depth > 0 && |positions| == b.depth - 1 && Stands(b, positions + [pos], p)
    requires pos < |b.slots|
    ensures b.slots[pos] == None ==> Stands(b, positions + [pos + 1], p)
    ensures b.slots[pos].Some? ==>
              var next := p.cursors[|positions|];
              && next < |p.items| && p.items[next] == b.slots[pos].value
              && Stands(b, positions + [pos + 1], p.(cursors := p.cursors[|positions| := next + 1]))
  {
    ItemsAt(b.slots, pos);
    var here, there, last := positions + [pos], positions + [pos + 1], |positions|;
    assert here[last] == pos && there[last] == pos + 1;
    assert forall k | 0 <= k < last :: there[k] == here[k];
    assert p.cursors[last] == Rank(b.slots, here[last]);
    if b.slots[pos].Some? {
      var moved := p.cursors[last := p.cursors[last] + 1];
      assert forall k | 0 <= k < |there| :: there[k] <= |b.slots| && moved[k] == Rank(b.slots, there[k]);
    }
  }

  lemma {:induction false} PassRefines(b: Box, positions: seq<nat>, pos: nat, p: Plain, script: Script) returns (final: nat)
    requires b.depth > 0 && |positions| == b.depth - 1 && Stands(b, positions + [pos], p)
    ensures var r, q := Pass(b, script, pos), PlainPass(p, script);
            Stands(r.box, positions + [final], q.state) && r.trace == q.trace && r.threw == q.threw
    decreases script, if pos < |b.slots| then |b.slots| - pos else 0
  {
    PassEnds(b, positions, pos, p);
    if pos >= |b.slots| {
      final := pos;
    } else {
      PassMoves(b, positions, pos, p);
      if b.slots[pos] == None {
        final := PassRefines(b, positions, pos + 1, p, script);
      } else {
        match script
        case Quiet => final := QuietVisitRefines(b, positions, pos, p);
        case Turn(actions, rest) => final := TurnRefines(b, positions, pos, p, actions, rest);
      }
    }
  }

  lemma {:induction false} TurnGoesOn(b: Box, actions: Actions, rest: Script, pos: nat)
    requires pos < |b.slots| && b.slots[pos].Some? && !Perform(b, actions).threw
    ensures var r, called := Pass(b, Turn(actions, rest), pos), Perform(b, actions);
            var left := Pass(called.box, rest, pos + 1);
            r.box == left.box && r.threw == left.threw && r.trace == [b.slots[pos].value] + called.trace + left.trace
  {
  }

  lemma {:induction false} TurnThrows(b: Box, actions: Actions, rest: Script, pos: nat, p: Plain)
    requires pos < |b.slots| && b.slots[pos].Some? && Perform(b, actions).threw
    requires p.cursors != [] && p.cursors[|p.cursors| - 1] < |p.items|
    ensures var r, called := Pass(b, Turn(actions, rest), pos), Perform(b, actions);
            r.box == called.box && r.threw && r.trace == [b.slots[pos].value] + called.trace
    ensures var next := p.cursors[|p.cursors| - 1];
            var plain := PlainPerform(p.(cursors := p.cursors[|p.cursors| - 1 := next + 1]), actions);
            plain.threw ==> PlainPass(p, Turn(actions, rest)) == PlainThen([p.items[next]], plain)
  {
  }

  lemma {:induction false} PlainTurnGoesOn(p: Plain, actions: Actions, rest: Script)
    requires p.cursors != [] && p.cursors[|p.cursors| - 1] < |p.items|
    ensures var next := p.cursors[|p.cursors| - 1];
            var plain := PlainPerform(p.(cursors := p.cursors[|p.cursors| - 1 := next + 1]), actions);
            !plain.threw ==>
              PlainPass(p, Turn(actions, rest)) == PlainThen([p.items[next]] + plain.trace, PlainPass(plain.state, rest))
  {
  }

  // A turn that returned, and a rest of the pass that refines the plain one, make a pass
  // that does.
  lemma {:induction false} RestRefines(b: Box, positions: seq<nat>, pos: nat, p: Plain,
      actions: Actions, rest: Script, final: nat)
    requires pos < |b.slots| && b.slots[pos].Some?
    requires p.cursors != [] && p.cursors[|p.cursors| - 1] < |p.items|
    requires p.items[p.cursors[|p.cursors| - 1]] == b.slots[pos].value
    requires var next := p.cursors[|p.cursors| - 1];
             var moved := p.(cursors := p.cursors[|p.cursors| - 1 := next + 1]);
             var called, plain := Perform(b, actions), PlainPerform(moved, actions);
             && called.trace == plain.trace && !called.threw && !plain.threw
             && var left, plainLeft := Pass(called.box, rest, pos + 1), PlainPass(plain.state, rest);
                && Stands(left.box, positions + [final], plainLeft.state)
                && left.trace == plainLeft.trace && left.threw == plainLeft.threw
    ensures var r, q := Pass(b, Turn(actions, rest), pos), PlainPass(p, Turn(actions, rest));
            Stands(r.box, positions + [final], q.state) && r.trace == q.trace && r.threw == q.threw
  {
    TurnGoesOn(b, actions, rest, pos);
    PlainTurnGoesOn(p, actions, rest);
  }

  lemma {:induction false} QuietVisitRefines(b: Box, positions: seq<nat>, pos: nat, p: Plain) returns (final: nat)
    requires b.depth > 0 && |positions| == b.depth - 1 && |p.cursors| == b.depth
    requires pos < |b.slots| && b.slots[pos].Some?
    requires var next := p.cursors[|positions|];
             && next < |p.items| && p.items[next] == b.slots[pos].value
             && Stands(b, positions + [pos + 1], p.(cursors := p.cursors[|positions| := next + 1]))
    ensures var r, q := Pass(b, Quiet, pos), PlainPass(p, Quiet);
            Stands(r.box, positions + [final], q.state) && r.trace == q.trace && r.threw == q.threw
    decreases Quiet, |b.slots| - pos, 0
  {
    var moved := p.(cursors := p.cursors[|positions| := p.cursors[|positions|] + 1]);
    final := PassRefines(b, positions, pos + 1, moved, Quiet);
  }

  lemma {:induction false} TurnRefines(b: Box, positions: seq<nat>, pos: nat, p: Plain,
      actions: Actions, rest: Script) returns (final: nat)
    requires b.depth > 0 && |positions| == b.depth - 1 && |p.cursors| == b.depth
    requires pos < |b.slots| && b.slots[pos].Some?
    requires var next := p.cursors[|positions|];
             && next < |p.items| && p.items[next] == b.slots[pos].value
             && Stands(b, positions + [pos + 1], p.(cursors := p.cursors[|positions| := next + 1]))
    ensures var r, q := Pass(b, Turn(actions, rest), pos), PlainPass(p, Turn(actions, rest));
            Stands(r.box, positions + [final], q.state) && r.trace == q.trace && r.threw == q.threw
    decreases Turn(actions, rest), |b.slots| - pos, 0
  {
    var moved := p.(cursors := p.cursors[|positions| := p.cursors[|positions|] + 1]);
    PerformRefines(b, positions + [pos + 1], moved, actions);
    var called, plain := Perform(b, actions), PlainPerform(moved, actions);
    if called.threw {
      final := pos + 1;
      TurnThrows(b, actions, rest, pos, p);
    } else {
      final := PassRefines(called.box, positions, pos + 1, plain.state, rest);
      RestRefines(b, positions, pos, p, actions, rest, final);
    }
  }

  // The state between calls that the class promises: no blanks, nothing left to purge.
  ghost predicate Idle(b: Box) {
    b.depth == 0 && !b.cleanup && NoBlank(b.slots)
  }

  /** Any sequence of calls on an idle container, whatever their callbacks do and whether
      or not they throw, leaves it idle again, holding and having invoked what the plain
      list does. */
  lemma IdleAgain(b: Box, actions: Actions)
    requires Idle(b) && MovesClean(0, actions)
    ensures var r, q := Perform(b, actions), PlainPerform(Plain(Items(b.slots), []), actions);
            && Idle(r.box) && r.box.slots == Full(q.state.items)
            && r.trace == q.trace && r.threw == q.threw
  {
    PerformRefines(b, [], Plain(Items(b.slots), []), actions);
    NoBlankIsFull(Perform(b, actions).box.slots);
  }

  lemma {:induction false} QuietPass(b: Box, pos: nat)
    requires pos <= |b.slots|
    ensures var r := Pass(b, Quiet, pos); r.box == b && r.trace == Items(b.slots[pos..]) && !r.threw
    decreases |b.slots| - pos
  {
    if pos < |b.slots| {
      QuietPass(b, pos + 1);
      assert b.slots[pos..] == [b.slots[pos]] + b.slots[pos + 1..];
      ItemsConcat([b.slots[pos]], b.slots[pos + 1..]);
      assert [b.slots[pos]][..0] == [];
    } else {
      assert b.slots[pos..] == [];
    }
  }

  /** A broadcast whose callbacks leave the container alone invokes every delegate once, in
      order, and changes nothing. */
  lemma QuietBroadcast(b: Box)
    requires Idle(b) || b.depth > 0
    ensures var r := Emit(b, Quiet); r.box == b && r.trace == Items(b.slots) && !r.threw
  {
    QuietPass(Enter(b), 0);
    assert b.slots[0..] == b.slots;
  }

  /** The hypothesis is needed: moving into an idle container keeps it idle exactly when
      what is moved in has no blanks, that is, unless it comes from mid-broadcast. */
  lemma MoveKeepsIdle(b: Box, rhs: seq<Slot>)
    requires Idle(b)
    ensures Idle(MoveInto(b, rhs)) <==> NoBlank(rhs)
    ensures Items(MoveInto(b, rhs).slots) == Items(rhs)
  {
    assert [] + rhs == rhs;
  }

  /** A container whose callback removes delegate d and hands the list on to an idle one:
      the idle one takes a blank over, and no later broadcast of its own drops it. */
  lemma MovedInMidBroadcast(b: Box, source: Box, d: Delegate)
    requires Idle(b) && Idle(source) && Some(d) in source.slots
    ensures var moved := MoveInto(b, RemoveFrom(Enter(source), d).slots);
            !Idle(moved) && Emit(moved, Quiet).box == moved && !Idle(Emit(moved, Quiet).box)
  {
    var i, left := FirstOf(source.slots, d), RemoveFrom(Enter(source), d);
    assert left.slots[i] == None;
    var moved := MoveInto(b, left.slots);
    MoveKeepsIdle(b, left.slots);
    QuietPass(Enter(moved), 0);
  }

  // ---------------------------------------------------------------- one pass

  // Positions never shift: a slot keeps its delegate or loses it, and new ones come last.
  ghost predicate Grown(was: seq<Slot>, now: seq<Slot>) {
    && |was| <= |now|
    && forall i | 0 <= i < |was| :: now[i] == was[i] || now[i] == None
  }

  lemma {:induction false} PerformGrows(b: Box, actions: Actions)
    requires b.depth > 0
    ensures Grown(b.slots, Perform(b, actions).box.slots)
    decreases actions, 0
  {
    match actions
    case Stop =>
    case Do(action, rest) =>
      match action
      case PushBack(d) => PerformGrows(b.(slots := b.slots + [Some(d)]), rest);
      case Remove(d) => PerformGrows(RemoveFrom(b, d), rest);
      case Clear => PerformGrows(ClearAll(b), rest);
      case CopyAssign(rhs) => PerformGrows(CopyInto(b, rhs), rest);
      case MoveAssign(rhs) => PerformGrows(MoveInto(b, rhs), rest);
      case Throw =>
      case Broadcast(script, caught) =>
        PassGrows(Enter(b), script, 0);
        PerformGrows(Emit(b, script).box, rest);
  }

  lemma {:induction false} PassGrows(b: Box, script: Script, pos: nat)
    requires b.depth > 0
    ensures Grown(b.slots, Pass(b, script, pos).box.slots)
    decreases script, if pos < |b.slots| then |b.slots| - pos else 0
  {
    if pos >= |b.slots| {
    } else if b.slots[pos] == None {
      PassGrows(b, script, pos + 1);
    } else {
      match script
      case Quiet => PassGrows(b, Quiet, pos + 1);
      case Turn(actions, rest) =>
        PerformGrows(b, actions);
        PassGrows(Perform(b, actions).box, rest, pos + 1);
    }
  }

  // The container when the pass from `pos` comes to position `p`; None if it never does.
  function AtTurn(b: Box, script: Script, pos: nat, p: nat): (turn: Option<Box>)
    decreases script, if pos < |b.slots| then |b.slots| - pos else 0
  {
    if pos == p then Some(b)
    else if pos >= |b.slots| then None
    else if b.slots[pos] == None then AtTurn(b, script, pos + 1, p)
    else
      match script
      case Quiet => AtTurn(b, Quiet, pos + 1, p)
      case Turn(actions, rest) =>
        var called := Perform(b, actions);
        if called.threw then None else AtTurn(called.box, rest, pos + 1, p)
  }

  lemma {:induction false} OwnFrom(b: Box, script: Script, pos: nat, v: Visit)
    requires v in Pass(b, script, pos).own
    ensures v.pos >= pos
    decreases script, if pos < |b.slots| then |b.slots| - pos else 0
  {
    if pos < |b.slots| {
      if b.slots[pos] == None {
        OwnFrom(b, script, pos + 1, v);
      } else if v.pos != pos {
        match script
        case Quiet => OwnFrom(b, Quiet, pos + 1, v);
        case Turn(actions, rest) => OwnFrom(Perform(b, actions).box, rest, pos + 1, v);
      }
    }
  }

  /** A pass invokes, at each position it comes to, exactly the delegate that is still
      there when its turn comes: so never one removed before, and one appended during the
      pass only once it gets that far. */
  lemma {:induction false} InvokedAtTurn(b: Box, script: Script, pos: nat, p: nat, d: Delegate)
    requires pos <= p
    ensures var turn := AtTurn(b, script, pos, p);
            Visit(p, d) in Pass(b, script, pos).own <==>
              turn.Some? && p < |turn.value.slots| && turn.value.slots[p] == Some(d)
    decreases script, if pos < |b.slots| then |b.slots| - pos else 0
  {
    if pos >= |b.slots| {
    } else if b.slots[pos] == None {
      if pos == p {
        NotLater(b, script, p, d);
      } else {
        InvokedAtTurn(b, script, pos + 1, p, d);
      }
    } else if pos == p {
      AtOwnTurn(b, script, p, d);
    } else {
      match script
      case Quiet => InvokedAtTurn(b, Quiet, pos + 1, p, d);
      case Turn(actions, rest) =>
        if !Perform(b, actions).threw {
          InvokedAtTurn(Perform(b, actions).box, rest, pos + 1, p, d);
        }
    }
  }

  lemma NotLater(b: Box, script: Script, p: nat, d: Delegate)
    ensures Visit(p, d) !in Pass(b, script, p + 1).own
  {
    if Visit(p, d) in Pass(b, script, p + 1).own {
      OwnFrom(b, script, p + 1, Visit(p, d));
    }
  }

  lemma AtOwnTurn(b: Box, script: Script, p: nat, d: Delegate)
    requires p < |b.slots| && b.slots[p].Some?
    ensures Visit(p, d) in Pass(b, script, p).own <==> b.slots[p] == Some(d)
  {
    match script
    case Quiet => NotLater(b, Quiet, p, d);
    case Turn(actions, rest) => NotLater(Perform(b, actions).box, rest, p, d);
  }

  /** A pass that did not throw came to every position its list had, and found there the
      delegate it had at first or a blank. */
  lemma {:induction false} ReachedUnlessThrew(b: Box, script: Script, pos: nat, p: nat)
    requires b.depth > 0 && pos <= p < |b.slots| && !Pass(b, script, pos).threw
    ensures var turn := AtTurn(b, script, pos, p); turn.Some? && Grown(b.slots, turn.value.slots)
    decreases script, if pos < |b.slots| then |b.slots| - pos else 0
  {
    if pos != p {
      if b.slots[pos] == None {
        ReachedUnlessThrew(b, script, pos + 1, p);
      } else {
        match script
        case Quiet => ReachedUnlessThrew(b, Quiet, pos + 1, p);
        case Turn(actions, rest) =>
          PerformGrows(b, actions);
          ReachedUnlessThrew(Perform(b, actions).box, rest, pos + 1, p);
      }
    }
  }

  ghost predicate Increasing(own: seq<Visit>) {
    forall i, j | 0 <= i < j < |own| :: own[i].pos < own[j].pos
  }

  /** A pass goes through the list once, in order: no position is invoked twice. */
  lemma {:induction false} InOrder(b: Box, script: Script, pos: nat)
    ensures Increasing(Pass(b, script, pos).own)
    decreases script, if pos < |b.slots| then |b.slots| - pos else 0
  {
    if pos < |b.slots| {
      if b.slots[pos] == None {
        InOrder(b, script, pos + 1);
      } else {
        var here := Visit(pos, b.slots[pos].value);
        match script
        case Quiet =>
          InOrder(b, Quiet, pos + 1);
          AllLater(b, Quiet, pos);
          Lowest(here, Pass(b, Quiet, pos + 1).own);
          assert Pass(b, script, pos).own == [here] + Pass(b, Quiet, pos + 1).own;
        case Turn(actions, rest) =>
          var called := Perform(b, actions);
          if called.threw {
            assert Pass(b, script, pos).own == [here];
          } else {
            InOrder(called.box, rest, pos + 1);
            AllLater(called.box, rest, pos);
            Lowest(here, Pass(called.box, rest, pos + 1).own);
            assert Pass(b, script, pos).own == [here] + Pass(called.box, rest, pos + 1).own;
          }
      }
    }
  }

  lemma Lowest(first: Visit, rest: seq<Visit>)
    requires Increasing(rest) && Behind(rest, first.pos)
    ensures Increasing([first] + rest)
  {
  }

  ghost predicate Behind(own: seq<Visit>, pos: nat) {
    forall j | 0 <= j < |own| :: pos < own[j].pos
  }

  lemma AllLater(b: Box, script: Script, pos: nat)
    ensures Behind(Pass(b, script, pos + 1).own, pos)
  {
    var own := Pass(b, script, pos + 1).own;
    forall j | 0 <= j < |own| ensures pos < own[j].pos {
      OwnFrom(b, script, pos + 1, own[j]);
    }
  }

  /** So a broadcast that does not throw invokes a delegate that was in the list at its
      start just once if it is still there at its turn, whatever becomes of it later, and
      not at all if it has been removed by then. */
  lemma OnceUnlessGone(b: Box, script: Script, p: nat)
    requires b.depth > 0 && p < |b.slots| && b.slots[p].Some? && !Pass(b, script, 0).threw
    ensures var own, turn := Pass(b, script, 0).own, AtTurn(b, script, 0, p);
            && turn.Some? && p < |turn.value.slots| && turn.value.slots[p] in {b.slots[p], None}
            && (turn.value.slots[p] == b.slots[p] <==> exists i :: 0 <= i < |own| && own[i] == Visit(p, b.slots[p].value))
            && (forall i, j | 0 <= i < |own| && 0 <= j < |own| && own[i].pos == p == own[j].pos :: i == j)
            && (forall i | 0 <= i < |own| && own[i].pos == p :: own[i] == Visit(p, b.slots[p].value))
  {
    var own, d := Pass(b, script, 0).own, b.slots[p].value;
    ReachedUnlessThrew(b, script, 0, p);
    InvokedAtTurn(b, script, 0, p, d);
    InOrder(b, script, 0);
    OneVisit(own, p);
    forall i | 0 <= i < |own| && own[i].pos == p ensures own[i] == Visit(p, d) {
      InvokedAtTurn(b, script, 0, p, own[i].who);
      assert own[i] == Visit(p, own[i].who) && own[i] in own;
    }
    assert Visit(p, d) in own <==> exists i :: 0 <= i < |own| && own[i] == Visit(p, d);
  }

  lemma OneVisit(own: seq<Visit>, p: nat)
    requires Increasing(own)
    ensures forall i, j | 0 <= i < |own| && 0 <= j < |own| && own[i].pos == p == own[j].pos :: i == j
  {
  }

  /** A pass that nothing cut short came to every position: a delegate still in the list
      when it ends has been invoked. */
  lemma {:induction false} SurvivorsInvoked(b: Box, script: Script, pos: nat, p: nat)
    requires b.depth > 0 && pos <= p
    requires var r := Pass(b, script, pos); !r.threw && p < |r.box.slots| && r.box.slots[p].Some?
    ensures var r := Pass(b, script, pos); Visit(p, r.box.slots[p].value) in r.own
    decreases script, if pos < |b.slots| then |b.slots| - pos else 0
  {
    if pos < |b.slots| {
      if b.slots[pos] == None {
        PassGrows(b, script, pos + 1);
        SurvivorsInvoked(b, script, pos + 1, p);
      } else {
        match script
        case Quiet =>
          PassGrows(b, Quiet, pos + 1);
          if p > pos { SurvivorsInvoked(b, Quiet, pos + 1, p); }
        case Turn(actions, rest) =>
          PerformGrows(b, actions);
          PassGrows(Perform(b, actions).box, rest, pos + 1);
          if p > pos { SurvivorsInvoked(Perform(b, actions).box, rest, pos + 1, p); }
      }
    }
  }
}
