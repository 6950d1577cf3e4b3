/** Runs of TransportMonitor at lock granularity: any threads, in any order, add,
    acknowledge and process. Which entries are expired is left to the steps, so every clock
    and timeout is covered. The array of expired items is one member of the monitor: each
    pass of Process fills it under the lock and reads it again, item by item, without it. */
module MonitorRuns {
  import opened Common
  import opened MessageKeys
  import opened TransportMonitors

  // Accepted Adds are numbered. The subscribers are told of an acknowledged one after the
  // lock has been released.
  datatype Ack = Ack(serial: nat, told: bool)

  // One pass of some call of Process: what it took out of the map, and what it has told
  // the subscribers so far. Its index into the array is |told|.
  datatype Pass = Pass(taken: seq<nat>, told: seq<nat>)

  datatype Fate = Waiting | Acked(ack: nat) | TimedOut(pass: nat, index: nat)

  // `fates` remembers what became of each accepted Add; `buffer` is the array.
  datatype State = State(
    accepted: seq<Key>, fates: seq<Fate>, pending: map<Key, nat>, acks: seq<Ack>, buffer: seq<nat>, passes: seq<Pass>)

  datatype Step =
    | Add(key: Key)
    | Remove(key: Key)
    | TellAck(ack: nat)
    | Extract(batch: seq<Key>)  // a pass, under the lock
    | Tell(pass: nat)           // a pass tells of the array's next item

  const INIT := State([], [], map[], [], [], [])

  function SetFate(fates: seq<Fate>, n: nat, fate: Fate): seq<Fate> {
    if n < |fates| then fates[n := fate] else fates
  }

  function SetSlot(buffer: seq<nat>, i: nat, n: nat): seq<nat> {
    if i < |buffer| then buffer[i := n] else buffer + [n]
  }

  // The scan of the last pass comes to an expired entry.
  function TakeOne(s: State, key: Key): State
    requires key in s.pending && s.passes != []
  {
    var n, p := s.pending[key], |s.passes| - 1;
    var i := |s.passes[p].taken|;
    s.(pending := s.pending - {key}, fates := SetFate(s.fates, n, TimedOut(p, i)),
       buffer := SetSlot(s.buffer, i, n), passes := s.passes[p := s.passes[p].(taken := s.passes[p].taken + [n])])
  }

  function TakeAll(s: State, batch: seq<Key>): State
    requires s.passes != []
    decreases |batch|
  {
    if batch == [] || batch[0] !in s.pending then s else TakeAll(TakeOne(s, batch[0]), batch[1..])
  }

  predicate CanExtract(s: State, batch: seq<Key>) {
    |batch| <= MAX_TIMER_EXPIRED && forall i | 0 <= i < |batch| :: batch[i] in s.pending && batch[i] !in batch[..i]
  }

  predicate Unfinished(p: Pass) {
    |p.told| < |p.taken|
  }

  function Next(s: State, step: Step): State {
    match step
    case Add(key) =>
      if |s.pending| < MAX_PENDING && key !in s.pending
      then s.(accepted := s.accepted + [key], fates := s.fates + [Waiting], pending := s.pending[key := |s.accepted|])
      else s
    case Remove(key) =>
      if key in s.pending
      then s.(pending := s.pending - {key}, fates := SetFate(s.fates, s.pending[key], Acked(|s.acks|)),
              acks := s.acks + [Ack(s.pending[key], false)])
      else s
    case TellAck(a) =>
      if a < |s.acks| then s.(acks := s.acks[a := s.acks[a].(told := true)]) else s
    case Extract(batch) =>
      if CanExtract(s, batch) then TakeAll(s.(passes := s.passes + [Pass([], [])]), batch) else s
    case Tell(p) =>
      if p < |s.passes| && Unfinished(s.passes[p]) && |s.passes[p].told| < |s.buffer|
      then s.(passes := s.passes[p := s.passes[p].(told := s.passes[p].told + [s.buffer[|s.passes[p].told|]])])
      else s
  }

  function Exec(s: State, steps: seq<Step>): State
    decreases |steps|
  {
    if steps == [] then s else Exec(Next(s, steps[0]), steps[1..])
  }

  // ---------------------------------------------------------------- every Add has one fate

  function Total(passes: seq<Pass>): nat {
    if passes == [] then 0 else Total(passes[..|passes| - 1]) + |passes[|passes| - 1].taken|
  }

  ghost predicate Waits(s: State) {
    && |s.fates| == |s.accepted|
    && (forall k | k in s.pending ::
          s.pending[k] < |s.fates| && s.accepted[s.pending[k]] == k && s.fates[s.pending[k]] == Waiting)
    && (forall n | 0 <= n < |s.fates| && s.fates[n].Waiting? ::
          s.accepted[n] in s.pending && s.pending[s.accepted[n]] == n)
  }

  ghost predicate Acks(s: State) {
    && (forall a | 0 <= a < |s.acks| :: s.acks[a].serial < |s.fates| && s.fates[s.acks[a].serial] == Acked(a))
    && (forall n | 0 <= n < |s.fates| && s.fates[n].Acked? ::
          s.fates[n].ack < |s.acks| && s.acks[s.fates[n].ack].serial == n)
  }

  ghost predicate Passes(s: State) {
    && (forall p, i | 0 <= p < |s.passes| && 0 <= i < |s.passes[p].taken| ::
          s.passes[p].taken[i] < |s.fates| && s.fates[s.passes[p].taken[i]] == TimedOut(p, i))
    && (forall n | 0 <= n < |s.fates| && s.fates[n].TimedOut? ::
          && s.fates[n].pass < |s.passes| && s.fates[n].index < |s.passes[s.fates[n].pass].taken|
          && s.passes[s.fates[n].pass].taken[s.fates[n].index] == n)
    && (forall p | 0 <= p < |s.passes| ::
          |s.passes[p].told| <= |s.passes[p].taken| <= |s.buffer|)
    // An item only ever stands in the slot in which it was put.
    && (forall i | 0 <= i < |s.buffer| ::
          s.buffer[i] < |s.fates| && s.fates[s.buffer[i]].TimedOut? && s.fates[s.buffer[i]].index == i)
  }

  ghost predicate Inv(s: State) {
    && |s.accepted| == |s.pending| + |s.acks| + Total(s.passes) && |s.pending| <= MAX_PENDING
    && Waits(s) && Acks(s) && Passes(s)
  }

  lemma {:induction false} TotalUpdate(passes: seq<Pass>, p: nat, pass: Pass)
    requires p < |passes|
    ensures Total(passes[p := pass]) == Total(passes) - |passes[p].taken| + |pass.taken|
  {
    var n := |passes| - 1;
    if p < n {
      TotalUpdate(passes[..n], p, pass);
      assert passes[p := pass][..n] == passes[..n][p := pass];
    } else {
      assert passes[p := pass][..n] == passes[..n];
    }
  }

  lemma TotalAppend(passes: seq<Pass>, pass: Pass)
    ensures Total(passes + [pass]) == Total(passes) + |pass.taken|
  {
    assert (passes + [pass])[..|passes|] == passes;
  }

  lemma AddKeepsInv(s: State, key: Key)
    requires Inv(s)
    ensures Inv(Next(s, Add(key)))
  {
  }

  lemma RemoveKeepsInv(s: State, key: Key)
    requires Inv(s)
    ensures Inv(Next(s, Remove(key)))
  {
    if key in s.pending {
      MapSmaller(s.pending, key);
    }
  }

  lemma TellKeepsInv(s: State, p: nat)
    requires Inv(s)
    ensures Inv(Next(s, Tell(p)))
  {
    if p < |s.passes| && Unfinished(s.passes[p]) {
      TotalUpdate(s.passes, p, s.passes[p].(told := s.passes[p].told + [s.buffer[|s.passes[p].told|]]));
    }
  }

  lemma TakeOneKeepsInv(s: State, key: Key)
    requires Inv(s) && key in s.pending && s.passes != []
    ensures Inv(TakeOne(s, key))
  {
    var p := |s.passes| - 1;
    MapSmaller(s.pending, key);
    TotalUpdate(s.passes, p, s.passes[p].(taken := s.passes[p].taken + [s.pending[key]]));
    TakeOneKeepsWaits(s, key);
    TakeOneKeepsPasses(s, key);
  }

  lemma TakeOneKeepsWaits(s: State, key: Key)
    requires Waits(s) && Acks(s) && key in s.pending && s.passes != []
    ensures Waits(TakeOne(s, key)) && Acks(TakeOne(s, key))
  {
  }

  lemma TakeOneKeepsPasses(s: State, key: Key)
    requires Waits(s) && Passes(s) && key in s.pending && s.passes != []
    ensures Passes(TakeOne(s, key))
  {
  }

  lemma {:induction false} TakeAllKeepsInv(s: State, batch: seq<Key>)
    requires Inv(s) && s.passes != []
    ensures Inv(TakeAll(s, batch))
    decreases |batch|
  {
    if batch != [] && batch[0] in s.pending {
      TakeOneKeepsInv(s, batch[0]);
      TakeAllKeepsInv(TakeOne(s, batch[0]), batch[1..]);
    }
  }

  // A new pass, before its scan.
  function Opened(s: State): State {
    s.(passes := s.passes + [Pass([], [])])
  }

  lemma OpenedKeepsInv(s: State)
    requires Inv(s)
    ensures Inv(Opened(s))
  {
    TotalAppend(s.passes, Pass([], []));
  }

  lemma NextKeepsInv(s: State, step: Step)
    requires Inv(s)
    ensures Inv(Next(s, step))
  {
    match step
    case Add(key) => AddKeepsInv(s, key);
    case Remove(key) => RemoveKeepsInv(s, key);
    case TellAck(a) =>
    case Extract(batch) =>
      OpenedKeepsInv(s);
      TakeAllKeepsInv(Opened(s), batch);
    case Tell(p) => TellKeepsInv(s, p);
  }

  lemma {:induction false} ExecKeepsInv(s: State, steps: seq<Step>)
    requires Inv(s)
    ensures Inv(Exec(s, steps))
    decreases |steps|
  {
    if steps != [] {
      NextKeepsInv(s, steps[0]);
      ExecKeepsInv(Next(s, steps[0]), steps[1..]);
    }
  }

  // ---------------------------------------------------------------- the shared array

  // The pass has told of what it took, and the array still holds the rest of it.
  ghost predicate Intact(s: State, p: nat)
    requires p < |s.passes|
  {
    var pass := s.passes[p];
    && |pass.told| <= |pass.taken| <= |s.buffer|
    && (forall i | 0 <= i < |pass.told| :: pass.told[i] == pass.taken[i])
    && (forall i | |pass.told| <= i < |pass.taken| :: s.buffer[i] == pass.taken[i])
  }

  ghost predicate AllIntact(s: State) {
    forall p | 0 <= p < |s.passes| :: Intact(s, p)
  }

  // A new pass fills a slot that another pass has still to read.
  ghost predicate Clobbers(s: State, step: Step) {
    step.Extract? && CanExtract(s, step.batch) &&
    exists p :: 0 <= p < |s.passes| && Unfinished(s.passes[p]) && |s.passes[p].told| < |step.batch|
  }

  ghost predicate NeverClobbers(s: State, steps: seq<Step>)
    decreases |steps|
  {
    steps == [] || (!Clobbers(s, steps[0]) && NeverClobbers(Next(s, steps[0]), steps[1..]))
  }

  // What a scan from slot `from` on makes of the last pass and of the array.
  ghost predicate Scanned(s: State, batch: seq<Key>, t: State)
    requires s.passes != []
    requires forall i | 0 <= i < |batch| :: batch[i] in s.pending
  {
    var last := |s.passes| - 1;
    var from := |s.passes[last].taken|;
    && |t.passes| == |s.passes| && t.passes[..last] == s.passes[..last]
    && t.passes[last].told == s.passes[last].told && |t.passes[last].taken| == from + |batch|
    && t.passes[last].taken[..from] == s.passes[last].taken
    && |t.buffer| >= |s.buffer| && |t.buffer| >= from + |batch|
    && (forall i | from <= i < from + |batch| :: t.passes[last].taken[i] == s.pending[batch[i - from]] == t.buffer[i])
    && (forall i | 0 <= i < |s.buffer| && !(from <= i < from + |batch|) :: t.buffer[i] == s.buffer[i])
  }

  lemma {:induction false} TakeAllIs(s: State, batch: seq<Key>)
    requires Inv(s) && s.passes != []
    requires forall i | 0 <= i < |batch| :: batch[i] in s.pending && batch[i] !in batch[..i]
    ensures Scanned(s, batch, TakeAll(s, batch))
    decreases |batch|
  {
    if batch != [] {
      TakeOneKeepsInv(s, batch[0]);
      RestStillPending(s, batch);
      TakeAllIs(TakeOne(s, batch[0]), batch[1..]);
      ScannedOn(s, batch, TakeAll(s, batch));
    }
  }

  lemma RestStillPending(s: State, batch: seq<Key>)
    requires s.passes != [] && batch != []
    requires forall i | 0 <= i < |batch| :: batch[i] in s.pending && batch[i] !in batch[..i]
    ensures var one, rest := TakeOne(s, batch[0]), batch[1..];
            forall i | 0 <= i < |rest| :: rest[i] in one.pending && rest[i] !in rest[..i]
  {
    var one, rest := TakeOne(s, batch[0]), batch[1..];
    forall i | 0 <= i < |rest| ensures rest[i] in one.pending && rest[i] !in rest[..i] {
      assert rest[i] == batch[i + 1] && batch[0] == batch[..i + 1][0];
      assert batch[..i + 1] == [batch[0]] + rest[..i];
    }
  }

  // The scan's first entry, and then the rest of it.
  lemma ScannedOn(s: State, batch: seq<Key>, t: State)
    requires s.passes != [] && batch != [] && |s.passes[|s.passes| - 1].taken| <= |s.buffer|
    requires forall i | 0 <= i < |batch| :: batch[i] in s.pending
    requires forall i | 0 <= i < |batch[1..]| :: batch[1..][i] in TakeOne(s, batch[0]).pending
    requires Scanned(TakeOne(s, batch[0]), batch[1..], t)
    ensures Scanned(s, batch, t)
  {
    var last, one, rest := |s.passes| - 1, TakeOne(s, batch[0]), batch[1..];
    var from := |s.passes[last].taken|;
    assert one.passes[last].taken == s.passes[last].taken + [s.pending[batch[0]]];
    assert t.passes[last].taken[..from] == t.passes[last].taken[..from + 1][..from];
    forall i | from <= i < from + |batch|
      ensures t.passes[last].taken[i] == s.pending[batch[i - from]] == t.buffer[i]
    {
      if i == from {
        assert t.passes[last].taken[..from + 1][from] == s.pending[batch[0]];
      } else {
        assert rest[i - (from + 1)] == batch[i - from];
      }
    }
  }

  // What a pass under the lock does: it fills the slots from the first, and leaves all
  // other passes alone.
  lemma ExtractIs(s: State, batch: seq<Key>)
    requires Inv(s) && CanExtract(s, batch)
    ensures var t, n := Next(s, Extract(batch)), |s.passes|;
            && |t.passes| == n + 1 && t.passes[..n] == s.passes
            && t.passes[n].told == [] && |t.passes[n].taken| == |batch|
            && |t.buffer| >= |s.buffer| && |t.buffer| >= |batch|
            && (forall i | 0 <= i < |batch| :: t.passes[n].taken[i] == s.pending[batch[i]] == t.buffer[i])
            && (forall i | |batch| <= i < |s.buffer| :: t.buffer[i] == s.buffer[i])
  {
    OpenedKeepsInv(s);
    TakeAllIs(Opened(s), batch);
    assert Opened(s).passes[..|s.passes|] == s.passes;
  }

  // ---------------------------------------------------------------- exactly clobbering breaks it

  lemma ExtractKeepsIntact(s: State, batch: seq<Key>)
    requires Inv(s) && AllIntact(s) && !Clobbers(s, Extract(batch))
    ensures AllIntact(Next(s, Extract(batch)))
  {
    if CanExtract(s, batch) {
      ExtractIs(s, batch);
      var t, n := Next(s, Extract(batch)), |s.passes|;
      forall p | 0 <= p < |t.passes| ensures Intact(t, p) {
        if p < n {
          assert t.passes[p] == t.passes[..n][p] == s.passes[p] && Intact(s, p);
          assert !(Unfinished(s.passes[p]) && |s.passes[p].told| < |batch|);
        }
      }
    }
  }

  // The entry in the first slot that another pass still had to read.
  lemma ExtractBreaks(s: State, batch: seq<Key>, p: nat)
    requires Inv(s) && CanExtract(s, batch)
    requires p < |s.passes| && Unfinished(s.passes[p]) && |s.passes[p].told| < |batch|
    ensures var t, i := Next(s, Extract(batch)), |s.passes[p].told|;
            && p < |t.passes| && t.passes[p] == s.passes[p] && i < |t.buffer|
            && t.buffer[i] != t.passes[p].taken[i] && !Intact(t, p)
  {
    ExtractIs(s, batch);
    var t, i := Next(s, Extract(batch)), |s.passes[p].told|;
    assert t.passes[p] == t.passes[..|s.passes|][p];
    assert s.fates[s.passes[p].taken[i]] == TimedOut(p, i) && s.fates[s.pending[batch[i]]] == Waiting;
  }

  lemma TellKeepsIntact(s: State, p: nat)
    requires AllIntact(s)
    ensures AllIntact(Next(s, Tell(p)))
  {
    var t := Next(s, Tell(p));
    forall q | 0 <= q < |t.passes| ensures Intact(t, q) {
      assert Intact(s, q);
    }
  }

  // A pass that is not intact never is again.
  lemma StaysBroken(s: State, step: Step, p: nat)
    requires Inv(s) && p < |s.passes| && !Intact(s, p)
    ensures p < |Next(s, step).passes| && !Intact(Next(s, step), p)
  {
    var t := Next(s, step);
    match step
    case Add(_) =>
    case Remove(_) =>
    case TellAck(_) =>
    case Tell(q) => if q == p { TellStaysBroken(s, p); }
    case Extract(batch) =>
      if CanExtract(s, batch) {
        ExtractIs(s, batch);
        assert t.passes[p] == t.passes[..|s.passes|][p];
        ExtractStaysBroken(s, batch, p);
      }
  }

  lemma TellStaysBroken(s: State, p: nat)
    requires Inv(s) && p < |s.passes| && !Intact(s, p)
    ensures !Intact(Next(s, Tell(p)), p)
  {
    var pass, t := s.passes[p], Next(s, Tell(p));
    if Unfinished(pass) {
      var k := |pass.told|;
      if i :| 0 <= i < k && pass.told[i] != pass.taken[i] {
        assert t.passes[p].told[i] == pass.told[i];
      } else {
        var i :| k <= i < |pass.taken| && s.buffer[i] != pass.taken[i];
        if i == k {
          assert t.passes[p].told[k] != t.passes[p].taken[k];
        }
      }
    }
  }

  lemma ExtractStaysBroken(s: State, batch: seq<Key>, p: nat)
    requires Inv(s) && CanExtract(s, batch) && p < |s.passes| && !Intact(s, p)
    requires p < |Next(s, Extract(batch)).passes| && Next(s, Extract(batch)).passes[p] == s.passes[p]
    ensures !Intact(Next(s, Extract(batch)), p)
  {
    var pass, t := s.passes[p], Next(s, Extract(batch));
    ExtractIs(s, batch);
    if i :| 0 <= i < |pass.told| && pass.told[i] != pass.taken[i] {
      assert t.passes[p].told[i] != t.passes[p].taken[i];
    } else {
      var i :| |pass.told| <= i < |pass.taken| && s.buffer[i] != pass.taken[i];
      if i < |batch| {
        assert s.fates[pass.taken[i]] == TimedOut(p, i) && s.fates[s.pending[batch[i]]] == Waiting;
      }
      assert t.buffer[i] != t.passes[p].taken[i];
    }
  }

  lemma {:induction false} StaysBrokenForGood(s: State, steps: seq<Step>, p: nat)
    requires Inv(s) && p < |s.passes| && !Intact(s, p)
    ensures !AllIntact(Exec(s, steps))
    decreases |steps|
  {
    if steps != [] {
      StaysBroken(s, steps[0], p);
      NextKeepsInv(s, steps[0]);
      StaysBrokenForGood(Next(s, steps[0]), steps[1..], p);
    }
  }

  lemma NextKeepsIntact(s: State, step: Step)
    requires Inv(s) && AllIntact(s) && !Clobbers(s, step)
    ensures AllIntact(Next(s, step))
  {
    match step
    case Extract(batch) => ExtractKeepsIntact(s, batch);
    case Tell(p) => TellKeepsIntact(s, p);
    case Add(_) => assert forall p | 0 <= p < |s.passes| :: Intact(s, p) ==> Intact(Next(s, step), p);
    case Remove(_) => assert forall p | 0 <= p < |s.passes| :: Intact(s, p) ==> Intact(Next(s, step), p);
    case TellAck(_) => assert forall p | 0 <= p < |s.passes| :: Intact(s, p) ==> Intact(Next(s, step), p);
  }

  lemma {:induction false} IntactFrom(s: State, steps: seq<Step>)
    requires Inv(s) && AllIntact(s)
    ensures AllIntact(Exec(s, steps)) <==> NeverClobbers(s, steps)
    decreases |steps|
  {
    if steps != [] {
      NextKeepsInv(s, steps[0]);
      if Clobbers(s, steps[0]) {
        var p :| 0 <= p < |s.passes| && Unfinished(s.passes[p]) && |s.passes[p].told| < |steps[0].batch|;
        ExtractBreaks(s, steps[0].batch, p);
        StaysBrokenForGood(Next(s, steps[0]), steps[1..], p);
      } else {
        NextKeepsIntact(s, steps[0]);
        IntactFrom(Next(s, steps[0]), steps[1..]);
      }
    }
  }

  /** In every run, each pass of Process tells of exactly the entries it took, each once and
      in order, if and only if no pass ever fills a slot of the array that another pass
      has still to read. */
  lemma IntactIff(steps: seq<Step>)
    ensures AllIntact(Exec(INIT, steps)) <==> NeverClobbers(INIT, steps)
  {
    IntactFrom(INIT, steps);
  }

  function Tellings(passes: seq<Pass>): nat {
    if passes == [] then 0 else Tellings(passes[..|passes| - 1]) + |passes[|passes| - 1].told|
  }

  function TellingsDue(passes: seq<Pass>): int {
    if passes == [] then 0
    else TellingsDue(passes[..|passes| - 1]) + |passes[|passes| - 1].taken| - |passes[|passes| - 1].told|
  }

  function AcksWith(acks: seq<Ack>, told: bool): nat {
    if acks == [] then 0 else AcksWith(acks[..|acks| - 1], told) + if acks[|acks| - 1].told == told then 1 else 0
  }

  lemma {:induction false} TellingsCover(passes: seq<Pass>)
    ensures Tellings(passes) + TellingsDue(passes) == Total(passes)
  {
    if passes != [] {
      TellingsCover(passes[..|passes| - 1]);
    }
  }

  lemma {:induction false} AcksCover(acks: seq<Ack>)
    ensures AcksWith(acks, true) + AcksWith(acks, false) == |acks|
  {
    if acks != [] {
      AcksCover(acks[..|acks| - 1]);
    }
  }

  // Whatever has been told of is the timeout of that pass at that place, so it has been
  // told of once, and is neither pending nor acknowledged.
  ghost predicate ToldOnce(s: State) {
    forall p, i | 0 <= p < |s.passes| && 0 <= i < |s.passes[p].told| ::
      s.passes[p].told[i] < |s.fates| && s.fates[s.passes[p].told[i]] == TimedOut(p, i)
  }

  ghost predicate ToldOrDue(s: State, n: nat) {
    n < |s.fates| && s.fates[n].TimedOut? && s.fates[n].pass < |s.passes|
    && var pass := s.passes[s.fates[n].pass];
       n in pass.told || exists i :: |pass.told| <= i < |pass.taken| && pass.taken[i] == n
  }

  lemma IntactToldOnce(s: State)
    requires Inv(s) && AllIntact(s)
    ensures ToldOnce(s)
  {
    forall p, i | 0 <= p < |s.passes| && 0 <= i < |s.passes[p].told|
      ensures s.passes[p].told[i] < |s.fates| && s.fates[s.passes[p].told[i]] == TimedOut(p, i)
    {
      assert Intact(s, p) && s.passes[p].told[i] == s.passes[p].taken[i];
    }
  }

  lemma IntactToldOrDue(s: State, n: nat)
    requires Inv(s) && AllIntact(s) && n < |s.fates| && s.fates[n].TimedOut?
    ensures ToldOrDue(s, n)
  {
    var p, i := s.fates[n].pass, s.fates[n].index;
    assert Intact(s, p) && s.passes[p].taken[i] == n;
    if i < |s.passes[p].told| {
      assert s.passes[p].told[i] == n;
    }
  }

  /** In every run in which no pass clobbers another's items, each accepted Add has exactly
      one fate: it is pending, or acknowledged, or a timeout of one pass at one place; the
      subscribers are told of a timeout once, now or when its pass goes on; the numbers add
      up; and the map never outgrows the cap. */
  lemma Conservation(steps: seq<Step>)
    requires NeverClobbers(INIT, steps)
    ensures var s := Exec(INIT, steps);
            && |s.pending| <= MAX_PENDING && Waits(s) && Acks(s) && Passes(s) && ToldOnce(s)
            && |s.accepted| == |s.pending| + AcksWith(s.acks, true) + AcksWith(s.acks, false)
                               + Tellings(s.passes) + TellingsDue(s.passes)
            && (forall n | 0 <= n < |s.fates| && s.fates[n].TimedOut? :: ToldOrDue(s, n))
  {
    var s := Exec(INIT, steps);
    ExecKeepsInv(INIT, steps);
    IntactIff(steps);
    TellingsCover(s.passes);
    AcksCover(s.acks);
    IntactToldOnce(s);
    forall n: nat | n < |s.fates| && s.fates[n].TimedOut? ensures ToldOrDue(s, n) {
      IntactToldOrDue(s, n);
    }
  }

  // ---------------------------------------------------------------- what is lost otherwise

  ghost predicate EverTold(s: State, n: nat) {
    exists p :: 0 <= p < |s.passes| && n in s.passes[p].told
  }

  // The entry has left the map, has not been told, and is no longer in the array.
  ghost predicate Gone(s: State, n: nat) {
    n < |s.fates| && s.fates[n].TimedOut? && n !in s.buffer && !EverTold(s, n)
  }

  lemma GoneStays(s: State, step: Step, n: nat)
    requires Inv(s) && Gone(s, n)
    ensures Gone(Next(s, step), n)
  {
    var t := Next(s, step);
    match step
    case Add(_) => assert forall p | 0 <= p < |t.passes| :: t.passes[p] == s.passes[p];
    case Remove(_) => assert forall p | 0 <= p < |t.passes| :: t.passes[p] == s.passes[p];
    case TellAck(_) => assert forall p | 0 <= p < |t.passes| :: t.passes[p] == s.passes[p];
    case Tell(q) =>
      forall p | 0 <= p < |t.passes| ensures n !in t.passes[p].told {
        assert n !in s.passes[p].told;
      }
    case Extract(batch) => ExtractKeepsGone(s, batch, n);
  }

  lemma ExtractKeepsGone(s: State, batch: seq<Key>, n: nat)
    requires Inv(s) && Gone(s, n)
    ensures Gone(Next(s, Extract(batch)), n)
  {
    if CanExtract(s, batch) {
      var t := Next(s, Extract(batch));
      ExtractIs(s, batch);
      OpenedKeepsInv(s);
      TakeAllKeepsFate(Opened(s), batch, n);
      SlotsFrom(s, batch, n);
      forall p | 0 <= p < |t.passes| ensures n !in t.passes[p].told {
        if p < |s.passes| {
          assert t.passes[p] == t.passes[..|s.passes|][p] && n !in s.passes[p].told;
        }
      }
    }
  }

  // A pass writes only entries that were still waiting.
  lemma SlotsFrom(s: State, batch: seq<Key>, n: nat)
    requires Inv(s) && CanExtract(s, batch) && n < |s.fates| && !s.fates[n].Waiting?
    ensures forall i | 0 <= i < |Next(s, Extract(batch)).buffer| && Next(s, Extract(batch)).buffer[i] == n ::
              |batch| <= i < |s.buffer| && s.buffer[i] == n
  {
    var t := Next(s, Extract(batch));
    ExtractIs(s, batch);
    NextKeepsInv(s, Extract(batch));
    OpenedKeepsInv(s);
    TakeAllBuffer(Opened(s), batch);
    forall i | 0 <= i < |batch| ensures t.buffer[i] != n {
      assert s.fates[s.pending[batch[i]]] == Waiting;
    }
  }

  lemma {:induction false} TakeAllBuffer(s: State, batch: seq<Key>)
    requires Inv(s) && s.passes != []
    ensures var from := |s.passes[|s.passes| - 1].taken|;
            |TakeAll(s, batch).buffer| <= |s.buffer| || |TakeAll(s, batch).buffer| <= from + |batch|
    decreases |batch|
  {
    if batch != [] && batch[0] in s.pending {
      TakeOneKeepsInv(s, batch[0]);
      TakeAllBuffer(TakeOne(s, batch[0]), batch[1..]);
    }
  }

  lemma {:induction false} TakeAllKeepsFate(s: State, batch: seq<Key>, n: nat)
    requires Inv(s) && s.passes != [] && n < |s.fates| && s.fates[n].TimedOut?
    ensures n < |TakeAll(s, batch).fates| && TakeAll(s, batch).fates[n] == s.fates[n]
    decreases |batch|
  {
    if batch != [] && batch[0] in s.pending {
      TakeOneKeepsInv(s, batch[0]);
      TakeAllKeepsFate(TakeOne(s, batch[0]), batch[1..], n);
    }
  }

  lemma {:induction false} GoneForGood(s: State, steps: seq<Step>, n: nat)
    requires Inv(s) && Gone(s, n)
    ensures Gone(Exec(s, steps), n)
    decreases |steps|
  {
    if steps != [] {
      GoneStays(s, steps[0], n);
      NextKeepsInv(s, steps[0]);
      GoneForGood(Next(s, steps[0]), steps[1..], n);
    }
  }

  lemma ClobberedIsGone(s: State, batch: seq<Key>) returns (n: nat)
    requires Inv(s) && AllIntact(s) && Clobbers(s, Extract(batch))
    ensures Gone(Next(s, Extract(batch)), n)
  {
    var p :| 0 <= p < |s.passes| && Unfinished(s.passes[p]) && |s.passes[p].told| < |batch|;
    var i := |s.passes[p].told|;
    n := s.passes[p].taken[i];
    assert s.fates[n] == TimedOut(p, i);
    OpenedKeepsInv(s);
    TakeAllKeepsFate(Opened(s), batch, n);
    SlotsFrom(s, batch, n);
    StillNotTold(s, batch, n);
  }

  lemma StillNotTold(s: State, batch: seq<Key>, n: nat)
    requires Inv(s) && AllIntact(s) && CanExtract(s, batch) && n < |s.fates| && s.fates[n].TimedOut?
    requires s.fates[n].index >= |s.passes[s.fates[n].pass].told|
    ensures !EverTold(Next(s, Extract(batch)), n)
  {
    var t := Next(s, Extract(batch));
    ExtractIs(s, batch);
    forall q | 0 <= q < |t.passes| ensures n !in t.passes[q].told {
      if q < |s.passes| {
        assert t.passes[q] == t.passes[..|s.passes|][q];
        NotToldYet(s, q, n);
      }
    }
  }

  lemma NotToldYet(s: State, q: nat, n: nat)
    requires Inv(s) && AllIntact(s) && q < |s.passes| && n < |s.fates| && s.fates[n].TimedOut?
    requires s.fates[n].index >= |s.passes[s.fates[n].pass].told|
    ensures n !in s.passes[q].told
  {
    assert Intact(s, q);
    forall j | 0 <= j < |s.passes[q].told| ensures s.passes[q].told[j] != n {
      assert s.fates[s.passes[q].taken[j]] == TimedOut(q, j);
    }
  }

  lemma {:induction false} ClobberingLoses(s: State, steps: seq<Step>) returns (n: nat)
    requires Inv(s) && AllIntact(s) && !NeverClobbers(s, steps)
    ensures Gone(Exec(s, steps), n)
    decreases |steps|
  {
    NextKeepsInv(s, steps[0]);
    if Clobbers(s, steps[0]) {
      n := ClobberedIsGone(s, steps[0].batch);
      GoneForGood(Next(s, steps[0]), steps[1..], n);
    } else {
      NextKeepsIntact(s, steps[0]);
      n := ClobberingLoses(Next(s, steps[0]), steps[1..]);
    }
  }

  // An entry that timed out and of which the subscribers are never told, however long the
  // monitor goes on.
  ghost predicate Lost(s: State, n: nat) {
    n < |s.fates| && s.fates[n].TimedOut? && forall more :: !EverTold(Exec(s, more), n)
  }

  // A pass that goes on to its end tells of all that it took.
  lemma {:induction false} Finish(s: State, p: nat) returns (more: seq<Step>)
    requires Inv(s) && AllIntact(s) && p < |s.passes|
    ensures var t := Exec(s, more); p < |t.passes| && t.passes[p].told == s.passes[p].taken
    decreases |s.passes[p].taken| - |s.passes[p].told|
  {
    assert Intact(s, p);
    if Unfinished(s.passes[p]) {
      TellKeepsInv(s, p);
      TellKeepsIntact(s, p);
      var rest := Finish(Next(s, Tell(p)), p);
      more := [Tell(p)] + rest;
      assert more[1..] == rest;
    } else {
      more := [];
    }
  }

  lemma IntactLosesNone(s: State, n: nat)
    requires Inv(s) && AllIntact(s)
    ensures !Lost(s, n)
  {
    if n < |s.fates| && s.fates[n].TimedOut? {
      var p := s.fates[n].pass;
      var more := Finish(s, p);
      assert s.passes[p].taken[s.fates[n].index] == n;
      assert n in Exec(s, more).passes[p].told && EverTold(Exec(s, more), n);
    }
  }

  lemma GoneIsLost(s: State, n: nat)
    requires Inv(s) && Gone(s, n)
    ensures Lost(s, n)
  {
    forall more ensures !EverTold(Exec(s, more), n) {
      GoneForGood(s, more, n);
    }
  }

  ghost predicate LosesSome(s: State) {
    exists n: nat :: Lost(s, n)
  }

  lemma LosesSomeIff(s: State, steps: seq<Step>)
    requires Inv(s) && AllIntact(s)
    ensures LosesSome(Exec(s, steps)) <==> !NeverClobbers(s, steps)
  {
    ExecKeepsInv(s, steps);
    if NeverClobbers(s, steps) {
      IntactFrom(s, steps);
      forall n: nat ensures !Lost(Exec(s, steps), n) {
        IntactLosesNone(Exec(s, steps), n);
      }
    } else {
      var n := ClobberingLoses(s, steps);
      GoneIsLost(Exec(s, steps), n);
    }
  }

  /** Exactly the runs in which some pass fills a slot that another has still to read lose
      a timeout for good. */
  lemma LostIff(steps: seq<Step>)
    ensures LosesSome(Exec(INIT, steps)) <==> !NeverClobbers(INIT, steps)
  {
    LosesSomeIff(INIT, steps);
  }

  /** An accepted Add is pending, and an acknowledged one is told of as such, both by its own
      number, and nothing else changes. */
  lemma AddedAndAcknowledged(s: State, key: Key)
    requires Inv(s)
    ensures |s.pending| < MAX_PENDING && key !in s.pending ==>
              var t := Next(s, Add(key));
              t.pending == s.pending[key := |s.accepted|] && t.accepted == s.accepted + [key]
              && t.acks == s.acks && t.passes == s.passes
    ensures key in s.pending ==>
              var t := Next(Next(s, Remove(key)), TellAck(|s.acks|));
              t.pending == s.pending - {key} && t.acks == s.acks + [Ack(s.pending[key], true)]
              && t.accepted == s.accepted && t.passes == s.passes
  {
  }

  // ---------------------------------------------------------------- calls of Process apart

  // No pass fills the array while another has still to tell of something.
  ghost predicate OneAtATime(s: State, steps: seq<Step>)
    decreases |steps|
  {
    steps == [] ||
    (&& (steps[0].Extract? ==> forall p | 0 <= p < |s.passes| :: !Unfinished(s.passes[p]))
     && OneAtATime(Next(s, steps[0]), steps[1..]))
  }

  /** Calls of Process that do not overlap never clobber. */
  lemma {:induction false} ApartNeverClobbers(s: State, steps: seq<Step>)
    requires OneAtATime(s, steps)
    ensures NeverClobbers(s, steps)
    decreases |steps|
  {
    if steps != [] {
      ApartNeverClobbers(Next(s, steps[0]), steps[1..]);
    }
  }

  lemma Steps(s: State, first: Step, rest: seq<Step>)
    ensures Exec(s, [first] + rest) == Exec(Next(s, first), rest)
  {
    assert ([first] + rest)[1..] == rest;
  }

  lemma ExtractOne(s: State, k: Key)
    requires k in s.pending
    ensures Next(s, Extract([k])) == TakeOne(Opened(s), k)
  {
    assert [k][1..] == [] && TakeAll(TakeOne(Opened(s), k), []) == TakeOne(Opened(s), k);
    assert CanExtract(s, [k]);
  }

  // Two Adds, and two passes that take one entry each.
  function BothTaken(k: Key, l: Key): State {
    State([k, l], [TimedOut(0, 0), TimedOut(1, 0)], map[], [], [1], [Pass([0], []), Pass([1], [])])
  }

  lemma BothTakenReached(k: Key, l: Key)
    requires k != l
    ensures Next(Next(Next(Next(INIT, Add(k)), Add(l)), Extract([k])), Extract([l])) == BothTaken(k, l)
  {
    var s2 := Next(Next(INIT, Add(k)), Add(l));
    assert s2 == State([k, l], [Waiting, Waiting], map[k := 0, l := 1], [], [], []);
    ExtractOne(s2, k);
    var s3 := State([k, l], [TimedOut(0, 0), Waiting], map[l := 1], [], [0], [Pass([0], [])]);
    FirstTaken(s2, k, l);
    ExtractOne(s3, l);
    SecondTaken(s3, k, l);
  }

  lemma FirstTaken(s: State, k: Key, l: Key)
    requires k != l && s == State([k, l], [Waiting, Waiting], map[k := 0, l := 1], [], [], [])
    ensures TakeOne(Opened(s), k) == State([k, l], [TimedOut(0, 0), Waiting], map[l := 1], [], [0], [Pass([0], [])])
  {
    var t, none: seq<nat> := TakeOne(Opened(s), k), [];
    assert none + [0] == [0];
    assert Opened(s).passes == [Pass([], [])];
    assert t.passes == [Pass([0], [])] && t.pending == map[l := 1];
    assert t.buffer == [0] && t.fates == [TimedOut(0, 0), Waiting];
  }

  lemma SecondTaken(s: State, k: Key, l: Key)
    requires s == State([k, l], [TimedOut(0, 0), Waiting], map[l := 1], [], [0], [Pass([0], [])])
    ensures TakeOne(Opened(s), l) == BothTaken(k, l)
  {
    var t, none: seq<nat> := TakeOne(Opened(s), l), [];
    assert none + [1] == [1];
    assert Opened(s).passes == [Pass([0], []), Pass([], [])];
    assert t.passes == [Pass([0], []), Pass([1], [])] && t.pending == map[];
    assert t.buffer == [1] && t.fates == [TimedOut(0, 0), TimedOut(1, 0)];
  }

  lemma NeverTellsFirst(s: State)
    requires s.buffer == [1] && s.passes == [Pass([0], [1]), Pass([1], [1])] && s.fates == [TimedOut(0, 0), TimedOut(1, 0)]
    ensures Gone(s, 0)
  {
  }

  lemma BothTell(s: State)
    requires s.buffer == [1] && s.passes == [Pass([0], []), Pass([1], [])]
    ensures Next(Next(s, Tell(0)), Tell(1)).passes == [Pass([0], [1]), Pass([1], [1])]
  {
    var none: seq<nat> := [];
    assert none + [1] == [1];
    assert Next(s, Tell(0)).passes == [Pass([0], [1]), Pass([1], [])];
  }

  lemma {:induction false} SixSteps(s: State, a: Step, b: Step, c: Step, d: Step, e: Step, f: Step)
    ensures Exec(s, [a, b, c, d, e, f]) == Next(Next(Next(Next(Next(Next(s, a), b), c), d), e), f)
  {
    Steps(s, a, [b, c, d, e, f]);
    Steps(Next(s, a), b, [c, d, e, f]);
    Steps(Next(Next(s, a), b), c, [d, e, f]);
    Steps(Next(Next(Next(s, a), b), c), d, [e, f]);
    Steps(Next(Next(Next(Next(s, a), b), c), d), e, [f]);
    Steps(Next(Next(Next(Next(Next(s, a), b), c), d), e), f, []);
  }

  // Neither telling changes more than the passes.
  lemma TellKeepsRest(s: State, p: nat)
    ensures Next(s, Tell(p)) == s.(passes := Next(s, Tell(p)).passes)
  {
  }

  /** Two calls of Process that overlap: the first entry's timeout is never told, and the
      second's is told twice. */
  lemma OverlapLoses(k: Key, l: Key)
    requires k != l
    ensures var s := Exec(INIT, [Add(k), Add(l), Extract([k]), Extract([l]), Tell(0), Tell(1)]);
            s.passes == [Pass([0], [1]), Pass([1], [1])] && Lost(s, 0)
  {
    var s := BothTaken(k, l);
    SixSteps(INIT, Add(k), Add(l), Extract([k]), Extract([l]), Tell(0), Tell(1));
    BothTakenReached(k, l);
    BothTell(s);
    TellKeepsRest(s, 0);
    TellKeepsRest(Next(s, Tell(0)), 1);
    ExecKeepsInv(INIT, [Add(k), Add(l), Extract([k]), Extract([l]), Tell(0), Tell(1)]);
    NeverTellsFirst(Next(Next(s, Tell(0)), Tell(1)));
    GoneIsLost(Next(Next(s, Tell(0)), Tell(1)), 0);
  }
}
