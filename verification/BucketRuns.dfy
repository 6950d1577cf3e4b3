/** Any number of threads asking xallocator for the allocator of a bucket, in any
    interleaving: the lookup and the re-check with insertion are each one region under the
    mutex, the allocator is created outside it. */
module BucketRuns {
  import opened Common
  import opened XAllocators
  import opened XHeaps

  datatype Entry = Entry(id: nat, blockSize: nat)

  datatype Phase =
    | Looking
    | Missing                        // not found: create one, outside the lock
    | Created(mine: nat)             // re-check, and insert
    | Losing(mine: nat, winner: nat) // someone else inserted first: delete one's own
    | Done(result: nat)
    | Failed                         // the table was full: in the fault handler for good

  datatype Call = Call(bucket: nat, phase: Phase)

  // Where an allocator is: with the call that made it, in the table, or deleted.
  datatype Fate = Held(call: nat) | Kept(slot: nat) | Deleted

  // Allocators are numbered in the order they are made; `fates[id]` is what became of one.
  datatype State = State(table: seq<Entry>, calls: seq<Call>, fates: seq<Fate>)

  datatype Step = Ask(bucket: nat) | Look(call: nat) | Create(call: nat) | Insert(call: nat) | Discard(call: nat)

  const INIT := State([], [], [])

  function FindIn(table: seq<Entry>, size: nat): (i: nat)
    ensures i <= |table| && (i < |table| ==> table[i].blockSize == size)
    ensures forall j | 0 <= j < i :: table[j].blockSize != size
  {
    if table == [] || table[0].blockSize == size then 0 else 1 + FindIn(table[1..], size)
  }

  function WithPhase(calls: seq<Call>, c: nat, phase: Phase): seq<Call>
    requires c < |calls|
  {
    calls[c := calls[c].(phase := phase)]
  }

  function Deleting(fates: seq<Fate>, id: nat): seq<Fate> {
    if id < |fates| then fates[id := Deleted] else fates
  }

  function LookRegion(s: State, c: nat): State
    requires c < |s.calls|
  {
    var i := FindIn(s.table, s.calls[c].bucket);
    s.(calls := WithPhase(s.calls, c, if i < |s.table| then Done(s.table[i].id) else Missing))
  }

  function InsertRegion(s: State, c: nat, id: nat): State
    requires c < |s.calls|
  {
    var i := FindIn(s.table, s.calls[c].bucket);
    if i < |s.table| then s.(calls := WithPhase(s.calls, c, Losing(id, s.table[i].id)))
    else if |s.table| < MAX_ALLOCATORS then
      State(s.table + [Entry(id, BlockSizeOf(s.calls[c].bucket))], WithPhase(s.calls, c, Done(id)),
            if id < |s.fates| then s.fates[id := Kept(|s.table|)] else s.fates)
    else s.(calls := WithPhase(s.calls, c, Failed), fates := Deleting(s.fates, id))
  }

  function Next(s: State, step: Step): State {
    match step
    case Ask(bucket) => s.(calls := s.calls + [Call(bucket, Looking)])
    case Look(c) => if c < |s.calls| && s.calls[c].phase.Looking? then LookRegion(s, c) else s
    case Create(c) =>
      if c < |s.calls| && s.calls[c].phase.Missing?
      then s.(calls := WithPhase(s.calls, c, Created(|s.fates|)), fates := s.fates + [Held(c)]) else s
    case Insert(c) =>
      if c < |s.calls| && s.calls[c].phase.Created? then InsertRegion(s, c, s.calls[c].phase.mine) else s
    case Discard(c) =>
      if c < |s.calls| && s.calls[c].phase.Losing?
      then s.(calls := WithPhase(s.calls, c, Done(s.calls[c].phase.winner)),
              fates := Deleting(s.fates, s.calls[c].phase.mine)) else s
  }

  function Exec(s: State, steps: seq<Step>): State
    decreases |steps|
  {
    if steps == [] then s else Exec(Next(s, steps[0]), steps[1..])
  }

  // ---------------------------------------------------------------- invariants

  predicate Holding(c: Call) {
    c.phase.Created? || c.phase.Losing?
  }

  // Every allocator made is in just one place, which knows of it.
  ghost predicate Accounted(s: State) {
    && (forall c | 0 <= c < |s.calls| && Holding(s.calls[c]) ::
          s.calls[c].phase.mine < |s.fates| && s.fates[s.calls[c].phase.mine] == Held(c))
    && (forall i | 0 <= i < |s.table| :: s.table[i].id < |s.fates| && s.fates[s.table[i].id] == Kept(i))
    && (forall id | 0 <= id < |s.fates| && s.fates[id].Held? ::
          var c := s.fates[id].call; c < |s.calls| && Holding(s.calls[c]) && s.calls[c].phase.mine == id)
    && (forall id | 0 <= id < |s.fates| && s.fates[id].Kept? ::
          s.fates[id].slot < |s.table| && s.table[s.fates[id].slot].id == id)
  }

  // The allocator is in the table, for blocks of the size that the bucket asks for.
  predicate Serves(s: State, bucket: nat, id: nat) {
    && id < |s.fates| && s.fates[id].Kept? && s.fates[id].slot < |s.table|
    && s.table[s.fates[id].slot].blockSize == BlockSizeOf(bucket)
  }

  ghost predicate Served(s: State) {
    forall c | 0 <= c < |s.calls| ::
      && (s.calls[c].phase.Done? ==> Serves(s, s.calls[c].bucket, s.calls[c].phase.result))
      && (s.calls[c].phase.Losing? ==> Serves(s, s.calls[c].bucket, s.calls[c].phase.winner))
  }

  ghost predicate Table(s: State) {
    |s.table| <= MAX_ALLOCATORS && forall i | 0 <= i < |s.table| :: s.table[i].blockSize >= MIN_BLOCK
  }

  ghost predicate Inv(s: State) {
    Accounted(s) && Table(s) && Served(s)
  }

  lemma InsertAccounted(s: State, c: nat)
    requires Accounted(s) && c < |s.calls| && s.calls[c].phase.Created?
    ensures Accounted(InsertRegion(s, c, s.calls[c].phase.mine))
  {
    assert Holding(s.calls[c]);
  }

  lemma InsertServed(s: State, c: nat)
    requires Accounted(s) && Table(s) && Served(s) && c < |s.calls| && s.calls[c].phase.Created?
    ensures Served(InsertRegion(s, c, s.calls[c].phase.mine))
  {
    assert Holding(s.calls[c]);
    var t := InsertRegion(s, c, s.calls[c].phase.mine);
    assert forall d, id | 0 <= d < |s.calls| && Serves(s, s.calls[d].bucket, id) :: Serves(t, s.calls[d].bucket, id);
  }

  lemma DiscardKeepsInv(s: State, c: nat)
    requires Inv(s) && c < |s.calls| && s.calls[c].phase.Losing?
    ensures Inv(Next(s, Discard(c)))
  {
    assert Holding(s.calls[c]);
  }

  lemma CreateKeepsInv(s: State, c: nat)
    requires Inv(s) && c < |s.calls| && s.calls[c].phase.Missing?
    ensures Inv(Next(s, Create(c)))
  {
  }

  lemma AskKeepsInv(s: State, bucket: nat)
    requires Inv(s)
    ensures Inv(Next(s, Ask(bucket)))
  {
  }

  lemma LookKeepsInv(s: State, c: nat)
    requires Inv(s) && c < |s.calls| && s.calls[c].phase.Looking?
    ensures Inv(LookRegion(s, c))
  {
  }

  lemma NextKeepsInv(s: State, step: Step)
    requires Inv(s)
    ensures Inv(Next(s, step))
  {
    match step
    case Insert(c) =>
      if c < |s.calls| && s.calls[c].phase.Created? {
        InsertAccounted(s, c);
        InsertServed(s, c);
      }
    case Ask(bucket) => AskKeepsInv(s, bucket);
    case Look(c) =>
      if c < |s.calls| && s.calls[c].phase.Looking? { LookKeepsInv(s, c); }
    case Create(c) =>
      if c < |s.calls| && s.calls[c].phase.Missing? { CreateKeepsInv(s, c); }
    case Discard(c) =>
      if c < |s.calls| && s.calls[c].phase.Losing? { DiscardKeepsInv(s, c); }
  }

  lemma {:induction false} ExecKeepsInv(s: State, steps: seq<Step>)
    requires Inv(s)
    ensures Inv(Exec(s, steps))
    decreases |steps|
  {
    if steps != [] {
      NextKeepsInv(s, steps[0]);
      ExecKeepsInv(Next(s, steps[0]), steps[1..]);
    }
  }

  /** In every interleaving each allocator made is in the table, or with the one thread
      that made it, or deleted, and never two of these; the table never holds more than
      MAX_ALLOCATORS; and every result is an allocator in the table whose blocks have the
      size asked for, so it is never one that was deleted. */
  lemma NothingLost(steps: seq<Step>, c: nat)
    requires c < |Exec(INIT, steps).calls|
    ensures var s := Exec(INIT, steps);
            && Accounted(s) && |s.table| <= MAX_ALLOCATORS
            && (s.calls[c].phase.Done? ==> Serves(s, s.calls[c].bucket, s.calls[c].phase.result))
  {
    ExecKeepsInv(INIT, steps);
  }

  // ---------------------------------------------------------------- one allocator per size

  ghost predicate SizesDistinct(table: seq<Entry>) {
    forall i, j | 0 <= i < j < |table| :: table[i].blockSize != table[j].blockSize
  }

  ghost predicate Sound(step: Step) {
    step.Ask? ==> BlockSizeOf(step.bucket) == step.bucket
  }

  ghost predicate SoundCalls(s: State) {
    forall c | 0 <= c < |s.calls| :: BlockSizeOf(s.calls[c].bucket) == s.calls[c].bucket
  }

  lemma {:induction false} ExecKeepsSizesDistinct(s: State, steps: seq<Step>)
    requires SizesDistinct(s.table) && SoundCalls(s)
    requires forall k | 0 <= k < |steps| :: Sound(steps[k])
    ensures SizesDistinct(Exec(s, steps).table) && SoundCalls(Exec(s, steps))
    decreases |steps|
  {
    if steps != [] {
      assert Sound(steps[0]);
      forall k | 0 <= k < |steps[1..]| ensures Sound(steps[1..][k]) { assert Sound(steps[k + 1]); }
      ExecKeepsSizesDistinct(Next(s, steps[0]), steps[1..]);
    }
  }

  /** In every interleaving of requests that fit, the table never holds two allocators for
      one block size, and all calls for one bucket get one and the same allocator. */
  lemma OnePerSize(steps: seq<Step>, c: nat, d: nat)
    requires forall k | 0 <= k < |steps| :: Sound(steps[k])
    requires var s := Exec(INIT, steps); c < |s.calls| && d < |s.calls| && s.calls[c].phase.Done? && s.calls[d].phase.Done?
    ensures var s := Exec(INIT, steps);
            && SizesDistinct(s.table)
            && (s.calls[c].bucket == s.calls[d].bucket <==> s.calls[c].phase.result == s.calls[d].phase.result)
  {
    var s := Exec(INIT, steps);
    ExecKeepsInv(INIT, steps);
    ExecKeepsSizesDistinct(INIT, steps);
    var i, j := s.fates[s.calls[c].phase.result].slot, s.fates[s.calls[d].phase.result].slot;
    assert s.table[i].id == s.calls[c].phase.result && s.table[j].id == s.calls[d].phase.result;
    if s.calls[c].bucket == s.calls[d].bucket && i != j {
      assert false;
    }
  }

  /** Buckets of requests that fit are sound. */
  lemma FittingIsSound(size: nat, safeguards: bool)
    requires Fits(size, safeguards)
    ensures Sound(Ask(Bucket(Request(size, safeguards))))
  {
    BlockOfFitting(size, safeguards);
  }

  /** Soundness is exactly what the re-check needs: the allocator just inserted for a
      bucket is found again if and only if its block size is the bucket's. */
  lemma FoundAgainIff(table: seq<Entry>, id: nat, bucket: nat)
    requires FindIn(table, bucket) == |table|
    ensures var longer := table + [Entry(id, BlockSizeOf(bucket))];
            FindIn(longer, bucket) < |longer| <==> BlockSizeOf(bucket) == bucket
  {
    var longer := table + [Entry(id, BlockSizeOf(bucket))];
    assert longer[|table|].blockSize == BlockSizeOf(bucket);
    assert forall j | 0 <= j < |table| :: longer[j] == table[j];
  }

  /** A request has an unsound bucket if and only if, with its overhead, it passes 2^63
      but not 2^64 + 4: beyond that the sum wraps to a size that has a bucket again. */
  lemma SoundIff(size: nat, safeguards: bool)
    requires size < WORD
    ensures Sound(Ask(Bucket(Request(size, safeguards)))) <==> !(TOP_POWER < size + Overhead(safeguards) <= WORD + 4)
  {
    var k, sum := Request(size, safeguards), size + Overhead(safeguards);
    assert k == if sum < WORD then sum else sum - WORD;
    if 1 <= k <= TOP_POWER {
      assert TwoTo(2) == 4;
      BucketIsLeast(k, 2);
      var n: nat :| n <= 63 && Bucket(k) == TwoTo(n);
      if k > 4 && n < 3 { PowGrows(n, 3); }
      if n > 3 { PowGrows(3, n); }
      assert TwoTo(3) == 8;
    }
  }

  /** So a request whose bucket is below a pointer's size puts one more allocator of the
      same size in the table, every time, until the table is full. */
  lemma OversizeAgain(s: State, bucket: nat)
    requires bucket < MIN_BLOCK && Inv(s) && |s.table| < MAX_ALLOCATORS
    ensures var c := |s.calls|; var t := Exec(s, [Ask(bucket), Look(c), Create(c), Insert(c)]);
            t.table == s.table + [Entry(|s.fates|, MIN_BLOCK)]
  {
    var c := |s.calls|;
    var asked := Next(s, Ask(bucket));
    var looked := Next(asked, Look(c));
    var created := Next(looked, Create(c));
    Steps(s, Ask(bucket), [Look(c), Create(c), Insert(c)]);
    Steps(asked, Look(c), [Create(c), Insert(c)]);
    Steps(looked, Create(c), [Insert(c)]);
    Steps(created, Insert(c), []);
  }

  /** Every call ends, with an allocator or, exactly if the table is full and has none of its
      size, in the fault handler: its own next steps lead there from every reachable state. A
      call that finds an allocator makes none. */
  lemma {:induction false} CallEnds(s: State, c: nat)
    requires Inv(s) && c < |s.calls|
    ensures var t := Exec(s, [Look(c), Create(c), Insert(c), Discard(c)]);
            var phase := s.calls[c].phase;
            && c < |t.calls| && t.calls[c].bucket == s.calls[c].bucket && (t.calls[c].phase.Done? || t.calls[c].phase.Failed?)
            && (!phase.Done? && !phase.Failed? && !phase.Losing? ==>
                  (t.calls[c].phase.Failed? <==>
                     FindIn(s.table, s.calls[c].bucket) == |s.table| && |s.table| == MAX_ALLOCATORS))
            && (phase.Looking? && FindIn(s.table, s.calls[c].bucket) < |s.table| ==>
                  t.calls[c].phase == Done(s.table[FindIn(s.table, s.calls[c].bucket)].id)
                  && t.table == s.table && t.fates == s.fates)
  {
    var looked := Next(s, Look(c));
    var created := Next(looked, Create(c));
    var inserted := Next(created, Insert(c));
    Steps(s, Look(c), [Create(c), Insert(c), Discard(c)]);
    Steps(looked, Create(c), [Insert(c), Discard(c)]);
    Steps(created, Insert(c), [Discard(c)]);
    Steps(inserted, Discard(c), []);
  }

  lemma Steps(s: State, first: Step, rest: seq<Step>)
    ensures Exec(s, [first] + rest) == Exec(Next(s, first), rest)
  {
    assert ([first] + rest)[1..] == rest;
  }
}
