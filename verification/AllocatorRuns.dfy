/** Every run of one allocator: any number of threads calling Allocate, Deallocate and the
    two paths of xmalloc, in any interleaving, and writing what they like into the blocks
    they hold. Each step is one region under the lock, one heap allocation, or one write. */
module AllocatorRuns {
  import opened Common
  import opened Allocators
  import XAllocators
  import XHeaps

  // `live` holds the blocks handed out and not given back; `pending` those of them that
  // xmalloc has from the heap but has not yet accounted for; `free` the blocks given back
  // and not handed out again, the last one first.
  datatype State = State(mem: Cells, fields: Fields, free: seq<nat>, live: set<nat>, pending: set<nat>)

  datatype Step =
    | Allocate(fromHeap: nat)
    | TakeFree                                       // xmalloc's fast path
    | Obtain(fromHeap: nat)                          // xmalloc's slow path, outside the lock
    | Account(block: nat)                            // and its accounting, under the lock
    | Deallocate(block: nat)
    | Write(block: nat, offset: nat, value: nat)

  const INIT := State(map[], EMPTY, [], {}, {})

  predicate Apart(size: nat, a: nat, b: nat) {
    a + size <= b || b + size <= a
  }

  // What the heap guarantees of what it returns: it overlaps no block it has given out.
  predicate FromHeap(size: nat, free: seq<nat>, live: set<nat>, a: nat) {
    && a != NULL
    && (forall b | b in live :: Apart(size, a, b))
    && (forall i | 0 <= i < |free| :: Apart(size, a, free[i]))
  }

  predicate HeapGives(cfg: Config, s: State, a: nat) {
    cfg.maxObjects == 0 && FromHeap(cfg.BlockSize(), s.free, s.live, a)
  }

  function HandOut(s: State, fields: Fields, block: nat): State {
    if block == NULL then s.(fields := fields)
    else s.(fields := fields, live := s.live + {block},
            free := if s.fields.head != NULL && s.free != [] then s.free[1..] else s.free)
  }

  // Only blocks in use are written to or given back.
  function Next(cfg: Config, s: State, step: Step): State {
    match step
    case Allocate(a) =>
      if cfg.maxObjects == 0 && !HeapGives(cfg, s, a) then s
      else
        var (fields, block) := AllocateRegion(cfg, s.mem, s.fields, a);
        HandOut(s, fields, block)
    case TakeFree =>
      var (fields, block) := PopRegion(s.mem, s.fields);
      if block == NULL then s else HandOut(s, AccountRegion(fields, false), block)
    case Obtain(a) =>
      if HeapGives(cfg, s, a) then s.(live := s.live + {a}, pending := s.pending + {a}) else s
    case Account(block) =>
      if block in s.pending then s.(pending := s.pending - {block}, fields := AccountRegion(s.fields, true)) else s
    case Deallocate(block) =>
      if block in s.live && block !in s.pending then
        var (mem, fields) := DeallocateRegion(s.mem, s.fields, block);
        s.(mem := mem, fields := fields, live := s.live - {block}, free := [block] + s.free)
      else s
    case Write(block, offset, value) =>
      if block in s.live && offset < cfg.BlockSize() then s.(mem := s.mem[block + offset := Data(value)]) else s
  }

  function Exec(cfg: Config, s: State, steps: seq<Step>): State
    decreases |steps|
  {
    if steps == [] then s else Exec(cfg, Next(cfg, s, steps[0]), steps[1..])
  }

  // ---------------------------------------------------------------- the invariant, part by part

  function NextOf(free: seq<nat>, i: nat): nat {
    if i + 1 < |free| then free[i + 1] else NULL
  }

  // The links in memory, followed from the head, are exactly the free list.
  ghost predicate Chained(mem: Cells, head: nat, free: seq<nat>) {
    && head == (if free == [] then NULL else free[0])
    && forall i {:trigger NextOf(free, i)} | 0 <= i < |free| :: free[i] != NULL && HoldsLink(mem, free[i], NextOf(free, i))
  }

  ghost predicate IsBlock(free: seq<nat>, live: set<nat>, a: nat) {
    a in live || a in free
  }

  // No block is both free and in use, or free twice, and no two blocks share a byte.
  ghost predicate Separate(size: nat, free: seq<nat>, live: set<nat>) {
    && Distinct(free)
    && (forall a | a in free :: a !in live)
    && (forall a | IsBlock(free, live, a) :: a != NULL)
    && (forall a, b | IsBlock(free, live, a) && IsBlock(free, live, b) && a != b :: Apart(size, a, b))
  }

  // `created` is how many blocks there are. The counters wrap.
  ghost predicate Counted(heap: bool, f: Fields, inUse: int, created: int) {
    && f.blocksInUse == inUse % COUNTER_LIMIT
    && f.blocksInUse == (f.allocations - f.deallocations) % COUNTER_LIMIT
    && f.blockCnt == (if heap then created % COUNTER_LIMIT else 0)
  }

  ghost predicate InPool(cfg: Config, index: nat, a: nat) {
    exists i: nat | i < index :: a == cfg.BlockAt(i)
  }

  ghost predicate Pooled(cfg: Config, index: nat, free: seq<nat>, live: set<nat>) {
    && index == |live| + |free| <= cfg.maxObjects
    && forall a | IsBlock(free, live, a) :: InPool(cfg, index, a)
  }

  ghost predicate Inv(cfg: Config, s: State) {
    && Chained(s.mem, s.fields.head, s.free)
    && Separate(cfg.BlockSize(), s.free, s.live)
    && s.pending <= s.live
    && Counted(cfg.maxObjects == 0, s.fields, |s.live| - |s.pending|, |s.live| + |s.free| - |s.pending|)
    && (cfg.maxObjects != 0 ==> Pooled(cfg, s.fields.poolIndex, s.free, s.live) && s.pending == {})
  }

  // ---------------------------------------------------------------- the free list in memory

  lemma ChainFrame(mem: Cells, after: Cells, head: nat, free: seq<nat>, size: nat, block: nat)
    requires Chained(mem, head, free) && size >= POINTER_SIZE
    requires forall i | 0 <= i < |free| :: Apart(size, free[i], block)
    requires forall x | x < block || x >= block + size :: (x in after <==> x in mem) && (x in mem ==> after[x] == mem[x])
    ensures Chained(after, head, free)
  {
    forall i | 0 <= i < |free| ensures HoldsLink(after, free[i], NextOf(free, i)) {
      assert HoldsLink(mem, free[i], NextOf(free, i)) && Apart(size, free[i], block);
    }
  }

  lemma PushChains(mem: Cells, f: Fields, free: seq<nat>, size: nat, block: nat)
    requires Chained(mem, f.head, free) && size >= POINTER_SIZE && block != NULL
    requires forall i | 0 <= i < |free| :: Apart(size, free[i], block)
    ensures var (after, pushed) := PushRegion(mem, f, block); Chained(after, pushed.head, [block] + free)
  {
    var (after, pushed) := PushRegion(mem, f, block);
    ChainFrame(mem, after, f.head, free, size, block);
    var now := [block] + free;
    forall i | 0 <= i < |now| ensures now[i] != NULL && HoldsLink(after, now[i], NextOf(now, i)) {
      if i > 0 {
        assert HoldsLink(after, free[i - 1], NextOf(free, i - 1));
      }
    }
  }

  lemma PopTakesFirst(mem: Cells, f: Fields, free: seq<nat>)
    requires Chained(mem, f.head, free)
    ensures var (popped, block) := PopRegion(mem, f);
            && (block == NULL <==> free == [])
            && (free != [] ==> block == free[0] && Chained(mem, popped.head, free[1..]))
            && popped == f.(head := popped.head)
  {
    if free != [] {
      var rest := free[1..];
      assert HoldsLink(mem, free[0], NextOf(free, 0));
      forall i | 0 <= i < |rest| ensures rest[i] != NULL && HoldsLink(mem, rest[i], NextOf(rest, i)) {
        assert HoldsLink(mem, free[i + 1], NextOf(free, i + 1));
      }
    }
  }

  // ---------------------------------------------------------------- blocks stay apart

  lemma {:induction false} TakeSeparate(size: nat, free: seq<nat>, live: set<nat>)
    requires Separate(size, free, live) && free != []
    ensures Separate(size, free[1..], live + {free[0]}) && free[0] !in live
    ensures forall a :: IsBlock(free[1..], live + {free[0]}, a) <==> IsBlock(free, live, a)
  {
    var rest, all := free[1..], live + {free[0]};
    assert free[0] in free && free == [free[0]] + rest;
    assert forall a :: IsBlock(rest, all, a) <==> IsBlock(free, live, a);
    forall a | a in rest ensures a !in all {
      var i :| 0 <= i < |rest| && rest[i] == a;
      assert free[i + 1] == a && free[0] != free[i + 1];
    }
  }

  lemma {:induction false} NewSeparate(size: nat, free: seq<nat>, live: set<nat>, a: nat)
    requires Separate(size, free, live) && FromHeap(size, free, live, a) && size > 0
    ensures Separate(size, free, live + {a}) && a !in live
  {
    assert a !in live && a !in free;
    assert forall b :: IsBlock(free, live + {a}, b) <==> IsBlock(free, live, b) || b == a;
  }

  lemma {:induction false} GiveBackSeparate(size: nat, free: seq<nat>, live: set<nat>, block: nat)
    requires Separate(size, free, live) && block in live
    ensures Separate(size, [block] + free, live - {block})
    ensures forall a :: IsBlock([block] + free, live - {block}, a) <==> IsBlock(free, live, a)
  {
    assert forall a :: IsBlock([block] + free, live - {block}, a) <==> IsBlock(free, live, a);
  }

  lemma FreeApart(size: nat, free: seq<nat>, live: set<nat>, block: nat)
    requires Separate(size, free, live) && block in live
    ensures block != NULL
    ensures forall i | 0 <= i < |free| :: Apart(size, free[i], block)
  {
    assert IsBlock(free, live, block);
    forall i | 0 <= i < |free| ensures Apart(size, free[i], block) {
      assert free[i] in free && IsBlock(free, live, free[i]);
    }
  }

  // The next pool block has not been handed out: it lies behind all that have.
  lemma {:induction false} PoolBlockIsNew(cfg: Config, index: nat, free: seq<nat>, live: set<nat>)
    requires cfg.Valid() && cfg.maxObjects != 0 && Pooled(cfg, index, free, live)
    ensures FromHeap(cfg.BlockSize(), free, live, cfg.BlockAt(index))
  {
    forall b | IsBlock(free, live, b) ensures Apart(cfg.BlockSize(), cfg.BlockAt(index), b) {
      EarlierApart(cfg, index, b);
    }
    assert forall b | b in live :: IsBlock(free, live, b);
    assert forall i | 0 <= i < |free| :: free[i] in free && IsBlock(free, live, free[i]);
  }

  lemma EarlierApart(cfg: Config, index: nat, b: nat)
    requires InPool(cfg, index, b)
    ensures Apart(cfg.BlockSize(), cfg.BlockAt(index), b)
  {
    var i: nat :| i < index && b == cfg.BlockAt(i);
    InOrder(i, index, cfg.BlockSize());
  }

  lemma InOrder(i: nat, j: nat, size: nat)
    requires i < j
    ensures i * size + size <= j * size
  {
    assert i * size + size == (i + 1) * size;
  }

  lemma PoolGrows(cfg: Config, index: nat, free: seq<nat>, live: set<nat>)
    requires Pooled(cfg, index, free, live) && index < cfg.maxObjects && cfg.BlockAt(index) !in live
    ensures Pooled(cfg, index + 1, free, live + {cfg.BlockAt(index)})
  {
    forall a | IsBlock(free, live + {cfg.BlockAt(index)}, a) ensures InPool(cfg, index + 1, a) {
      if a != cfg.BlockAt(index) {
        assert IsBlock(free, live, a) && InPool(cfg, index, a);
      }
    }
  }

  lemma {:induction false} StillPooled(cfg: Config, index: nat, free: seq<nat>, live: set<nat>, free': seq<nat>, live': set<nat>)
    requires |live| + |free| == |live'| + |free'|
    requires forall a :: IsBlock(free', live', a) <==> IsBlock(free, live, a)
    ensures Pooled(cfg, index, free, live) ==> Pooled(cfg, index, free', live')
  {
  }

  // ---------------------------------------------------------------- steps keep the invariant

  lemma CounterUp(a: int, b: nat)
    requires b == a % COUNTER_LIMIT
    ensures Up(b) == (a + 1) % COUNTER_LIMIT
  {
  }

  lemma CounterDown(a: int, b: nat)
    requires b == a % COUNTER_LIMIT
    ensures Down(b) == (a - 1) % COUNTER_LIMIT
  {
  }

  lemma Wraps(x: int, q: int)
    ensures (x + q * COUNTER_LIMIT) % COUNTER_LIMIT == x % COUNTER_LIMIT
  {
  }

  // A difference does not change when one of its terms wraps.
  lemma CounterDiff(a: nat, b: nat)
    ensures (Up(a) - b) % COUNTER_LIMIT == (a + 1 - b) % COUNTER_LIMIT
    ensures (a - Up(b)) % COUNTER_LIMIT == (a - b - 1) % COUNTER_LIMIT
  {
    var p, q := (a + 1) / COUNTER_LIMIT, (b + 1) / COUNTER_LIMIT;
    assert a + 1 == p * COUNTER_LIMIT + Up(a) && b + 1 == q * COUNTER_LIMIT + Up(b);
    Wraps(Up(a) - b, p);
    Wraps(a - Up(b), -q);
  }

  lemma {:induction false} CountOut(heap: bool, f: Fields, inUse: int, created: int, newBlock: bool)
    requires Counted(heap, f, inUse, created) && (newBlock ==> heap)
    ensures Counted(heap, AccountRegion(f, newBlock), inUse + 1, if newBlock then created + 1 else created)
  {
    CounterUp(inUse, f.blocksInUse);
    CounterUp(f.allocations - f.deallocations, f.blocksInUse);
    CounterDiff(f.allocations, f.deallocations);
    if newBlock { CounterUp(created, f.blockCnt); }
  }

  lemma {:induction false} CountIn(heap: bool, f: Fields, inUse: int, created: int)
    requires Counted(heap, f, inUse, created)
    ensures Counted(heap, f.(blocksInUse := Down(f.blocksInUse), deallocations := Up(f.deallocations)), inUse - 1, created)
  {
    CounterDown(inUse, f.blocksInUse);
    CounterDown(f.allocations - f.deallocations, f.blocksInUse);
    CounterDiff(f.allocations, f.deallocations);
  }

  lemma {:induction false} HandOutFree(cfg: Config, s: State)
    requires Inv(cfg, s) && s.free != []
    ensures var (fields, block) := PopRegion(s.mem, s.fields);
            block == s.free[0] && Inv(cfg, HandOut(s, AccountRegion(fields, false), block))
  {
    var (fields, block) := PopRegion(s.mem, s.fields);
    PopTakesFirst(s.mem, s.fields, s.free);
    TakeSeparate(cfg.BlockSize(), s.free, s.live);
    var inUse, created := |s.live| - |s.pending|, |s.live| + |s.free| - |s.pending|;
    CountOut(cfg.maxObjects == 0, fields, inUse, created, false);
    var t := HandOut(s, AccountRegion(fields, false), block);
    assert t.free == s.free[1..] && t.live == s.live + {block} && t.pending == s.pending;
    TakeCounts(s.free, s.live);
    StillPooled(cfg, s.fields.poolIndex, s.free, s.live, t.free, t.live);
  }

  lemma TakeCounts(free: seq<nat>, live: set<nat>)
    requires free != [] && free[0] !in live
    ensures |live + {free[0]}| == |live| + 1 && |live + {free[0]}| + |free[1..]| == |live| + |free|
  {
  }

  lemma {:induction false} HandOutNew(cfg: Config, s: State, a: nat)
    requires Inv(cfg, s) && s.free == [] && HeapGives(cfg, s, a)
    ensures Inv(cfg, HandOut(s, AccountRegion(s.fields, true), a))
  {
    NewSeparate(cfg.BlockSize(), s.free, s.live, a);
    CountOut(true, s.fields, |s.live| - |s.pending|, |s.live| + |s.free| - |s.pending|, true);
  }

  lemma {:induction false} HandOutPooled(cfg: Config, s: State)
    requires cfg.Valid() && Inv(cfg, s) && s.free == [] && cfg.maxObjects != 0 && s.fields.poolIndex < cfg.maxObjects
    ensures Inv(cfg, HandOut(s, AccountRegion(s.fields.(poolIndex := s.fields.poolIndex + 1), false),
        cfg.BlockAt(s.fields.poolIndex)))
  {
    var a := cfg.BlockAt(s.fields.poolIndex);
    PoolBlockIsNew(cfg, s.fields.poolIndex, s.free, s.live);
    NewSeparate(cfg.BlockSize(), s.free, s.live, a);
    PoolGrows(cfg, s.fields.poolIndex, s.free, s.live);
    CountOut(false, s.fields, |s.live| - |s.pending|, |s.live| + |s.free| - |s.pending|, false);
  }

  lemma {:induction false} AllocateKeepsInv(cfg: Config, s: State, fromHeap: nat)
    requires cfg.Valid() && Inv(cfg, s)
    ensures Inv(cfg, Next(cfg, s, Allocate(fromHeap)))
  {
    PopTakesFirst(s.mem, s.fields, s.free);
    if s.free != [] {
      HandOutFree(cfg, s);
    } else if cfg.maxObjects == 0 {
      if HeapGives(cfg, s, fromHeap) {
        HandOutNew(cfg, s, fromHeap);
      }
    } else if s.fields.poolIndex < cfg.maxObjects {
      HandOutPooled(cfg, s);
    }
  }

  lemma {:induction false} DeallocateKeepsInv(cfg: Config, s: State, block: nat)
    requires Inv(cfg, s) && block in s.live && block !in s.pending
    ensures Inv(cfg, Next(cfg, s, Deallocate(block)))
  {
    var size := cfg.BlockSize();
    FreeApart(size, s.free, s.live, block);
    PushChains(s.mem, s.fields, s.free, size, block);
    GiveBackSeparate(size, s.free, s.live, block);
    var inUse, created := |s.live| - |s.pending|, |s.live| + |s.free| - |s.pending|;
    CountIn(cfg.maxObjects == 0, s.fields.(head := block), inUse, created);
    var t := Next(cfg, s, Deallocate(block));
    assert t.free == [block] + s.free && t.live == s.live - {block} && t.pending == s.pending;
    assert |t.live| - |t.pending| == inUse - 1 && |t.live| + |t.free| - |t.pending| == created;
    StillPooled(cfg, s.fields.poolIndex, s.free, s.live, t.free, t.live);
  }

  lemma {:induction false} SlowPathKeepsInv(cfg: Config, s: State, a: nat)
    requires Inv(cfg, s)
    ensures Inv(cfg, Next(cfg, s, Obtain(a))) && Inv(cfg, Next(cfg, s, Account(a)))
  {
    var inUse, created := |s.live| - |s.pending|, |s.live| + |s.free| - |s.pending|;
    if HeapGives(cfg, s, a) {
      NewSeparate(cfg.BlockSize(), s.free, s.live, a);
      var t := Next(cfg, s, Obtain(a));
      assert |t.live| - |t.pending| == inUse && |t.live| + |t.free| - |t.pending| == created;
    }
    if a in s.pending {
      CountOut(cfg.maxObjects == 0, s.fields, inUse, created, true);
      var t := Next(cfg, s, Account(a));
      assert |t.live| - |t.pending| == inUse + 1 && |t.live| + |t.free| - |t.pending| == created + 1;
    }
  }

  lemma TakeFreeKeepsInv(cfg: Config, s: State)
    requires Inv(cfg, s)
    ensures Inv(cfg, Next(cfg, s, TakeFree))
  {
    PopTakesFirst(s.mem, s.fields, s.free);
    if s.free != [] {
      HandOutFree(cfg, s);
    }
  }

  lemma WriteKeepsInv(cfg: Config, s: State, block: nat, offset: nat, value: nat)
    requires Inv(cfg, s)
    ensures Inv(cfg, Next(cfg, s, Write(block, offset, value)))
  {
    if block in s.live && offset < cfg.BlockSize() {
      FreeApart(cfg.BlockSize(), s.free, s.live, block);
      ChainFrame(s.mem, s.mem[block + offset := Data(value)], s.fields.head, s.free, cfg.BlockSize(), block);
    }
  }

  lemma NextKeepsInv(cfg: Config, s: State, step: Step)
    requires cfg.Valid() && Inv(cfg, s)
    ensures Inv(cfg, Next(cfg, s, step))
  {
    match step
    case Allocate(a) => AllocateKeepsInv(cfg, s, a);
    case TakeFree => TakeFreeKeepsInv(cfg, s);
    case Obtain(a) => SlowPathKeepsInv(cfg, s, a);
    case Account(block) => SlowPathKeepsInv(cfg, s, block);
    case Deallocate(block) =>
      if block in s.live && block !in s.pending {
        DeallocateKeepsInv(cfg, s, block);
      } else {
        assert Next(cfg, s, step) == s;
      }
    case Write(block, offset, value) => WriteKeepsInv(cfg, s, block, offset, value);
  }

  lemma {:induction false} ExecKeepsInv(cfg: Config, s: State, steps: seq<Step>)
    requires cfg.Valid() && Inv(cfg, s)
    ensures Inv(cfg, Exec(cfg, s, steps))
    decreases |steps|
  {
    if steps != [] {
      NextKeepsInv(cfg, s, steps[0]);
      ExecKeepsInv(cfg, Next(cfg, s, steps[0]), steps[1..]);
    }
  }

  lemma InitInv(cfg: Config)
    ensures Inv(cfg, INIT)
  {
  }

  lemma {:induction false} ReachableInv(cfg: Config, steps: seq<Step>)
    requires cfg.Valid()
    ensures Inv(cfg, Exec(cfg, INIT, steps))
  {
    InitInv(cfg);
    ExecKeepsInv(cfg, INIT, steps);
  }

  // ---------------------------------------------------------------- what callers may rely on

  /** In every run no block is both free and in use, or free twice, and two blocks never
      share a byte. */
  lemma BlocksNeverOverlap(cfg: Config, steps: seq<Step>)
    requires cfg.Valid()
    ensures var s := Exec(cfg, INIT, steps); Separate(cfg.BlockSize(), s.free, s.live)
  {
    ReachableInv(cfg, steps);
  }

  /** In every run every block of a pool, free or in use, lies wholly in the memory of
      maxObjects blocks, each with room for an object and for a pointer and no larger. */
  lemma {:induction false} BlocksStayInPool(cfg: Config, steps: seq<Step>, a: nat)
    requires cfg.Valid() && cfg.maxObjects != 0
    requires var s := Exec(cfg, INIT, steps); IsBlock(s.free, s.live, a)
    ensures var size := if cfg.objectSize < 8 then 8 else cfg.objectSize;
            cfg.BlockSize() == size && cfg.pool <= a && a + size <= cfg.pool + cfg.maxObjects * size
            && exists i: nat :: i < cfg.maxObjects && a == cfg.pool + i * size
  {
    var s := Exec(cfg, INIT, steps);
    ReachableInv(cfg, steps);
    var i: nat :| i < s.fields.poolIndex && a == cfg.BlockAt(i);
    InOrder(i, cfg.maxObjects, cfg.BlockSize());
  }

  // The user's bytes of a block of xmalloc lie behind its header.
  predicate UserByte(block: nat, asked: nat, x: nat) {
    block + XAllocators.HEADER <= x < block + XAllocators.HEADER + asked
  }

  /** In every run of a bucket's allocator, a request that fits has all its bytes, and the
      canary behind them, in its own block: no byte of it is another live block's, nor in
      any part of a free one, where the free list is kept. */
  lemma {:induction false} UserBytesApart(cfg: Config, steps: seq<Step>, safeguards: bool, block: nat, asked: nat, x: nat)
    requires cfg.Valid() && XHeaps.Fits(asked, safeguards)
    requires cfg.BlockSize() == XHeaps.BlockSizeOf(XAllocators.Bucket(XHeaps.Request(asked, safeguards)))
    requires block in Exec(cfg, INIT, steps).live && UserByte(block, asked, x)
    ensures var s := Exec(cfg, INIT, steps);
            && XHeaps.HasRoom(cfg.BlockSize(), safeguards, asked)
            && OnlyIn(cfg.BlockSize(), s.free, s.live, safeguards, block, x)
  {
    ReachableInv(cfg, steps);
    HasItsRoom(cfg.BlockSize(), asked, safeguards);
    var s := Exec(cfg, INIT, steps);
    UserBytesIn(cfg.BlockSize(), s.free, s.live, safeguards, block, asked, x);
  }

  // The byte is in no other block's header, in no other request that has room in its block,
  // and in no free block.
  ghost predicate OnlyIn(size: nat, free: seq<nat>, live: set<nat>, safeguards: bool, block: nat, x: nat) {
    && (forall b, n | b in live && b != block && XHeaps.HasRoom(size, safeguards, n) ::
          !UserByte(b, n, x) && !(b <= x < b + XAllocators.HEADER))
    && (forall i | 0 <= i < |free| :: !(free[i] <= x < free[i] + size))
  }

  lemma HasItsRoom(size: nat, asked: nat, safeguards: bool)
    requires XHeaps.Fits(asked, safeguards)
    requires size == XHeaps.BlockSizeOf(XAllocators.Bucket(XHeaps.Request(asked, safeguards)))
    ensures XHeaps.HasRoom(size, safeguards, asked)
  {
    XHeaps.RoomIffFits(asked, safeguards);
  }

  lemma {:induction false} UserBytesIn(size: nat, free: seq<nat>, live: set<nat>, safeguards: bool,
      block: nat, asked: nat, x: nat)
    requires Separate(size, free, live) && block in live
    requires XHeaps.HasRoom(size, safeguards, asked) && UserByte(block, asked, x)
    ensures OnlyIn(size, free, live, safeguards, block, x)
  {
    UserByteInBlock(size, safeguards, block, asked, x);
    ByteApart(size, free, live, block, x);
    forall b, n | b in live && b != block && XHeaps.HasRoom(size, safeguards, n)
      ensures !UserByte(b, n, x) && !(b <= x < b + XAllocators.HEADER)
    {
      UserByteInBlock(size, safeguards, b, n, x);
    }
  }

  lemma UserByteInBlock(size: nat, safeguards: bool, block: nat, asked: nat, x: nat)
    requires XHeaps.HasRoom(size, safeguards, asked)
    ensures UserByte(block, asked, x) || block <= x < block + XAllocators.HEADER ==> block <= x < block + size
  {
  }

  lemma {:induction false} ByteApart(size: nat, free: seq<nat>, live: set<nat>, block: nat, x: nat)
    requires Separate(size, free, live) && block in live && block <= x < block + size
    ensures forall b | b in live && b != block :: !(b <= x < b + size)
    ensures forall i | 0 <= i < |free| :: !(free[i] <= x < free[i] + size)
  {
    FreeApart(size, free, live, block);
    forall b | b in live && b != block ensures !(b <= x < b + size) {
      assert IsBlock(free, live, b) && IsBlock(free, live, block) && Apart(size, block, b);
    }
  }

  ghost predicate SameBytes(mem: Cells, after: Cells, block: nat, size: nat) {
    forall x | block <= x < block + size :: (x in after <==> x in mem) && (x in mem ==> after[x] == mem[x])
  }

  // The block itself is written to, or given back.
  predicate Touches(step: Step, block: nat) {
    (step.Write? || step.Deallocate?) && step.block == block
  }

  lemma LeavesBytes(cfg: Config, s: State, step: Step, block: nat)
    requires Inv(cfg, s) && block in s.live && !Touches(step, block)
    ensures block in Next(cfg, s, step).live
    ensures SameBytes(s.mem, Next(cfg, s, step).mem, block, cfg.BlockSize())
  {
    if (step.Write? || step.Deallocate?) && step.block in s.live {
      assert IsBlock(s.free, s.live, block) && IsBlock(s.free, s.live, step.block);
      assert Apart(cfg.BlockSize(), step.block, block);
    }
  }

  /** Whatever all threads do in any order, the bytes of a block in use stay as they are as
      long as nobody writes to that block or gives it back: neither the links of the free
      list nor any other block's contents ever reach them. */
  lemma {:induction false} BytesKept(cfg: Config, s: State, steps: seq<Step>, block: nat)
    requires cfg.Valid() && Inv(cfg, s) && block in s.live
    requires forall i | 0 <= i < |steps| :: !Touches(steps[i], block)
    ensures var t := Exec(cfg, s, steps);
            block in t.live && SameBytes(s.mem, t.mem, block, cfg.BlockSize())
    decreases |steps|
  {
    if steps != [] {
      LeavesBytes(cfg, s, steps[0], block);
      NextKeepsInv(cfg, s, steps[0]);
      BytesKept(cfg, Next(cfg, s, steps[0]), steps[1..], block);
    }
  }

  // Copying: byte by byte, what the source block holds goes to the target.
  function Copying(target: nat, bytes: seq<nat>, from: nat): seq<Step>
    requires from <= |bytes|
    decreases |bytes| - from
  {
    if from == |bytes| then [] else [Write(target, from, bytes[from])] + Copying(target, bytes, from + 1)
  }

  // The block's bytes from its start on are these.
  ghost predicate Holds(mem: Cells, block: nat, bytes: seq<nat>, upTo: nat)
    requires upTo <= |bytes|
  {
    forall x | block <= x < block + upTo :: x in mem && mem[x] == Data(bytes[x - block])
  }

  lemma {:induction false} CopyingCopies(cfg: Config, s: State, target: nat, bytes: seq<nat>, from: nat)
    requires cfg.Valid() && Inv(cfg, s) && target in s.live && |bytes| <= cfg.BlockSize()
    requires from <= |bytes| && Holds(s.mem, target, bytes, from)
    ensures var t := Exec(cfg, s, Copying(target, bytes, from));
            && Inv(cfg, t) && t.live == s.live && t.pending == s.pending && Holds(t.mem, target, bytes, |bytes|)
            && forall b | b in s.live && b != target :: SameBytes(s.mem, t.mem, b, cfg.BlockSize())
    decreases |bytes| - from
  {
    if from < |bytes| {
      var step := Write(target, from, bytes[from]);
      var next := Next(cfg, s, step);
      assert ([step] + Copying(target, bytes, from + 1))[1..] == Copying(target, bytes, from + 1);
      NextKeepsInv(cfg, s, step);
      assert next.mem == s.mem[target + from := Data(bytes[from])];
      forall b | b in s.live && b != target ensures SameBytes(s.mem, next.mem, b, cfg.BlockSize()) {
        LeavesBytes(cfg, s, step, b);
      }
      CopyingCopies(cfg, next, target, bytes, from + 1);
      forall b | b in s.live && b != target
        ensures SameBytes(s.mem, Exec(cfg, s, Copying(target, bytes, from)).mem, b, cfg.BlockSize())
      {
        SameBytesTwice(s.mem, next.mem, Exec(cfg, next, Copying(target, bytes, from + 1)).mem, b, cfg.BlockSize());
      }
    }
  }

  /** What xrealloc does when old and new block are of one bucket, over the memory they
      share: the bytes copied are the new block's, and every third block keeps its own. */
  lemma ReallocKeepsBytes(cfg: Config, s: State, block: nat, target: nat, bytes: seq<nat>)
    requires cfg.Valid() && Inv(cfg, s) && block in s.live && block !in s.pending && target in s.live && block != target
    requires |bytes| <= cfg.BlockSize() && Holds(s.mem, block, bytes, |bytes|)
    ensures var t := Next(cfg, Exec(cfg, s, Copying(target, bytes, 0)), Deallocate(block));
            && t.live == s.live - {block} && Holds(t.mem, target, bytes, |bytes|)
            && forall b | b in t.live && b != target :: SameBytes(s.mem, t.mem, b, cfg.BlockSize())
  {
    var copied := Exec(cfg, s, Copying(target, bytes, 0));
    CopyingCopies(cfg, s, target, bytes, 0);
    var t := Next(cfg, copied, Deallocate(block));
    assert t.live == copied.live - {block};
    LeavesBytes(cfg, copied, Deallocate(block), target);
    HoldsStill(copied.mem, t.mem, target, bytes, cfg.BlockSize());
    forall b | b in t.live && b != target ensures SameBytes(s.mem, t.mem, b, cfg.BlockSize()) {
      LeavesBytes(cfg, copied, Deallocate(block), b);
      SameBytesTwice(s.mem, copied.mem, t.mem, b, cfg.BlockSize());
    }
  }

  lemma HoldsStill(mem: Cells, after: Cells, block: nat, bytes: seq<nat>, size: nat)
    requires |bytes| <= size && Holds(mem, block, bytes, |bytes|) && SameBytes(mem, after, block, size)
    ensures Holds(after, block, bytes, |bytes|)
  {
  }

  lemma SameBytesTwice(a: Cells, b: Cells, c: Cells, block: nat, size: nat)
    requires SameBytes(a, b, block, size) && SameBytes(b, c, block, size)
    ensures SameBytes(a, c, block, size)
  {
  }

  /** The counters, at every point of every run: blocks in use are allocations less
      deallocations, all three modulo 2^32; in-use plus free blocks are the blocks created
      (heap mode, once xmalloc's slow path has accounted for them) or the pool index, which
      never passes the maximum (pool modes). */
  lemma {:induction false} BlocksAreCounted(cfg: Config, steps: seq<Step>)
    requires cfg.Valid()
    ensures var s := Exec(cfg, INIT, steps);
            && Counted(cfg.maxObjects == 0, s.fields, |s.live| - |s.pending|, |s.live| + |s.free| - |s.pending|)
            && (cfg.maxObjects != 0 ==> |s.live| + |s.free| == s.fields.poolIndex <= cfg.maxObjects)
  {
    ReachableInv(cfg, steps);
    InvCounts(cfg, Exec(cfg, INIT, steps));
  }

  lemma InvCounts(cfg: Config, s: State)
    requires Inv(cfg, s)
    ensures Counted(cfg.maxObjects == 0, s.fields, |s.live| - |s.pending|, |s.live| + |s.free| - |s.pending|)
    ensures cfg.maxObjects != 0 ==> |s.live| + |s.free| == s.fields.poolIndex <= cfg.maxObjects
  {
  }

  /** After every run, Allocate hands out the block given back last, if any is free, and
      otherwise one that overlaps no other; in the pool modes it fails exactly when all
      maxObjects blocks are in use. */
  lemma AllocateHandsOut(cfg: Config, steps: seq<Step>, fromHeap: nat)
    requires cfg.Valid() && (cfg.maxObjects == 0 ==> HeapGives(cfg, Exec(cfg, INIT, steps), fromHeap))
    ensures var s := Exec(cfg, INIT, steps);
            var (_, block) := AllocateRegion(cfg, s.mem, s.fields, fromHeap);
            && (block == NULL <==> cfg.maxObjects != 0 && |s.live| == cfg.maxObjects)
            && (s.free != [] ==> block == s.free[0])
            && block !in s.live
            && (block != NULL ==> forall b | b in s.live :: Apart(cfg.BlockSize(), block, b))
  {
    var s := Exec(cfg, INIT, steps);
    ReachableInv(cfg, steps);
    PopTakesFirst(s.mem, s.fields, s.free);
    if s.free != [] {
      FirstApart(cfg.BlockSize(), s.free, s.live);
      if cfg.maxObjects != 0 {
        assert |s.live| < |s.live| + |s.free| <= cfg.maxObjects;
      }
    } else if cfg.maxObjects != 0 {
      PoolBlockIsNew(cfg, s.fields.poolIndex, s.free, s.live);
      NewSeparate(cfg.BlockSize(), s.free, s.live, cfg.BlockAt(s.fields.poolIndex));
    } else {
      NewSeparate(cfg.BlockSize(), s.free, s.live, fromHeap);
    }
    assert forall b | b in s.live :: IsBlock(s.free, s.live, b);
  }

  /** The two paths of xmalloc and the release, after every run: the fast path hands out the
      block given back last, the slow path what the heap gives, accounted for later; and a
      block given back is the next to be handed out. */
  lemma {:induction false} XMallocPaths(cfg: Config, steps: seq<Step>, a: nat)
    requires cfg.Valid()
    ensures var s := Exec(cfg, INIT, steps);
            && (s.free != [] ==>
                  var t := Next(cfg, s, TakeFree);
                  t.live == s.live + {s.free[0]} && t.free == s.free[1..] && t.pending == s.pending
                  && t.fields.allocations == Up(s.fields.allocations))
            && (s.free == [] ==> Next(cfg, s, TakeFree) == s)
            && (HeapGives(cfg, s, a) ==>
                  var t := Next(cfg, Next(cfg, s, Obtain(a)), Account(a));
                  t.live == s.live + {a} && t.free == s.free && t.pending == s.pending - {a}
                  && t.fields.allocations == Up(s.fields.allocations) && t.fields.blockCnt == Up(s.fields.blockCnt))
            && (a in s.live && a !in s.pending ==>
                  var t := Next(cfg, s, Deallocate(a));
                  t.live == s.live - {a} && t.free == [a] + s.free
                  && t.fields.deallocations == Up(s.fields.deallocations))
  {
    var s := Exec(cfg, INIT, steps);
    ReachableInv(cfg, steps);
    FastPath(cfg, s);
    if HeapGives(cfg, s, a) {
      SlowPath(cfg, s, a);
    }
  }

  lemma {:induction false} FastPath(cfg: Config, s: State)
    requires Inv(cfg, s)
    ensures s.free != [] ==>
              var t := Next(cfg, s, TakeFree);
              t.live == s.live + {s.free[0]} && t.free == s.free[1..] && t.pending == s.pending
              && t.fields.allocations == Up(s.fields.allocations)
    ensures s.free == [] ==> Next(cfg, s, TakeFree) == s
  {
    PopTakesFirst(s.mem, s.fields, s.free);
    if s.free != [] {
      assert s.free[0] in s.free && IsBlock(s.free, s.live, s.free[0]);
    }
  }

  lemma {:induction false} SlowPath(cfg: Config, s: State, a: nat)
    requires Inv(cfg, s) && HeapGives(cfg, s, a)
    ensures var t := Next(cfg, Next(cfg, s, Obtain(a)), Account(a));
            t.live == s.live + {a} && t.free == s.free && t.pending == s.pending - {a}
            && t.fields.allocations == Up(s.fields.allocations) && t.fields.blockCnt == Up(s.fields.blockCnt)
  {
    var t := Next(cfg, s, Obtain(a));
    assert t.pending == s.pending + {a} && t.fields == s.fields;
    assert t.pending - {a} == s.pending - {a};
  }

  lemma FirstApart(size: nat, free: seq<nat>, live: set<nat>)
    requires Separate(size, free, live) && free != []
    ensures free[0] !in live && forall b | b in live :: Apart(size, free[0], b)
  {
    assert free[0] in free && IsBlock(free, live, free[0]);
    forall b | b in live ensures Apart(size, free[0], b) {
      assert IsBlock(free, live, b);
    }
  }

  /** Giving a block back is undone by the next allocation: it is that block, and
      all but the two running totals is as before. */
  lemma LastInFirstOut(cfg: Config, mem: Cells, f: Fields, block: nat, fromHeap: nat)
    requires block != NULL && f.blocksInUse < COUNTER_LIMIT
    ensures var (after, given) := DeallocateRegion(mem, f, block);
            var (again, same) := AllocateRegion(cfg, after, given, fromHeap);
            && same == block
            && again == f.(allocations := Up(f.allocations), deallocations := Up(f.deallocations))
  {
    var (after, given) := DeallocateRegion(mem, f, block);
    assert HoldsLink(after, block, f.head);
  }

  /** Only blocks in use may be given back: giving one back twice makes a cycle of the
      free list, and the block is handed out twice. */
  lemma DoubleFree(cfg: Config, mem: Cells, f: Fields, block: nat, fromHeap: nat)
    requires block != NULL
    ensures var (mem1, f1) := DeallocateRegion(mem, f, block);
            var (mem2, f2) := DeallocateRegion(mem1, f1, block);
            var (f3, first) := AllocateRegion(cfg, mem2, f2, fromHeap);
            var (_, second) := AllocateRegion(cfg, mem2, f3, fromHeap);
            first == second == block
  {
    var (mem1, f1) := DeallocateRegion(mem, f, block);
    var (mem2, f2) := DeallocateRegion(mem1, f1, block);
    assert HoldsLink(mem2, block, block);
  }
}
