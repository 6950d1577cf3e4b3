/** xmalloc, xfree and xrealloc over a table of buckets, as the classes change it in
    place. Addresses come from the allocators, whose guarantees are the subject of
    AllocatorRuns: what they hand out is not in use. */
module XHeaps {
  import opened Common
  import opened XAllocators

  const MAX_ALLOCATORS: nat := 15
  const NULL: nat := 0

  // Every block starts with a header of 16 bytes; safeguards put a canary of 4 bytes
  // behind the user's.
  function Overhead(safeguards: bool): nat {
    if safeguards then HEADER + FOOTER else HEADER
  }

  // What nexthigher is asked for.
  function Request(size: nat, safeguards: bool): nat {
    (size + Overhead(safeguards)) % WORD
  }

  // What the constructor of Allocator makes of the size it is given.
  function BlockSizeOf(bucket: nat): nat {
    if bucket < MIN_BLOCK then MIN_BLOCK else bucket
  }

  // The user's bytes, as get and set of the footer and xrealloc compute them.
  function UserSize(blockSize: nat, safeguards: bool): nat {
    (blockSize + WORD - Overhead(safeguards)) % WORD
  }

  // The requests whose size, with header and footer, does not pass 2^63.
  predicate Fits(size: nat, safeguards: bool) {
    HEADER + size + (if safeguards then FOOTER else 0) <= TOP_POWER
  }

  // The block really has that many bytes between header and footer.
  predicate HasRoom(blockSize: nat, safeguards: bool, size: nat) {
    HEADER + size + (if safeguards then FOOTER else 0) <= blockSize
  }

  /** A block has room for its request exactly when the request fits: beyond that the
      bucket is zero, or the sum wraps, and the block is too small. */
  lemma RoomIffFits(size: nat, safeguards: bool)
    requires size < WORD
    ensures HasRoom(BlockSizeOf(Bucket(Request(size, safeguards))), safeguards, size) <==> Fits(size, safeguards)
  {
    var k := Request(size, safeguards);
    if Fits(size, safeguards) {
      BucketBelowTwice(k);
    } else {
      SmallBucket(k, size + Overhead(safeguards));
    }
  }

  /** A block for a request that fits has the bucket's size, less than twice what was asked
      of nexthigher, and its user size is not below the request. */
  lemma BlockOfFitting(size: nat, safeguards: bool)
    requires Fits(size, safeguards)
    ensures var bucket := Bucket(Request(size, safeguards));
            && BlockSizeOf(bucket) == bucket < 2 * (size + Overhead(safeguards))
            && UserSize(bucket, safeguards) == bucket - Overhead(safeguards) >= size
  {
    BucketBelowTwice(Request(size, safeguards));
  }

  lemma BucketBelowTwice(k: nat)
    requires MIN_BLOCK <= k <= TOP_POWER
    ensures k <= Bucket(k) < 2 * k && Bucket(k) < WORD
  {
    BucketIsLeast(k, 0);
    var n: nat :| n <= 63 && Bucket(k) == TwoTo(n);
    if n > 0 { BucketIsLeast(k, n - 1); }
  }

  lemma SmallBucket(k: nat, sum: nat)
    requires TOP_POWER < sum < WORD + 20 && k == sum % WORD
    ensures Bucket(k) <= 32
  {
    if 0 < k <= TOP_POWER {
      assert TwoTo(5) == 32;
      BucketIsLeast(k, 5);
    }
  }

  // ---------------------------------------------------------------- the table of buckets

  // Of an allocator only its block size matters here.
  class FixedAllocator {
    const blockSize: nat

    constructor (size: nat)
      ensures blockSize == BlockSizeOf(size)
    {
      blockSize := BlockSizeOf(size);
    }
  }

  // The slots in use: those before the first empty one.
  function Used(slots: seq<FixedAllocator?>): seq<FixedAllocator> {
    if slots == [] || slots[0] == null then [] else [slots[0]] + Used(slots[1..])
  }

  ghost predicate Packed(slots: seq<FixedAllocator?>) {
    forall i, j | 0 <= i < j < |slots| && slots[j] != null :: slots[i] != null
  }

  ghost predicate NoneOfSize(used: seq<FixedAllocator>, size: nat) {
    forall i | 0 <= i < |used| :: used[i].blockSize != size
  }

  // No two allocators have blocks of one size.
  ghost predicate Injective(used: seq<FixedAllocator>) {
    forall i, j | 0 <= i < j < |used| :: used[i].blockSize != used[j].blockSize
  }

  lemma {:induction false} UsedUpTo(slots: seq<FixedAllocator?>, n: nat)
    requires n <= |slots| && (forall i | 0 <= i < n :: slots[i] != null) && (n < |slots| ==> slots[n] == null)
    ensures |Used(slots)| == n && forall i | 0 <= i < n :: Used(slots)[i] == slots[i]
  {
    if n > 0 {
      UsedUpTo(slots[1..], n - 1);
    }
  }

  lemma {:induction false} UsedIsPrefix(slots: seq<FixedAllocator?>)
    ensures var used := Used(slots);
            && |used| <= |slots| && (|used| < |slots| ==> slots[|used|] == null)
            && forall i | 0 <= i < |used| :: used[i] == slots[i]
  {
    if slots != [] && slots[0] != null {
      UsedIsPrefix(slots[1..]);
    }
  }

  class Buckets {
    const allocators: array<FixedAllocator?>

    ghost predicate Valid()
      reads this, allocators
    {
      && allocators.Length == MAX_ALLOCATORS && Packed(allocators[..])
      && forall i | 0 <= i < |View()| :: View()[i].blockSize >= MIN_BLOCK
    }

    ghost function View(): seq<FixedAllocator>
      reads this, allocators
    {
      Used(allocators[..])
    }

    // There is no allocator for the bucket, and no room for one.
    ghost predicate Full(bucket: nat)
      reads this, allocators
    {
      |View()| == MAX_ALLOCATORS && NoneOfSize(View(), bucket)
    }

    constructor ()
      ensures Valid() && View() == [] && fresh(allocators)
    {
      allocators := new FixedAllocator?[MAX_ALLOCATORS](_ => null);
    }

    method FindAllocator(size: nat) returns (found: FixedAllocator?)
      requires Valid()
      ensures found == null <==> NoneOfSize(View(), size)
      ensures found != null ==> found in View() && found.blockSize == size
    {
      UsedIsPrefix(allocators[..]);
      var i := 0;
      while i < MAX_ALLOCATORS
        invariant i <= |View()|
        invariant forall j | 0 <= j < i :: View()[j].blockSize != size
      {
        var candidate := allocators[i];
        if candidate == null {
          break;
        }
        if candidate.blockSize == size {
          assert View()[i] == candidate;
          return candidate;
        }
        i := i + 1;
      }
      return null;
    }

    method InsertAllocator(allocator: FixedAllocator) returns (ok: bool)
      requires Valid() && allocator.blockSize >= MIN_BLOCK
      modifies allocators
      ensures Valid() && ok == (old(|View()|) < MAX_ALLOCATORS)
      ensures View() == if ok then old(View()) + [allocator] else old(View())
    {
      UsedIsPrefix(allocators[..]);
      var i := 0;
      while i < MAX_ALLOCATORS
        invariant i <= |View()| && allocators[..] == old(allocators[..])
      {
        if allocators[i] == null {
          allocators[i] := allocator;
          UsedUpTo(allocators[..], i + 1);
          return true;
        }
        i := i + 1;
      }
      return false;
    }

    /** xallocator_get_allocator, without interference (BucketRuns has it with). Null stands
        for the fault handler, which does not return. */
    method GetAllocator(size: nat, safeguards: bool) returns (result: FixedAllocator?)
      requires Valid() && size < WORD
      modifies allocators
      ensures Valid() && old(View()) <= View()
      ensures var bucket := Bucket(Request(size, safeguards));
              && (result != null ==> result in View() && result.blockSize == BlockSizeOf(bucket))
              && (result == null <==> old(Full(bucket)))
              && (old(Injective(View())) && Fits(size, safeguards) ==> Injective(View()))
    {
      if Fits(size, safeguards) { BlockOfFitting(size, safeguards); }
      Pow63();
      BucketIs(Request(size, safeguards));
      var bucket := NextHigher((size + Overhead(safeguards)) % WORD, 64);
      result := FindAllocator(bucket);
      if result == null {
        var created := new FixedAllocator(bucket);
        var existing := FindAllocator(bucket);
        if existing == null {
          var ok := InsertAllocator(created);
          if !ok {
            UsedIsPrefix(allocators[..]);
            return null;  // ASSERT
          }
          existing := created;
        }
        result := existing;
      }
    }
  }

  // ---------------------------------------------------------------- the heap API

  // A block in use: the size last asked for, the block size of the allocator its header
  // names, and the user's bytes, as far as they have been written.
  datatype UserBlock = UserBlock(asked: nat, blockSize: nat, data: map<nat, nat>)

  function CopySize(oldBlock: UserBlock, size: nat, safeguards: bool): nat {
    var oldSize := UserSize(oldBlock.blockSize, safeguards);
    if oldSize < size then oldSize else size
  }

  function FirstBytes(data: map<nat, nat>, n: nat): map<nat, nat> {
    map i | i in data && i < n :: data[i]
  }

  ghost predicate BlockOk(b: UserBlock, safeguards: bool) {
    Fits(b.asked, safeguards) ==>
      HasRoom(b.blockSize, safeguards, b.asked) && b.asked <= UserSize(b.blockSize, safeguards)
  }

  class XHeap {
    const table: Buckets
    const safeguards: bool
    var live: map<nat, UserBlock>

    ghost predicate Valid()
      reads this, table, table.allocators
    {
      && table.Valid()
      && NULL !in live
      && forall p | p in live :: BlockOk(live[p], safeguards)
    }

    constructor (safeguards: bool)
      ensures Valid() && live == map[]
    {
      this.safeguards := safeguards;
      table := new Buckets();
      live := map[];
    }

    /** xmalloc: `at` is the address the bucket's allocator hands out. Null
        stands for the fault handler, which is entered when the table of buckets is full. */
    method XMalloc(size: nat, at: nat) returns (ptr: nat)
      requires Valid() && size < WORD && at != NULL && at !in live
      modifies this`live, table.allocators
      ensures Valid()
      ensures ptr == NULL <==> old(table.Full(Bucket(Request(size, safeguards))))
      ensures ptr == NULL ==> live == old(live)
      ensures ptr != NULL ==>
                && ptr == at
                && live == old(live)[at := UserBlock(size, BlockSizeOf(Bucket(Request(size, safeguards))), map[])]
                && (HasRoom(live[at].blockSize, safeguards, size) <==> Fits(size, safeguards))
    {
      var allocator := table.GetAllocator(size, safeguards);
      if allocator == null {
        return NULL;
      }
      RoomIffFits(size, safeguards);
      if Fits(size, safeguards) {
        BlockOfFitting(size, safeguards);
      }
      live := live[at := UserBlock(size, allocator.blockSize, map[])];
      ptr := at;
    }

    method XFree(ptr: nat)
      requires Valid() && (ptr == NULL || ptr in live)
      modifies this`live
      ensures Valid() && live == old(live) - {ptr}
    {
      if ptr != NULL {
        live := live - {ptr};
      } else {
        assert live - {ptr} == live;
      }
    }

    /** xrealloc: the new block starts with the first bytes of the old, as many of them as
        were asked for and will fit; all other blocks are untouched. */
    method XRealloc(ptr: nat, size: nat, at: nat) returns (p: nat)
      requires Valid() && size < WORD && at != NULL && at !in live && (ptr == NULL || ptr in live)
      modifies this`live, table.allocators
      ensures Valid()
      ensures ptr != NULL && size == 0 ==> p == NULL && live == old(live) - {ptr}
      ensures ptr == NULL || size != 0 ==> (p == NULL <==> old(table.Full(Bucket(Request(size, safeguards)))))
      ensures p == NULL && (ptr == NULL || size != 0) ==> live == old(live)
      ensures p != NULL ==>
                && p == at && at in live && live - {at} == old(live) - {ptr} && live[at].asked == size
                && (HasRoom(live[at].blockSize, safeguards, size) <==> Fits(size, safeguards))
                && live[at].data == if ptr == NULL then map[]
                                    else FirstBytes(old(live)[ptr].data, CopySize(old(live)[ptr], size, safeguards))
    {
      if ptr == NULL {
        p := XMalloc(size, at);
        assert p != NULL ==> live - {at} == old(live) - {ptr};
        return;
      }
      if size == 0 {
        XFree(ptr);
        return NULL;
      }
      p := XMalloc(size, at);
      if p != NULL {
        var source, n, i, copied := live[ptr], CopySize(live[ptr], size, safeguards), 0, map[];
        while i < n
          invariant i <= n && live == old(live)[at := live[at]] && copied == FirstBytes(source.data, i)
        {
          if i in source.data {
            copied := copied[i := source.data[i]];
          }
          i := i + 1;
        }
        live := live[at := live[at].(data := copied)];
        XFree(ptr);
      }
    }
  }

  /** What xrealloc copies is exactly the old block's bytes in front of its footer, as far as
      the new size goes, if the old request fitted: so it covers the first bytes up to the
      smaller of the old request and the new, and stays inside the new block if the new
      request fits. */
  lemma CopyCoversRequests(oldBlock: UserBlock, size: nat, safeguards: bool)
    requires size < WORD && BlockOk(oldBlock, safeguards)
    ensures var n, copied := CopySize(oldBlock, size, safeguards), FirstBytes(oldBlock.data, CopySize(oldBlock,
        size, safeguards));
            && (Fits(oldBlock.asked, safeguards) ==>
                  forall i | i < oldBlock.asked && i < size ::
                    (i in copied <==> i in oldBlock.data) && (i in copied ==> copied[i] == oldBlock.data[i]))
            && (Fits(oldBlock.asked, safeguards) && oldBlock.blockSize < WORD ==>
                  forall i :: i in copied <==> i in oldBlock.data && i < size && HasRoom(oldBlock.blockSize, safeguards, i + 1))
            && (Fits(size, safeguards) ==> HasRoom(BlockSizeOf(Bucket(Request(size, safeguards))), safeguards, n))
  {
    RoomIffFits(size, safeguards);
  }
}
