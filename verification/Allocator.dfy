/** Allocator: a fixed-block allocator whose free blocks are linked through their own
    first eight bytes. The functions below are what each operation does to the memory and
    to the allocator's fields; the class is proved against them, and AllocatorRuns follows
    them over every run. */
module Allocators {
  // A byte holds data or the i-th part of a stored pointer. Zero is the null pointer.
  datatype Cell = Data(value: nat) | Link(target: nat, part: nat)
  type Cells = map<nat, Cell>

  datatype Mode = HEAP_BLOCKS | HEAP_POOL | STATIC_POOL

  datatype Config = Config(mode: Mode, objectSize: nat, maxObjects: nat, pool: nat) {
    // A block must have room for the pointer to the next.
    function BlockSize(): nat {
      if objectSize < POINTER_SIZE then POINTER_SIZE else objectSize
    }

    // The pool's i-th block.
    function BlockAt(i: nat): nat {
      pool + i * BlockSize()
    }

    predicate Valid() {
      && (maxObjects == 0 <==> mode == HEAP_BLOCKS)
      && maxObjects < COUNTER_LIMIT
      && (mode != HEAP_BLOCKS ==> pool != NULL)
    }
  }

  datatype Fields = Fields(head: nat, poolIndex: nat, blockCnt: nat, blocksInUse: nat, allocations: nat, deallocations: nat)

  const NULL: nat := 0
  const POINTER_SIZE: nat := 8
  const COUNTER_LIMIT: nat := 0x1_0000_0000  // the counters are 32 bits wide and wrap
  const EMPTY := Fields(NULL, 0, 0, 0, 0, 0)

  // What a load of bytes that are no stored pointer gives.
  const MANGLED: nat := 1

  function Up(n: nat): nat {
    (n + 1) % COUNTER_LIMIT
  }

  function Down(n: nat): nat {
    (n + COUNTER_LIMIT - 1) % COUNTER_LIMIT
  }

  predicate HoldsLink(mem: Cells, at: nat, target: nat) {
    forall x | at <= x < at + POINTER_SIZE :: x in mem && mem[x] == Link(target, x - at)
  }

  function LoadLink(mem: Cells, at: nat): (target: nat)
    ensures forall p :: HoldsLink(mem, at, p) ==> target == p
  {
    assert forall p :: HoldsLink(mem, at, p) ==> at in mem && mem[at] == Link(p, 0);
    if at in mem && mem[at].Link? && HoldsLink(mem, at, mem[at].target) then mem[at].target else MANGLED
  }

  function StoreLink(mem: Cells, at: nat, target: nat): (r: Cells)
    ensures HoldsLink(r, at, target)
    ensures forall x | x < at || x >= at + POINTER_SIZE :: (x in r <==> x in mem) && (x in mem ==> r[x] == mem[x])
  {
    mem[at := Link(target, 0)][at + 1 := Link(target, 1)][at + 2 := Link(target, 2)][at + 3 := Link(target, 3)]
       [at + 4 := Link(target, 4)][at + 5 := Link(target, 5)][at + 6 := Link(target, 6)][at + 7 := Link(target, 7)]
  }

  function PushRegion(mem: Cells, f: Fields, block: nat): (Cells, Fields) {
    (StoreLink(mem, block, f.head), f.(head := block))
  }

  function PopRegion(mem: Cells, f: Fields): (Fields, nat) {
    if f.head == NULL then (f, NULL) else (f.(head := LoadLink(mem, f.head)), f.head)
  }

  function AccountRegion(f: Fields, newBlock: bool): Fields {
    f.(blockCnt := if newBlock then Up(f.blockCnt) else f.blockCnt,
       blocksInUse := Up(f.blocksInUse), allocations := Up(f.allocations))
  }

  // `fromHeap` is what `new` would return. A null result stands for BAD_ALLOC.
  function AllocateRegion(cfg: Config, mem: Cells, f: Fields, fromHeap: nat): (Fields, nat) {
    var (popped, block) := PopRegion(mem, f);
    if block != NULL then (AccountRegion(popped, false), block)
    else if cfg.maxObjects == 0 then (AccountRegion(f, true), fromHeap)
    else if f.poolIndex < cfg.maxObjects
      then (AccountRegion(f.(poolIndex := f.poolIndex + 1), false), cfg.BlockAt(f.poolIndex))
    else (f, NULL)
  }

  function DeallocateRegion(mem: Cells, f: Fields, block: nat): (Cells, Fields) {
    var (stored, pushed) := PushRegion(mem, f, block);
    (stored, pushed.(blocksInUse := Down(f.blocksInUse), deallocations := Up(f.deallocations)))
  }

  class Memory {
    var cells: Cells

    constructor ()
      ensures cells == map[]
    {
      cells := map[];
    }
  }

  class Allocator {
    const cfg: Config
    const memory: Memory
    var head: nat
    var poolIndex: nat
    var blockCnt: nat
    var blocksInUse: nat
    var allocations: nat
    var deallocations: nat

    ghost function View(): Fields
      reads this
    {
      Fields(head, poolIndex, blockCnt, blocksInUse, allocations, deallocations)
    }

    /** The mode follows from the number of objects and from who supplies the pool;
        `heapPool` is what `new` would return for a pool of its own. */
    constructor (memory: Memory, size: nat, objects: nat, staticPool: nat, heapPool: nat)
      requires heapPool != NULL && objects < COUNTER_LIMIT
      ensures this.memory == memory && View() == EMPTY && cfg.Valid()
      ensures cfg.BlockSize() >= POINTER_SIZE && cfg.BlockSize() >= size
      ensures cfg.objectSize == size && cfg.maxObjects == objects
      ensures objects != 0 ==> cfg.pool == if staticPool != NULL then staticPool else heapPool
    {
      this.memory := memory;
      if objects != 0 {
        if staticPool != NULL {
          cfg := Config(STATIC_POOL, size, objects, staticPool);
        } else {
          cfg := Config(HEAP_POOL, size, objects, heapPool);
        }
      } else {
        cfg := Config(HEAP_BLOCKS, size, objects, NULL);
      }
      head, poolIndex, blockCnt, blocksInUse, allocations, deallocations := NULL, 0, 0, 0, 0, 0;
    }

    method Push(block: nat)
      modifies this, memory
      ensures (memory.cells, View()) == PushRegion(old(memory.cells), old(View()), block)
    {
      memory.cells := StoreLink(memory.cells, block, head);
      head := block;
    }

    method Pop() returns (block: nat)
      modifies this
      ensures (View(), block) == PopRegion(memory.cells, old(View()))
    {
      block := NULL;
      if head != NULL {
        block := head;
        head := LoadLink(memory.cells, head);
      }
    }

    method AccountAlloc(newBlock: bool)
      modifies this
      ensures View() == AccountRegion(old(View()), newBlock)
    {
      if newBlock {
        blockCnt := Up(blockCnt);
      }
      blocksInUse := Up(blocksInUse);
      allocations := Up(allocations);
    }

    method Allocate(size: nat, fromHeap: nat) returns (block: nat)
      requires size <= cfg.objectSize && fromHeap != NULL && cfg.Valid()
      modifies this
      ensures (View(), block) == AllocateRegion(cfg, memory.cells, old(View()), fromHeap)
    {
      block := Pop();
      if block == NULL {
        if cfg.maxObjects != 0 {
          if poolIndex < cfg.maxObjects {
            block := cfg.pool + poolIndex * cfg.BlockSize();
            poolIndex := poolIndex + 1;
          }
        } else {
          blockCnt := Up(blockCnt);
          block := fromHeap;
        }
      }
      if block != NULL {
        blocksInUse := Up(blocksInUse);
        allocations := Up(allocations);
      }
    }

    method Deallocate(block: nat)
      modifies this, memory
      ensures (memory.cells, View()) == DeallocateRegion(old(memory.cells), old(View()), block)
    {
      Push(block);
      blocksInUse := Down(blocksInUse);
      deallocations := Up(deallocations);
    }
  }
}
