/** core/linear_allocator.h: a bump allocator over one malloc'd block.

    Pointers are addresses (0 is NULL). size_t is 32 bits wide, so every
    address computation wraps modulo 2^32. The outcome of malloc is the
    address it returned, a parameter (0 when it failed); the memset fill
    pattern is not modelled. */
module LinearAllocation {
  /** The number of values of a 32-bit size_t. */
  const SizeRange: nat := 0x1_0000_0000

  /** size_t addition. */
  function AddSize(x: nat, y: nat): (r: nat)
    ensures r < SizeRange
    ensures x + y < SizeRange ==> r == x + y
  {
    (x + y) % SizeRange
  }

  /** ALIGN_UP(ptr, align): ptr plus the distance to the next multiple of
      align, which is a whole `align` when ptr is already aligned. */
  function AlignUp(p: nat, a: nat): (r: nat)
    requires 0 < a
    ensures r < SizeRange
  {
    AddSize(p, a - p % a)
  }

  /** Without wrap-around, ALIGN_UP lands on a multiple of `align` strictly
      above ptr and at most `align` above it; on an aligned ptr it adds the
      full `align`. */
  lemma AlignUpBounds(p: nat, a: nat)
    requires 0 < a && p + a < SizeRange
    ensures AlignUp(p, a) == (p / a + 1) * a
    ensures p < AlignUp(p, a) <= p + a
    ensures p % a == 0 ==> AlignUp(p, a) == p + a
  {
    assert p == (p / a) * a + p % a;
  }

  /** The result of Allocate from a head and a tail: the block address (0 for
      NULL) and the new head. The head moves by `size` from the old head,
      not from the aligned address. */
  function AllocStep(head: nat, tail: nat, size: nat, align: nat): (r: (nat, nat))
    requires 0 < align && head < SizeRange
    ensures r.1 < SizeRange
    ensures AddSize(AlignUp(head, align), size) < tail ==> r == (AlignUp(head, align), AddSize(head, size))
    ensures AddSize(AlignUp(head, align), size) >= tail ==> r == (0, head)
  {
    var headPtr := AlignUp(head, align);
    if AddSize(headPtr, size) < tail then (headPtr, AddSize(head, size)) else (0, head)
  }

  /** When nothing wraps, a successful allocation returns an aligned block
      that starts above the old head and ends before the tail. */
  lemma AllocatedBlockInRange(head: nat, tail: nat, size: nat, align: nat)
    requires 0 < align && tail < SizeRange && head + align < SizeRange
    requires AlignUp(head, align) + size < SizeRange
    requires AllocStep(head, tail, size, align).0 != 0
    ensures var p := AllocStep(head, tail, size, align).0;
      p == (head / align + 1) * align && head < p && p + size < tail
  {
    AlignUpBounds(head, align);
  }

  /** From an aligned head, two 2-byte allocations with alignment 4 return
      the same address: the head advances by 2 only, and aligning it up
      lands on the first block again. */
  lemma SuccessiveBlocksOverlap(head: nat, tail: nat)
    requires head % 4 == 0 && head + 8 < tail < SizeRange
    ensures var (p1, h1) := AllocStep(head, tail, 2, 4);
      var (p2, h2) := AllocStep(h1, tail, 2, 4);
      p1 == p2 == head + 4 && h2 == head + 4
  {
    assert AlignUp(head, 4) == head + 4;
    assert (head + 2) % 4 == 2;
    assert AlignUp(head + 2, 4) == head + 4;
  }

  /** A request so large that ALIGN_UP(head) + size wraps past 2^32 passes
      the capacity test: with a head and tail of 0x1000 and 0x2000 and an
      alignment of 4, a request of 0xFFFFF000 bytes returns 0x1004 and
      moves the head to 0. */
  lemma HugeRequestWrapsPastTail()
    ensures AllocStep(0x1000, 0x2000, 0xFFFF_F000, 4) == (0x1004, 0)
  {
    assert AlignUp(0x1000, 4) == 0x1004;
    assert AddSize(0x1004, 0xFFFF_F000) == 4;
  }

  /** The evidently intended allocation: test the block's end without
      wrap-around and move the head to the block's end. */
  function IntendedAllocStep(head: nat, tail: nat, size: nat, align: nat): (r: (nat, nat))
    requires 0 < align && head + align < SizeRange
    ensures r.0 != 0 ==> r.0 == (head / align + 1) * align && head < r.0 && r.0 + size == r.1 < tail
    ensures r.0 == 0 ==> r.1 == head
  {
    AlignUpBounds(head, align);
    var headPtr := head + (align - head % align);
    if headPtr + size < tail then (headPtr, headPtr + size) else (0, head)
  }

  /** With the intended step, each successful allocation lies wholly after
      the previous one. */
  lemma {:induction false} IntendedBlocksDisjoint(head: nat, tail: nat, s1: nat, s2: nat, align: nat)
    requires 0 < align && head + align < SizeRange && tail + align < SizeRange
    requires IntendedAllocStep(head, tail, s1, align).0 != 0
    ensures var (p1, h1) := IntendedAllocStep(head, tail, s1, align);
      h1 + align < SizeRange &&
      (IntendedAllocStep(h1, tail, s2, align).0 != 0 ==> p1 + s1 < IntendedAllocStep(h1, tail, s2, align).0)
  {
  }

  class LinearAllocator {
    var buffer: nat
    var head: nat
    var tail: nat
    /** The addresses passed to free, oldest first. */
    ghost var freed: seq<nat>

    /** An unallocated allocator has all three pointers NULL; an allocated
        one has its tail inside the address space. */
    ghost predicate Valid()
      reads this
    {
      (buffer == 0 ==> head == 0 && tail == 0) &&
      tail < SizeRange && head < SizeRange
    }

    constructor ()
      ensures Valid() && buffer == 0 && head == 0 && tail == 0 && freed == []
    {
      buffer, head, tail := 0, 0, 0;
      freed := [];
    }

    /** Initialise: fails when a buffer is already held or malloc returned
        NULL (`block` is malloc's result); otherwise head is the buffer and
        tail the buffer plus maxSize. */
    method Initialise(maxSize: nat, block: nat) returns (ok: bool)
      requires Valid()
      requires block + maxSize < SizeRange
      modifies this
      ensures Valid() && freed == old(freed)
      ensures ok <==> old(buffer) == 0 && block != 0
      ensures ok ==> buffer == block && head == block && tail == block + maxSize
      ensures !ok ==> buffer == old(buffer) && head == old(head) && tail == old(tail)
    {
      if buffer != 0 {
        return false;
      }
      if block == 0 {
        return false;
      }
      buffer, head, tail := block, block, block + maxSize;
      return true;
    }

    /** Allocate: the block at ALIGN_UP(head, align) when its end is below
        the tail, with the head bumped by `size`; otherwise NULL and the
        head unchanged. */
    method Allocate(size: nat, align: nat) returns (block: nat)
      requires Valid() && 0 < align && size < SizeRange
      modifies this
      ensures Valid() && buffer == old(buffer) && tail == old(tail) && freed == old(freed)
      ensures (block, head) == AllocStep(old(head), tail, size, align)
    {
      var headPtr := AlignUp(head, align);
      if AddSize(headPtr, size) < tail {
        head := AddSize(head, size);
        return headPtr;
      }
      return 0;
    }

    /** Release: frees a held buffer and nulls all three pointers; a no-op
        when nothing is held. */
    method Release()
      requires Valid()
      modifies this
      ensures Valid() && buffer == 0 && head == 0 && tail == 0
      ensures freed == if old(buffer) != 0 then old(freed) + [old(buffer)] else old(freed)
    {
      if buffer != 0 {
        freed := freed + [buffer];
        buffer, head, tail := 0, 0, 0;
      }
    }
  }
}
