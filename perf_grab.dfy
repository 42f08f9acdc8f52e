/** framework/graphics/perf_grab.h: PerfGrab<SlotCount, EnumName>, a static
    table of int counters. The static array is one object here, and
    SlotCount is its length. The counters are unbounded (signed overflow of
    the 32-bit slots is not modelled). */
module PerfCounters {
  class PerfGrab {
    const slots: array<int>

    constructor (slotCount: nat)
      ensures slots.Length == slotCount && fresh(slots)
    {
      slots := new int[slotCount](_ => 0);
    }

    /** Whether `slot` indexes the table. */
    predicate InRange(slot: int)
      reads this
    {
      0 <= slot < slots.Length
    }

    /** Reset(slot): the loop runs from `slot` (or 0 when out of range) up to
        SlotCount when slot is -1 and up to 0 otherwise, so only the default
        argument -1 clears anything, and it clears every slot. */
    method Reset(slot: int)
      modifies slots
      ensures slot == -1 ==> forall i :: 0 <= i < slots.Length ==> slots[i] == 0
      ensures slot != -1 ==> slots[..] == old(slots[..])
    {
      var start := if InRange(slot) then slot else 0;
      var end := if slot == -1 then slots.Length else 0;
      var i := start;
      while i < end
        invariant start <= i && (start < end ==> i <= end)
        invariant slot == -1 ==> start == 0 && end == slots.Length && i <= end && forall j :: 0 <= j < i ==> slots[j] == 0
        invariant slot != -1 ==> slots[..] == old(slots[..])
      {
        slots[i] := 0;
        i := i + 1;
      }
    }

    /** Increment: adds `count` to an in-range slot; anything else is a
        no-op. */
    method Increment(slot: int, count: int)
      modifies slots
      ensures InRange(slot) ==> slots[..] == old(slots[..])[slot := old(slots[slot]) + count]
      ensures !InRange(slot) ==> slots[..] == old(slots[..])
    {
      if 0 <= slot < slots.Length {
        slots[slot] := slots[slot] + count;
      }
    }

    /** Decrement: also ADDS `count` to an in-range slot, exactly as
        Increment does. */
    method Decrement(slot: int, count: int)
      modifies slots
      ensures InRange(slot) ==> slots[..] == old(slots[..])[slot := old(slots[slot]) + count]
      ensures !InRange(slot) ==> slots[..] == old(slots[..])
    {
      if 0 <= slot < slots.Length {
        slots[slot] := slots[slot] + count;
      }
    }

    /** The evidently intended Reset(slot): -1 clears every slot, an
        in-range slot clears that slot alone, anything else is a no-op. */
    method ResetIntended(slot: int)
      modifies slots
      ensures slot == -1 ==> forall i :: 0 <= i < slots.Length ==> slots[i] == 0
      ensures InRange(slot) ==> slots[..] == old(slots[..])[slot := 0]
      ensures slot != -1 && !InRange(slot) ==> slots[..] == old(slots[..])
    {
      var start := if InRange(slot) then slot else 0;
      var end := if slot == -1 then slots.Length else if InRange(slot) then slot + 1 else 0;
      var i := start;
      while i < end
        invariant start <= i && (start < end ==> i <= end)
        invariant slot == -1 ==> start == 0 && end == slots.Length && i <= end && forall j :: 0 <= j < i ==> slots[j] == 0
        invariant InRange(slot) ==> start == slot && end == slot + 1
        invariant InRange(slot) ==> slots[..] == if i == slot then old(slots[..]) else old(slots[..])[slot := 0]
        invariant slot != -1 && !InRange(slot) ==> slots[..] == old(slots[..])
      {
        slots[i] := 0;
        i := i + 1;
      }
    }

    /** The evidently intended Decrement: subtracts `count` from an in-range
        slot. */
    method DecrementIntended(slot: int, count: int)
      modifies slots
      ensures InRange(slot) ==> slots[..] == old(slots[..])[slot := old(slots[slot]) - count]
      ensures !InRange(slot) ==> slots[..] == old(slots[..])
    {
      if 0 <= slot < slots.Length {
        slots[slot] := slots[slot] - count;
      }
    }

    /** Grab: the slot's value when in range, otherwise 0. */
    function Grab(slot: int): (v: int)
      reads this, slots
      ensures InRange(slot) ==> v == slots[slot]
      ensures !InRange(slot) ==> v == 0
    {
      if 0 <= slot < slots.Length then slots[slot] else 0
    }
  }

  /** As written, a Decrement meant to undo an Increment doubles it: the
      slot ends 2 * count above where it started. */
  method IncrementThenDecrement(perf: PerfGrab, slot: int, count: int)
    modifies perf.slots
    ensures perf.InRange(slot) ==> perf.slots[slot] == old(perf.slots[slot]) + 2 * count
    ensures !perf.InRange(slot) ==> perf.slots[..] == old(perf.slots[..])
  {
    perf.Increment(slot, count);
    perf.Decrement(slot, count);
  }

  /** With the intended Decrement the pair restores every counter. */
  method IncrementThenDecrementIntended(perf: PerfGrab, slot: int, count: int)
    modifies perf.slots
    ensures perf.slots[..] == old(perf.slots[..])
  {
    perf.Increment(slot, count);
    perf.DecrementIntended(slot, count);
  }

  /** As written, resetting one slot leaves a non-zero counter as it was. */
  method ResetOneSlotKeepsCount(perf: PerfGrab, slot: int)
    requires perf.InRange(slot) && perf.slots[slot] != 0
    modifies perf.slots
    ensures perf.slots[slot] != 0
  {
    perf.Reset(slot);
  }

  /** With the intended Reset the slot reads 0 and the others are kept. */
  method ResetOneSlotIntended(perf: PerfGrab, slot: int)
    requires perf.InRange(slot)
    modifies perf.slots
    ensures perf.Grab(slot) == 0
    ensures forall i :: 0 <= i < perf.slots.Length && i != slot ==> perf.slots[i] == old(perf.slots[i])
  {
    perf.ResetIntended(slot);
  }
}
