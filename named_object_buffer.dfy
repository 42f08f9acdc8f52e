/** core/named_object_buffer.h and .cpp: objects of any type copied one
    after another into one malloc'd block, and found by the hash of their
    name through a std::map from hash to (offset, size, type).

    Addresses are naturals below 2^32 (0 is NULL) and the block's bytes
    are an array; malloc's result is a parameter. A map iterator is the key
    of the entry it points at (None for end()), since std::map iterators
    stay on their entry when others are inserted. */
module NamedObjects {
  import opened Wrappers
  import opened OrderedMap
  import StringHashing

  /** The number of values of a 32-bit size_t. */
  const AddressRange: nat := 0x1_0000_0000

  /** NamedObject: where in the block the bytes start, how many there are,
      and the caller's type tag. */
  datatype NamedObject = NamedObject(offset: nat, size: nat, objType: nat)

  /** The object's bytes lie below `used`. */
  predicate Inside(o: NamedObject, used: nat) {
    o.offset + o.size <= used
  }

  /** Two objects' byte ranges do not overlap. */
  predicate Disjoint(a: NamedObject, b: NamedObject) {
    a.offset + a.size <= b.offset || b.offset + b.size <= a.offset
  }

  /** Every object lies in the used part of the block and no two overlap. */
  ghost predicate Packed(objects: seq<Entry<NamedObject>>, used: nat) {
    (forall e :: e in objects ==> Inside(e.value, used)) &&
    (forall e, f :: e in objects && f in objects && e != f ==> Disjoint(e.value, f.value))
  }

  class NamedObjectBuffer {
    var head: nat
    var tail: nat
    var bufferSize: nat
    var block: array<bv8>
    var objects: seq<Entry<NamedObject>>

    /** The map is ordered; tail lies between the start and the end of the
        block, which fits the address space; the objects are packed below
        tail. */
    ghost predicate Valid()
      reads this, block
    {
      Sorted(objects) &&
      head <= tail <= head + bufferSize && head + bufferSize < AddressRange &&
      block.Length == bufferSize &&
      Packed(objects, tail - head)
    }

    /** The number of bytes still free, as addObjectRaw computes it. */
    function Available(): (n: int)
      reads this
      ensures n == head + bufferSize - tail
    {
      head + bufferSize - tail
    }

    constructor ()
      ensures Valid() && head == 0 && tail == 0 && bufferSize == 0 && objects == []
    {
      head, tail, bufferSize := 0, 0, 0;
      block := new bv8[0];
      objects := [];
    }

    /** initialise: stores malloc's result (`address`) as the head, NULL
        included; when it is not NULL the buffer becomes empty with
        sizeRequired bytes. The objects already added are kept, so only a
        buffer that holds no bytes yet is sure to stay consistent. */
    method Initialise(sizeRequired: nat, address: nat) returns (ok: bool)
      requires address + sizeRequired < AddressRange
      modifies this
      ensures ok <==> address != 0
      ensures head == address && objects == old(objects)
      ensures ok ==> tail == address && bufferSize == sizeRequired && fresh(block)
      ensures !ok ==> tail == old(tail) && bufferSize == old(bufferSize) && block == old(block)
      ensures old(Valid()) && old(tail) == old(head) && ok ==> Valid()
    {
      head := address;
      if head == 0 {
        return false;
      }
      tail := head;
      bufferSize := sizeRequired;
      block := new bv8[sizeRequired];
      return true;
    }

    /** addObjectRaw: fails, changing nothing, when size exceeds the free
        space or when an object is already filed under the name's hash
        (another name with the same hash included). Otherwise the bytes are
        copied to tail, the object is filed at offset tail - head, and tail
        moves on by size. */
    method AddObjectRaw(name: seq<char>, objType: nat, size: nat, value: seq<bv8>) returns (ok: bool)
      requires Valid() && |value| == size
      modifies this, block
      ensures Valid() && head == old(head) && bufferSize == old(bufferSize) && block == old(block)
      ensures ok <==> size <= old(Available()) && Find(old(objects), StringHashing.Hash(name)).None?
      ensures ok ==>
        objects == Insert(old(objects), StringHashing.Hash(name), NamedObject(old(tail) - head, size, objType)) &&
        tail == old(tail) + size &&
        block[old(tail) - head..tail - head] == value &&
        forall k :: 0 <= k < old(tail) - head ==> block[k] == old(block[k])
      ensures !ok ==> objects == old(objects) && tail == old(tail) && block[..] == old(block[..])
    {
      var hash := StringHashing.GetHash(name);
      var available := head + bufferSize - tail;
      if size > available {
        return false;
      }
      if Find(objects, hash).Some? {
        return false;
      }
      var obj := NamedObject(tail - head, size, objType);
      CopyBytes(block, tail - head, value);
      InsertPacked(objects, hash, obj, tail - head);
      objects := Insert(objects, hash, obj);
      InsertSorted(old(objects), hash, obj);
      tail := tail + size;
      return true;
    }

    /** addObject<T>: addObjectRaw with the bytes of the value, whose count
        is sizeof(T). */
    method AddObject(name: seq<char>, objType: nat, value: seq<bv8>) returns (ok: bool)
      requires Valid()
      modifies this, block
      ensures Valid() && head == old(head) && bufferSize == old(bufferSize) && block == old(block)
      ensures ok <==> |value| <= old(Available()) && Find(old(objects), StringHashing.Hash(name)).None?
      ensures ok ==>
        objects == Insert(old(objects), StringHashing.Hash(name), NamedObject(old(tail) - head, |value|, objType)) &&
        tail == old(tail) + |value| &&
        block[old(tail) - head..tail - head] == value &&
        forall k :: 0 <= k < old(tail) - head ==> block[k] == old(block[k])
      ensures !ok ==> objects == old(objects) && tail == old(tail) && block[..] == old(block[..])
    {
      ok := AddObjectRaw(name, objType, |value|, value);
    }

    /** getIterator: an iterator at the first object in hash order, or at
        end() when there is none. */
    method GetIterator() returns (it: NamedObjectIterator)
      requires Valid()
      ensures fresh(it) && it.buffer == this && it.Valid()
      ensures objects == [] ==> it.at.None?
      ensures objects != [] ==> it.at == Some(objects[0].key)
    {
      it := new NamedObjectIterator(this);
    }
  }

  /** Filing an object that starts at the used mark keeps the map packed
      below the new mark. */
  lemma InsertPacked(objects: seq<Entry<NamedObject>>, hash: nat, obj: NamedObject, used: nat)
    requires Sorted(objects) && hash !in Keys(objects) && Packed(objects, used) && obj.offset == used
    ensures Packed(Insert(objects, hash, obj), used + obj.size)
  {
    var r := Insert(objects, hash, obj);
    InsertOnlyAdds(objects, hash, obj);
    forall e | e in r
      ensures e in objects || e == Entry(hash, obj)
    {
      var i :| 0 <= i < |r| && r[i] == e;
    }
    forall e, f | e in r && f in r && e != f
      ensures Disjoint(e.value, f.value)
    {
    }
  }

  /** The memcpy into the block: `value` lands at `at`, nothing else
      changes. */
  method CopyBytes(block: array<bv8>, at: nat, value: seq<bv8>)
    requires at + |value| <= block.Length
    modifies block
    ensures block[at..at + |value|] == value
    ensures block[..at] == old(block[..at])
    ensures block[at + |value|..] == old(block[at + |value|..])
  {
    var i := 0;
    while i < |value|
      invariant i <= |value|
      invariant block[at..at + i] == value[..i]
      invariant block[..at] == old(block[..at])
      invariant block[at + |value|..] == old(block[at + |value|..])
    {
      block[at + i] := value[i];
      i := i + 1;
    }
  }

  /** The entry after key k in key order: the first key above k, or None
      for end(). */
  function Successor(objects: seq<Entry<NamedObject>>, k: nat): (r: Option<nat>)
    requires Sorted(objects)
    ensures r.Some? ==> r.value in Keys(objects) && k < r.value
    ensures r.Some? ==> forall i :: 0 <= i < |objects| && k < objects[i].key ==> r.value <= objects[i].key
    ensures r.None? ==> forall i :: 0 <= i < |objects| ==> objects[i].key <= k
  {
    var p := LowerBound(objects, k + 1);
    if p < |objects| then Some(objects[p].key) else None
  }

  /** In a sorted map the entry after position i is the one at i + 1. */
  lemma SuccessorIsNext(objects: seq<Entry<NamedObject>>, i: nat)
    requires Sorted(objects) && i < |objects|
    ensures i + 1 < |objects| ==> Successor(objects, objects[i].key) == Some(objects[i + 1].key)
    ensures i + 1 == |objects| ==> Successor(objects, objects[i].key).None?
  {
  }

  class NamedObjectIterator {
    const buffer: NamedObjectBuffer
    /** The key of the entry the iterator is at; None is end(). */
    var at: Option<nat>

    ghost predicate Valid()
      reads this, buffer, buffer.block
    {
      buffer.Valid() && (at.Some? ==> at.value in Keys(buffer.objects))
    }

    /** The constructor starts at begin(). */
    constructor (buffer: NamedObjectBuffer)
      requires buffer.Valid()
      ensures this.buffer == buffer && Valid()
      ensures buffer.objects == [] ==> at.None?
      ensures buffer.objects != [] ==> at == Some(buffer.objects[0].key)
    {
      this.buffer := buffer;
      at := if buffer.objects == [] then None else Some(buffer.objects[0].key);
    }

    /** HasData: false exactly at end(). */
    function HasData(): (b: bool)
      reads this
      ensures b <==> at.Some?
    {
      at.Some?
    }

    /** Next: moves to the following entry in key order and reports whether
        there is one. Advancing from end() is undefined. */
    method Next() returns (more: bool)
      requires Valid() && at.Some?
      modifies this
      ensures Valid() && at == Successor(buffer.objects, old(at.value))
      ensures more <==> at.Some?
    {
      at := Successor(buffer.objects, at.value);
      return at.Some?;
    }

    /** The object at the iterator. */
    function Current(): (o: NamedObject)
      reads this, buffer, buffer.block
      requires Valid() && at.Some?
      ensures Entry(at.value, o) in buffer.objects
    {
      buffer.objects[Find(buffer.objects, at.value).value].value
    }

    /** getType: the stored type tag. */
    function GetType(): (t: nat)
      reads this, buffer, buffer.block
      requires Valid() && at.Some?
      ensures t == Current().objType
    {
      Current().objType
    }

    /** getSize: the stored size. */
    function GetSize(): (n: nat)
      reads this, buffer, buffer.block
      requires Valid() && at.Some?
      ensures n == Current().size
    {
      Current().size
    }

    /** getValue: the address of the object's bytes, head + offset, which
        lies inside the used part of the block. */
    function GetValue(): (p: nat)
      reads this, buffer, buffer.block
      requires Valid() && at.Some?
      ensures p == buffer.head + Current().offset
      ensures buffer.head <= p && p + Current().size <= buffer.tail
    {
      buffer.head + Current().offset
    }
  }
}
