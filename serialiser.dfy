/** core/serialiser.h: a list of (key hash, node) pairs whose nodes and
    data live in a LinearAllocator's buffer.

    A node's data is the bytes copied from the value; here the node keeps
    the value itself next to the address it was copied to. The C++ type of
    the value decides the node's type tag and size, so a value is given
    with its type: int, unsigned int, float (opaque), a C string, or any
    other type with its sizeof. The Win32 build is assumed: int, unsigned
    int, float, pointers and size_t take 4 bytes.

    Because the allocator's head lags the blocks it hands out, a node's
    record can be placed over the previous node's data; `Intact` says
    which nodes still hold what was copied. */
module Serialisation {
  import opened Wrappers
  import opened LinearAllocation
  import StringHashing

  /** SerialisedType. */
  datatype SerialisedType = TypeInt | TypeUInt | TypeFloat | TypeString | TypeUnknown

  /** A value handed to AddNode, by its C++ type. */
  datatype Value =
    | IntValue(i: int)
    | UIntValue(u: nat)
    | FloatValue(f: real)
    | StringValue(chars: seq<char>)
    | OtherValue(size: nat)

  /** sizeof(SerialNode): a pointer, a size_t and an int. */
  const SerialNodeSize: nat := 12
  /** Allocate's default alignment. */
  const DefaultAlign: nat := 4
  /** The constructor's default buffer size. */
  const DefaultMaxSize: nat := 8 * 1024

  /** A node: where it sits, where its data was copied, the size and tag
      recorded, and the data itself. */
  datatype SerialNode = SerialNode(addr: nat, ptr: nat, size: nat, nodeType: SerialisedType, data: Value)

  /** _nodeType: int, unsigned int and float have their own tags; a C
      string is tagged by the string overload of AddNode; every other type
      is unknown. */
  function NodeType(v: Value): (t: SerialisedType)
    ensures t == TypeInt <==> v.IntValue?
    ensures t == TypeUInt <==> v.UIntValue?
    ensures t == TypeFloat <==> v.FloatValue?
    ensures t == TypeString <==> v.StringValue?
    ensures t == TypeUnknown <==> v.OtherValue?
  {
    match v
    case IntValue(_) => TypeInt
    case UIntValue(_) => TypeUInt
    case FloatValue(_) => TypeFloat
    case StringValue(_) => TypeString
    case OtherValue(_) => TypeUnknown
  }

  /** The bytes AddNode copies: sizeof(value), or strlen + 1 for a C string. */
  function ValueSize(v: Value): (n: nat)
    ensures v.StringValue? ==> n == |StringHashing.CString(v.chars)| + 1
    ensures v.IntValue? || v.UIntValue? || v.FloatValue? ==> n == 4
    ensures v.OtherValue? ==> n == v.size
  {
    match v
    case StringValue(chars) => |StringHashing.CString(chars)| + 1
    case OtherValue(size) => size
    case _ => 4
  }

  /** What the data copy holds: the value, and for a C string its
      characters up to the NUL. */
  function Stored(v: Value): (d: Value)
    ensures NodeType(d) == NodeType(v)
    ensures !v.StringValue? ==> d == v
    ensures v.StringValue? ==> d.chars == StringHashing.CString(v.chars)
  {
    match v
    case StringValue(chars) => StringValue(StringHashing.CString(chars))
    case _ => v
  }

  /** The position of the earliest entry whose key hash is `hash`. */
  function FindNode(nodes: seq<(nat, SerialNode)>, hash: nat): (r: Option<nat>)
    ensures r.None? <==> forall i :: 0 <= i < |nodes| ==> nodes[i].0 != hash
    ensures r.Some? ==> r.value < |nodes| && nodes[r.value].0 == hash
    ensures r.Some? ==> forall i :: 0 <= i < r.value ==> nodes[i].0 != hash
  {
    if |nodes| == 0 then None
    else if nodes[0].0 == hash then Some(0)
    else
      match FindNode(nodes[1..], hash)
      case None => None
      case Some(k) => Some(k + 1)
  }

  /** SerialNode::GetValue for a requested type: the typed overloads (int,
      unsigned int, float, char*) succeed with the stored data exactly when
      the node's tag is theirs; the generic one (requested TypeUnknown)
      always fails. A failure leaves `result` as it was. */
  function GetValue(node: SerialNode, requested: SerialisedType, result: Value): (r: (bool, Value))
    ensures r.0 <==> requested != TypeUnknown && node.nodeType == requested
    ensures r.0 ==> r.1 == node.data
    ensures !r.0 ==> r.1 == result
  {
    if requested != TypeUnknown && node.nodeType == requested then (true, node.data) else (false, result)
  }

  /** Whether a later node's record (12 bytes at addr) or its data shares a
      byte with an earlier node's data. */
  predicate Clobbers(later: SerialNode, earlier: SerialNode) {
    (later.addr < earlier.ptr + earlier.size && earlier.ptr < later.addr + SerialNodeSize) ||
    (later.ptr < earlier.ptr + earlier.size && earlier.ptr < later.ptr + later.size)
  }

  /** Entry i still holds the bytes AddNode copied: no later entry's record
      or data was written over them. Only such a node's GetValue reads back
      its `data`. */
  predicate Intact(nodes: seq<(nat, SerialNode)>, i: nat)
    requires i < |nodes|
  {
    forall j :: i < j < |nodes| ==> !Clobbers(nodes[j].1, nodes[i].1)
  }

  class Serialiser {
    const allocator: LinearAllocator
    var nodes: seq<(nat, SerialNode)>

    ghost predicate Valid()
      reads this, allocator
    {
      allocator.Valid()
    }

    /** The constructor initialises the allocator with maxSize bytes
        (`block` is malloc's result, 0 for failure). */
    constructor (maxSize: nat, block: nat)
      requires block + maxSize < SizeRange
      ensures Valid() && nodes == [] && fresh(allocator)
      ensures block != 0 ==> allocator.buffer == block && allocator.head == block && allocator.tail == block + maxSize
      ensures block == 0 ==> allocator.buffer == 0
    {
      var a := new LinearAllocator();
      var _ := a.Initialise(maxSize, block);
      allocator := a;
      nodes := [];
    }

    /** The destructor: releases the allocator's buffer. */
    method Destroy()
      requires Valid()
      modifies allocator
      ensures Valid() && allocator.buffer == 0 && nodes == old(nodes)
    {
      allocator.Release();
    }

    /** AddNode (both overloads): allocates the node, then its data; only
        when both succeed is one (hash of key, node) entry appended. A node
        allocation that succeeds is not given back when the data
        allocation fails. A node address that wraps to 0 counts as a
        failure, though the head has moved. */
    method AddNode(key: seq<char>, value: Value)
      requires Valid() && ValueSize(value) < SizeRange
      modifies this, allocator
      ensures Valid() && allocator.tail == old(allocator.tail)
      ensures var (nodeAddr, afterNode) := AllocStep(old(allocator.head), allocator.tail, SerialNodeSize, DefaultAlign);
        var (dataPtr, afterData) := AllocStep(afterNode, allocator.tail, ValueSize(value), DefaultAlign);
        (nodeAddr == 0 ==> allocator.head == afterNode && nodes == old(nodes)) &&
        (nodeAddr != 0 ==> allocator.head == afterData) &&
        (nodeAddr != 0 && dataPtr == 0 ==> nodes == old(nodes)) &&
        (nodeAddr != 0 && dataPtr != 0 ==>
          nodes == old(nodes) + [(StringHashing.Hash(key),
                                  SerialNode(nodeAddr, dataPtr, ValueSize(value), NodeType(value), Stored(value)))])
    {
      var nodeAddr := allocator.Allocate(SerialNodeSize, DefaultAlign);
      if nodeAddr != 0 {
        var dataPtr := allocator.Allocate(ValueSize(value), DefaultAlign);
        if dataPtr != 0 {
          var node := SerialNode(nodeAddr, dataPtr, ValueSize(value), NodeType(value), Stored(value));
          var keyHash := StringHashing.GetHash(key);
          nodes := nodes + [(keyHash, node)];
        }
      }
    }

    /** GetNode: the earliest entry whose key hash matches the key's, or
        none. */
    method GetNode(key: seq<char>) returns (r: Option<SerialNode>)
      ensures FindNode(nodes, StringHashing.Hash(key)).None? ==> r.None?
      ensures FindNode(nodes, StringHashing.Hash(key)).Some? ==>
        r == Some(nodes[FindNode(nodes, StringHashing.Hash(key)).value].1)
    {
      var hash := StringHashing.GetHash(key);
      var list := nodes;
      var i := 0;
      while i < |list|
        invariant i <= |list|
        invariant forall j :: 0 <= j < i ==> list[j].0 != hash
      {
        if list[i].0 == hash {
          FindEarliest(list, hash, i);
          return Some(list[i].1);
        }
        i := i + 1;
      }
      return None;
    }
  }

  /** The first position holding a hash is the one FindNode reports. */
  lemma FindEarliest(nodes: seq<(nat, SerialNode)>, hash: nat, i: nat)
    requires i < |nodes| && nodes[i].0 == hash
    requires forall j :: 0 <= j < i ==> nodes[j].0 != hash
    ensures FindNode(nodes, hash) == Some(i)
  {
  }

  /** Appending an entry leaves every earlier lookup as it was, and makes a
      hash not present before find the new entry. */
  lemma {:induction false} FindAfterAppend(nodes: seq<(nat, SerialNode)>, entry: (nat, SerialNode), hash: nat)
    ensures FindNode(nodes, hash).Some? ==> FindNode(nodes + [entry], hash) == FindNode(nodes, hash)
    ensures FindNode(nodes, hash).None? && entry.0 == hash ==> FindNode(nodes + [entry], hash) == Some(|nodes|)
    ensures FindNode(nodes, hash).None? && entry.0 != hash ==> FindNode(nodes + [entry], hash).None?
  {
    var all := nodes + [entry];
    match FindNode(nodes, hash)
    case Some(k) =>
      assert all[k] == nodes[k];
      FindEarliest(all, hash, k);
    case None =>
      if entry.0 == hash {
        FindEarliest(all, hash, |nodes|);
      } else {
        assert forall i :: 0 <= i < |all| ==> all[i].0 != hash by {
          forall i | 0 <= i < |all|
            ensures all[i].0 != hash
          {
            if i < |nodes| {
              assert all[i] == nodes[i];
            }
          }
        }
      }
  }

  /** Round trip: a typed value added under a key no earlier entry's hash
      matches is read back, by the GetValue of its own type, as the value
      (a C string as its characters up to the NUL). */
  lemma AddThenGet(nodes: seq<(nat, SerialNode)>, key: seq<char>, node: SerialNode, value: Value, result: Value)
    requires FindNode(nodes, StringHashing.Hash(key)).None?
    requires node.nodeType == NodeType(value) && node.data == Stored(value)
    requires !value.OtherValue?
    ensures var all := nodes + [(StringHashing.Hash(key), node)];
      FindNode(all, StringHashing.Hash(key)) == Some(|nodes|) &&
      GetValue(all[|nodes|].1, NodeType(value), result) == (true, Stored(value))
  {
    FindAfterAppend(nodes, (StringHashing.Hash(key), node), StringHashing.Hash(key));
  }

  /** A value of any other type is stored but can never be read back. */
  lemma UnknownNeverRead(node: SerialNode, requested: SerialisedType, result: Value)
    requires node.nodeType == TypeUnknown
    ensures GetValue(node, requested, result) == (false, result)
  {
  }

  /** Asking for the wrong type fails and leaves the result untouched,
      e.g. reading an int node as an unsigned int. */
  lemma WrongTypeFails(i: int, node: SerialNode, result: Value)
    requires node.nodeType == NodeType(IntValue(i))
    ensures GetValue(node, TypeUInt, result) == (false, result)
    ensures GetValue(node, TypeFloat, result) == (false, result)
  {
  }

  /** AddNode from head h places its record, then `size` bytes of data; the
      head then lags the data by ALIGN_UP's padding, so the next AddNode's
      record starts inside that data exactly when (h + size) % 4 > h % 4.
      From an aligned head that is every size not a multiple of 4. */
  lemma NextNodeOverlapsData(h: nat, t: nat, size: nat)
    requires h + size + 28 < t < SizeRange
    ensures var (node, afterNode) := AllocStep(h, t, SerialNodeSize, DefaultAlign);
      var (data, afterData) := AllocStep(afterNode, t, size, DefaultAlign);
      var (next, _) := AllocStep(afterData, t, SerialNodeSize, DefaultAlign);
      node != 0 && data != 0 && next != 0 &&
      (next < data + size <==> (h + size) % 4 > h % 4) &&
      (h % 4 == 0 ==> (next < data + size <==> size % 4 != 0))
  {
    AlignUpBounds(h, 4);
    AlignUpBounds(h + 12, 4);
    AlignUpBounds(h + 12 + size, 4);
    assert AlignUp(h + 12, 4) == h + 16 - h % 4;
    assert AlignUp(h + 12 + size, 4) == h + 16 + size - (h + size) % 4;
  }

  /** The C string "ab" takes three bytes with its NUL and is stored whole. */
  lemma ShortStringStored()
    ensures ValueSize(StringValue("ab")) == 3 && Stored(StringValue("ab")) == StringValue("ab")
  {
    StringHashing.CStringOfPrefix("ab", 2);
    assert "ab"[..2] == "ab";
  }

  /** From an aligned head, AddNode("a", "ab") and then AddNode("b", 1) put
      the second record on the first node's three data bytes: the first
      node is no longer intact, so the source's GetValue on "a" reads the
      record's bytes, not "ab". */
  lemma {:induction false} ShortStringThenIntClobbered(h: nat, t: nat, first: SerialNode, second: SerialNode)
    requires h % 4 == 0 && h + 32 < t < SizeRange
    requires var (n1, a1) := AllocStep(h, t, SerialNodeSize, DefaultAlign);
      var (d1, b1) := AllocStep(a1, t, ValueSize(StringValue("ab")), DefaultAlign);
      var (n2, a2) := AllocStep(b1, t, SerialNodeSize, DefaultAlign);
      var (d2, _) := AllocStep(a2, t, ValueSize(IntValue(1)), DefaultAlign);
      first == SerialNode(n1, d1, ValueSize(StringValue("ab")), NodeType(StringValue("ab")), Stored(StringValue("ab"))) &&
      second == SerialNode(n2, d2, ValueSize(IntValue(1)), NodeType(IntValue(1)), Stored(IntValue(1)))
    ensures first.addr != 0 && first.ptr != 0 && second.addr == first.ptr
    ensures first.data == StringValue("ab") && second.data == IntValue(1)
    ensures !Intact([(StringHashing.Hash("a"), first), (StringHashing.Hash("b"), second)], 0)
  {
    ShortStringStored();
    assert AlignUp(h, 4) == h + 4;
    assert AllocStep(h, t, 12, 4) == (h + 4, h + 12);
    assert AlignUp(h + 12, 4) == h + 16;
    assert AllocStep(h + 12, t, 3, 4) == (h + 16, h + 15);
    assert AlignUp(h + 15, 4) == h + 16;
    assert AllocStep(h + 15, t, 12, 4) == (h + 16, h + 27);
    assert AlignUp(h + 27, 4) == h + 28;
    assert AllocStep(h + 27, t, 4, 4) == (h + 28, h + 31);
    var all := [(StringHashing.Hash("a"), first), (StringHashing.Hash("b"), second)];
    assert Clobbers(all[1].1, all[0].1);
  }

  /** With the intended allocation step, the next AddNode's record starts
      after the previous node's data, whatever its size. */
  lemma IntendedNextNodeAfterData(h: nat, t: nat, size: nat)
    requires h + 4 < SizeRange && t + 4 < SizeRange
    ensures var (node, afterNode) := IntendedAllocStep(h, t, SerialNodeSize, DefaultAlign);
      node != 0 ==>
        afterNode + 4 < SizeRange &&
        var (data, afterData) := IntendedAllocStep(afterNode, t, size, DefaultAlign);
        data != 0 ==>
          afterData + 4 < SizeRange &&
          (IntendedAllocStep(afterData, t, SerialNodeSize, DefaultAlign).0 != 0 ==>
             data + size < IntendedAllocStep(afterData, t, SerialNodeSize, DefaultAlign).0)
  {
  }
}
