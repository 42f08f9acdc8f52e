/** core/array.h: Array<T>, a heap buffer with a fill pointer that can
    optionally double when full. m_buffer is `buf` (null when unallocated),
    m_head - m_buffer is `count` and m_tail - m_buffer is the length of
    `buf`. The outcome of each malloc is a parameter (`mallocOk`); sort is
    not modelled. */
module Containers {
  import opened Wrappers

  class Array<T> {
    var buf: array?<T>
    var count: nat
    var grow: bool
    /** The value a default-constructed T holds (placement new T). */
    const blank: T

    /** buffer <= head <= tail, and an allocated buffer is never empty. */
    ghost predicate Valid()
      reads this
    {
      (buf == null ==> count == 0) &&
      (buf != null ==> 0 < buf.Length && count <= buf.Length)
    }

    /** The live elements, from m_buffer up to m_head. */
    function Contents(): (c: seq<T>)
      requires Valid()
      reads this, buf
      ensures |c| == count
    {
      if buf == null then [] else buf[..count]
    }

    /** size(): m_head - m_buffer. */
    function Size(): (n: nat)
      requires Valid()
      reads this, buf
      ensures n == |Contents()|
    {
      count
    }

    /** maxSize(): m_tail - m_buffer, zero while unallocated. */
    function MaxSize(): (n: nat)
      requires Valid()
      reads this
      ensures Size() <= n
      ensures n == 0 <==> buf == null
    {
      if buf == null then 0 else buf.Length
    }

    /** A new array owns no buffer, is empty and does not grow. */
    constructor (blank: T)
      ensures Valid() && buf == null && Contents() == [] && MaxSize() == 0 && !grow
      ensures this.blank == blank
    {
      this.blank := blank;
      buf := null;
      count := 0;
      grow := false;
    }

    /** destroy: frees the buffer; size and capacity become 0 (the grow
        flag is kept). */
    method Destroy()
      requires Valid()
      modifies this
      ensures Valid() && buf == null && Size() == 0 && MaxSize() == 0
      ensures grow == old(grow)
    {
      buf := null;
      count := 0;
    }

    /** deleteAll: the array becomes empty and keeps its buffer. */
    method DeleteAll()
      requires Valid()
      modifies this
      ensures Valid() && buf == old(buf) && Contents() == [] && MaxSize() == old(MaxSize())
      ensures grow == old(grow)
    {
      count := 0;
    }

    /** operator[]: the element at idx when idx < size(), otherwise null
        (None). The pointer's use for writing is not modelled. */
    function Get(idx: nat): (r: Option<T>)
      requires Valid()
      reads this, buf
      ensures r.Some? <==> idx < Size()
      ensures r.Some? ==> r.value == Contents()[idx]
    {
      if idx < count then Some(buf[idx]) else None
    }

    /** init: fails without change for a zero size or an already allocated
        array (and when malloc fails); otherwise an empty array of capacity
        `size` with the given grow flag. */
    method Init(size: nat, grow: bool, mallocOk: bool) returns (ok: bool)
      requires Valid()
      modifies this
      ensures Valid()
      ensures ok <==> size != 0 && old(buf) == null && mallocOk
      ensures ok ==> fresh(buf) && Contents() == [] && MaxSize() == size && this.grow == grow
      ensures !ok ==> buf == old(buf) && count == old(count) && this.grow == old(this.grow)
    {
      if size == 0 || buf != null {
        return false;
      }
      if mallocOk {
        buf := new T[size](_ => blank);
        count := 0;
        this.grow := grow;
        return true;
      }
      return false;
    }

    /** fastDelete: with index < size(), the last element is moved into
        slot `index` and the array shrinks by one; otherwise nothing
        changes. */
    method FastDelete(index: nat)
      requires Valid()
      modifies this, buf
      ensures Valid() && buf == old(buf) && grow == old(grow)
      ensures index < old(Size()) ==>
        Contents() == old(Contents())[index := old(Contents())[old(Size()) - 1]][..old(Size()) - 1]
      ensures index >= old(Size()) ==> Contents() == old(Contents()) && count == old(count)
    {
      if count > 0 && index < count {
        buf[index] := buf[count - 1];
        count := count - 1;
      }
    }

    /** push_back(): when full, a growable array moves to a buffer of twice
        the capacity holding the same elements (and a non-growable one, or
        a failed malloc, returns null); then a default-constructed element
        is appended and its position returned. A growable array that has
        no buffer would write past a zero-sized block, so it must not be
        asked to grow with a successful malloc. */
    method PushBackDefault(mallocOk: bool) returns (slot: Option<nat>)
      requires Valid()
      requires buf == null && grow ==> !mallocOk
      modifies this, buf
      ensures Valid() && grow == old(grow)
      ensures old(Size()) < old(MaxSize()) ==>
        slot == Some(old(Size())) && buf == old(buf) && Contents() == old(Contents()) + [blank]
      ensures old(Size()) == old(MaxSize()) && grow && mallocOk ==>
        slot == Some(old(Size())) && fresh(buf) && MaxSize() == 2 * old(MaxSize()) &&
        Contents() == old(Contents()) + [blank]
      ensures old(Size()) == old(MaxSize()) && !(grow && mallocOk) ==>
        slot == None && buf == old(buf) && count == old(count)
    {
      if buf == null || count >= buf.Length {
        if grow && mallocOk {
          var newBuf := new T[2 * buf.Length](_ => blank);
          Copy(buf, newBuf);
          buf := newBuf;
        } else {
          return None;
        }
      }
      buf[count] := blank;
      count := count + 1;
      slot := Some(count - 1);
    }

    /** push_back(value): push_back() followed by a write of the value. The
        source dereferences the returned pointer unchecked, so the push
        must succeed. */
    method PushBack(value: T, mallocOk: bool) returns (slot: nat)
      requires Valid()
      requires Size() < MaxSize() || (buf != null && grow && mallocOk)
      modifies this, buf
      ensures Valid() && grow == old(grow)
      ensures slot == old(Size()) && Contents() == old(Contents()) + [value]
      ensures old(Size()) < old(MaxSize()) ==> buf == old(buf)
      ensures MaxSize() == old(MaxSize()) || MaxSize() == 2 * old(MaxSize())
    {
      var p := PushBackDefault(mallocOk);
      slot := p.value;
      buf[slot] := value;
    }
  }

  /** memcpy of the whole of `src` to the front of `dst`. */
  method Copy<T>(src: array<T>, dst: array<T>)
    requires src.Length <= dst.Length && src != dst
    modifies dst
    ensures dst[..src.Length] == src[..]
    ensures dst[src.Length..] == old(dst[src.Length..])
  {
    var i := 0;
    while i < src.Length
      invariant 0 <= i <= src.Length
      invariant dst[..i] == src[..i]
      invariant dst[src.Length..] == old(dst[src.Length..])
    {
      dst[i] := src[i];
      i := i + 1;
    }
  }
}
