/** framework/graphics/vertex_descriptor.h: the description of a vertex
    layout as an ordered list of elements.

    Format codes are the DXGI values the enum is defined from; unsigned int
    is 32 bits wide. The semantic name is a string (the 32-byte bound that
    strcpy_s enforces is not modelled). */
module VertexLayout {
  import opened Wrappers

  /** The number of values of a 32-bit unsigned int. */
  const UIntRange: nat := 0x1_0000_0000

  /** DXGI_FORMAT_R32G32_FLOAT, DXGI_FORMAT_R32G32B32_FLOAT and
      DXGI_FORMAT_R32G32B32A32_FLOAT. */
  const Float2: nat := 16
  const Float3: nat := 6
  const Float4: nat := 2

  /** D3D10_INPUT_PER_VERTEX_DATA and D3D10_INPUT_PER_INSTANCE_DATA. */
  datatype ElementType = PerVertex | PerInstance

  datatype VertexElement = VertexElement(
    semanticName: string,
    semanticIndex: nat,
    format: nat,
    streamIndex: nat,
    byteOffset: nat,
    elementType: ElementType,
    instanceDrawStep: nat)

  /** GetVertexFormatSize: the byte size of a 2-, 3- or 4-float vector, and 0
      for any other format code. */
  function FormatSize(f: nat): (n: nat)
    ensures f == Float2 <==> n == 8
    ensures f == Float3 <==> n == 12
    ensures f == Float4 <==> n == 16
    ensures f != Float2 && f != Float3 && f != Float4 <==> n == 0
  {
    if f == Float2 then 8
    else if f == Float3 then 12
    else if f == Float4 then 16
    else 0
  }

  /** The default constructor: every numeric field zero and the type
      PerVertex. The name is left as it was (`name`), because the
      constructor does not set it. */
  function DefaultElement(name: string): (e: VertexElement)
    ensures e.semanticIndex == 0 && e.format == 0 && e.streamIndex == 0
    ensures e.byteOffset == 0 && e.instanceDrawStep == 0 && e.elementType == PerVertex
    ensures FormatSize(e.format) == 0
  {
    VertexElement(name, 0, 0, 0, 0, PerVertex, 0)
  }

  /** operator= as written: the semantic index is assigned to itself, so the
      target keeps its own index while every other field comes from `src`. */
  function Assign(dst: VertexElement, src: VertexElement): (r: VertexElement)
    ensures r.semanticIndex == dst.semanticIndex
    ensures r.(semanticIndex := src.semanticIndex) == src
    ensures r == src <==> dst.semanticIndex == src.semanticIndex
  {
    src.(semanticIndex := dst.semanticIndex)
  }

  /** Assigning an element with semantic index 1 onto a default element
      yields index 0, not a copy. */
  lemma AssignLosesSemanticIndex(name: string)
    ensures var src := DefaultElement(name).(semanticIndex := 1);
      Assign(DefaultElement(name), src) != src
  {
    var src := DefaultElement(name).(semanticIndex := 1);
    assert Assign(DefaultElement(name), src).semanticIndex == 0;
  }

  /** The evidently intended operator=: every field, the semantic index
      included, is copied from `src`. */
  function AssignIntended(dst: VertexElement, src: VertexElement): (r: VertexElement)
    ensures r == src
  {
    dst.(semanticName := src.semanticName, semanticIndex := src.semanticIndex, format := src.format,
         streamIndex := src.streamIndex, byteOffset := src.byteOffset, elementType := src.elementType,
         instanceDrawStep := src.instanceDrawStep)
  }

  /** The int stream argument compared with an unsigned field: the
      comparison converts it to unsigned. */
  function AsUnsigned(i: int): (u: nat)
    ensures u < UIntRange
    ensures 0 <= i < UIntRange ==> u == i
  {
    i % UIntRange
  }

  /** The element GetVertexSize settles on: the last element in list order
      among those on the stream with the largest byte offset, or None when
      no element is on the stream. */
  function Pick(elems: seq<VertexElement>, stream: nat): (r: Option<nat>)
    ensures r.None? <==> forall j :: 0 <= j < |elems| ==> elems[j].streamIndex != stream
    ensures r.Some? ==> r.value < |elems| && elems[r.value].streamIndex == stream
    ensures r.Some? ==> forall j :: 0 <= j < |elems| && elems[j].streamIndex == stream ==>
      elems[j].byteOffset <= elems[r.value].byteOffset
    ensures r.Some? ==> forall j :: r.value < j < |elems| && elems[j].streamIndex == stream ==>
      elems[j].byteOffset < elems[r.value].byteOffset
  {
    if |elems| == 0 then None
    else
      var p := Pick(elems[..|elems| - 1], stream);
      var last := elems[|elems| - 1];
      if last.streamIndex == stream && (p.None? || last.byteOffset >= elems[p.value].byteOffset)
      then Some(|elems| - 1)
      else p
  }

  /** One more element extends the pick exactly as one loop step does. */
  lemma PickStep(elems: seq<VertexElement>, i: nat, stream: nat)
    requires i < |elems|
    ensures var p := Pick(elems[..i], stream);
      Pick(elems[..i + 1], stream) ==
        if elems[i].streamIndex == stream && (p.None? || elems[i].byteOffset >= elems[p.value].byteOffset)
        then Some(i) else p
  {
    assert elems[..i + 1][..i] == elems[..i];
  }

  /** GetVertexSize's result: the largest offset on the stream plus the
      format size of the element picked there (wrapping as unsigned int),
      or 0 when the stream has no element. */
  function VertexSize(elems: seq<VertexElement>, stream: int): (n: nat)
    ensures n < UIntRange
    ensures (forall j :: 0 <= j < |elems| ==> elems[j].streamIndex != AsUnsigned(stream)) ==> n == 0
  {
    match Pick(elems, AsUnsigned(stream))
    case None => 0
    case Some(k) => (elems[k].byteOffset + FormatSize(elems[k].format)) % UIntRange
  }

  /** The morph renderer's layout, a 2-float position at offset 0 and a
      4-float colour at offset 8 on stream 0, is 24 bytes per vertex. */
  lemma MorphVertexSize(e: VertexElement)
    ensures var pos := e.(byteOffset := 0, streamIndex := 0, elementType := PerVertex, format := Float2);
      var col := pos.(byteOffset := 8, format := Float4);
      VertexSize([pos, col], 0) == 24
  {
    var pos := e.(byteOffset := 0, streamIndex := 0, elementType := PerVertex, format := Float2);
    var col := pos.(byteOffset := 8, format := Float4);
    assert [pos, col][..1] == [pos];
    assert Pick([pos, col], 0) == Some(1);
  }

  /** The sprite renderers' layout, two 2-float elements at offsets 0 and 8
      on stream 0 (the second renamed), is 16 bytes per vertex. */
  lemma SpriteVertexSize(e: VertexElement, name: string)
    ensures var pos := e.(byteOffset := 0, streamIndex := 0, elementType := PerVertex, format := Float2);
      var uv := pos.(byteOffset := 8, semanticName := name);
      VertexSize([pos, uv], 0) == 16
  {
    var pos := e.(byteOffset := 0, streamIndex := 0, elementType := PerVertex, format := Float2);
    var uv := pos.(byteOffset := 8, semanticName := name);
    assert [pos, uv][..1] == [pos];
    assert Pick([pos, uv], 0) == Some(1);
  }

  /** Because the comparison is >=, of two elements at the same largest
      offset the later one decides the size. */
  lemma LaterElementWinsTie(a: VertexElement, b: VertexElement)
    requires a.streamIndex == b.streamIndex == 0 && a.byteOffset == b.byteOffset < 8
    requires a.format == Float4 && b.format == Float2
    ensures VertexSize([a, b], 0) == a.byteOffset + 8
  {
    assert [a, b][..1] == [a];
  }

  class VertexDescriptor {
    var elements: seq<VertexElement>

    constructor ()
      ensures elements == []
    {
      elements := [];
    }

    /** AddElement: appends at the end of the list. */
    method AddElement(e: VertexElement)
      modifies this
      ensures elements == old(elements) + [e]
    {
      elements := elements + [e];
    }

    /** Invalidate: removes every element. */
    method Invalidate()
      modifies this
      ensures elements == []
    {
      elements := [];
    }

    /** GetVertexSize: one pass keeping the largest offset seen on the
        stream (ties go to the later element). */
    method GetVertexSize(stream: int) returns (size: nat)
      ensures size == VertexSize(elements, stream)
    {
      var elems, target := elements, AsUnsigned(stream);
      var largest: Option<nat> := None;
      var largestOffset := 0;
      var i := 0;
      while i < |elems|
        invariant i <= |elems|
        invariant largest == Pick(elems[..i], target)
        invariant largestOffset == if largest.None? then 0 else elems[largest.value].byteOffset
      {
        PickStep(elems, i, target);
        if elems[i].streamIndex == target && elems[i].byteOffset >= largestOffset {
          largestOffset := elems[i].byteOffset;
          largest := Some(i);
        }
        i := i + 1;
      }
      assert elems[..i] == elems;
      if largest.Some? {
        return (largestOffset + FormatSize(elems[largest.value].format)) % UIntRange;
      }
      return 0;
    }
  }
}
