/** biomorphs/morph_render.cpp: the recursive mesh builder.

    `_drawRecursive` writes one quad (4 vertices, 6 indices) per tree node in
    pre-order into the locked vertex and index buffers, threading a vertex
    offset and the two write cursors through the recursion. Vertex positions
    depend on float trigonometry and are not modelled: a vertex keeps which
    corner of its quad it is and the node's colour, a symbolic term naming
    the colour function the source evaluates (BASECOLOUR or BRANCHCOLOUR at
    a depth). */
module MorphRender {
  import opened MorphDna
  import opened Quads

  const MaxVertices: nat := 4 * 1024 * 1024
  const MaxIndices: nat := MaxVertices * 6

  /** The colour payload of a node. */
  datatype Colour = BaseColour(dna: MorphDNA) | BranchColour(dna: MorphDNA, depth: int)

  /** A vertex: corner 0..3 of its branch quad, and the branch colour. */
  datatype MorphVertex = MorphVertex(corner: nat, colour: Colour)

  /** The integer part of RecursionParams (origin, angle and length are floats). */
  datatype RecursionParams = RecursionParams(vertexOffset: int, branchDepth: int, colour: Colour)

  /** Number of quads a subtree of the given depth draws. */
  function QuadCount(depth: int): nat
    decreases depth
  {
    if depth <= 0 then 0 else 1 + 2 * QuadCount(depth - 1)
  }

  /** Vertex k of the pre-order vertex stream of a subtree: the node's own
      quad, then the first child's vertices, then the second child's; both
      children carry the colour BRANCHCOLOUR(dna, depth - 1). */
  function VertexAt(dna: MorphDNA, depth: int, colour: Colour, k: int): MorphVertex
    requires 0 <= k < 4 * QuadCount(depth)
    decreases depth
  {
    var q := QuadCount(depth - 1);
    if k < 4 then MorphVertex(k, colour)
    else if k < 4 + 4 * q then VertexAt(dna, depth - 1, BranchColour(dna, depth - 1), k - 4)
    else VertexAt(dna, depth - 1, BranchColour(dna, depth - 1), k - 4 - 4 * q)
  }

  /** Index k of the pre-order index stream of a subtree whose vertices
      start at `offset`: the node's quad over offset..offset+3, then the
      first child at offset + 4, then the second child right after the first
      child's vertices. */
  function IndexAt(depth: int, offset: int, k: int): int
    requires 0 <= k < 6 * QuadCount(depth)
    decreases depth
  {
    var q := QuadCount(depth - 1);
    if k < 6 then offset + QuadCorner(k)
    else if k < 6 + 6 * q then IndexAt(depth - 1, offset + 4, k - 6)
    else IndexAt(depth - 1, offset + 4 + 4 * q, k - 6 - 6 * q)
  }

  /** A subtree of depth d draws 2^d - 1 quads, hence 4(2^d - 1) vertices
      and 6(2^d - 1) indices. */
  lemma {:induction false} QuadCountIsPow2MinusOne(d: nat)
    ensures QuadCount(d) == Pow2(d) - 1
  {
    if d > 0 {
      QuadCountIsPow2MinusOne(d - 1);
    }
  }

  /** Closed form of the index stream: the t-th quad of indices (in
      pre-order) uses exactly the four vertices of the t-th quad of vertices,
      offset + 4t .. offset + 4t + 3, in the pattern 0,2,1,0,3,2. */
  lemma {:induction false} IndexAtClosedForm(depth: int, offset: int, t: int, j: int)
    requires 0 <= t < QuadCount(depth) && 0 <= j < 6
    ensures IndexAt(depth, offset, 6 * t + j) == offset + 4 * t + QuadCorner(j)
    decreases depth
  {
    var q := QuadCount(depth - 1);
    if t == 0 {
    } else if t <= q {
      IndexAtClosedForm(depth - 1, offset + 4, t - 1, j);
      assert 6 * t + j - 6 == 6 * (t - 1) + j;
    } else {
      IndexAtClosedForm(depth - 1, offset + 4 + 4 * q, t - 1 - q, j);
      assert 6 * t + j - 6 - 6 * q == 6 * (t - 1 - q) + j;
    }
  }

  /** Every index of a subtree lies in [offset, offset + 4 * QuadCount):
      a subtree only references its own vertices. */
  lemma IndexAtInRange(depth: int, offset: int, k: int)
    requires 0 <= k < 6 * QuadCount(depth)
    ensures offset <= IndexAt(depth, offset, k) < offset + 4 * QuadCount(depth)
  {
    IndexAtClosedForm(depth, offset, k / 6, k % 6);
  }

  /** Colour of a node strictly below the root of a subtree of this depth. */
  predicate IsBranchColour(dna: MorphDNA, c: Colour, depth: int) {
    c.BranchColour? && c.dna == dna && 0 <= c.depth < depth
  }

  /** Vertex 4t + c is corner c of the t-th quad, all four vertices of a
      quad share one colour, the root quad has the subtree's colour and every
      other quad has a BRANCHCOLOUR of a smaller depth. */
  lemma {:induction false} VertexAtShape(dna: MorphDNA, depth: int, colour: Colour, t: int, c: int)
    requires 0 <= t < QuadCount(depth) && 0 <= c < 4
    ensures VertexAt(dna, depth, colour, 4 * t + c).corner == c
    ensures VertexAt(dna, depth, colour, 4 * t + c).colour == VertexAt(dna, depth, colour, 4 * t).colour
    ensures t == 0 ==> VertexAt(dna, depth, colour, c).colour == colour
    ensures t > 0 ==> IsBranchColour(dna, VertexAt(dna, depth, colour, 4 * t + c).colour, depth)
    decreases depth
  {
    var q := QuadCount(depth - 1);
    var bc := BranchColour(dna, depth - 1);
    if t == 0 {
    } else if t <= q {
      VertexAtShape(dna, depth - 1, bc, t - 1, c);
      assert 4 * t + c - 4 == 4 * (t - 1) + c;
    } else {
      VertexAtShape(dna, depth - 1, bc, t - 1 - q, c);
      assert 4 * t + c - 4 - 4 * q == 4 * (t - 1 - q) + c;
    }
  }

  /** True when DrawBiomorph's guard refuses to draw: a strict comparison
      against the capacities, checked before drawing only. */
  predicate GuardRejects(verticesWritten: int, indicesWritten: int) {
    verticesWritten > MaxVertices || indicesWritten > MaxIndices
  }

  /** True when a biomorph of this genome fits after the current contents. */
  predicate Fits(verticesWritten: int, indicesWritten: int, dna: MorphDNA)
    requires MorphDna.Valid(dna)
  {
    0 <= verticesWritten && 0 <= indicesWritten &&
    verticesWritten + 4 * QuadCount(BaseDepth(dna)) <= MaxVertices &&
    indicesWritten + 6 * QuadCount(BaseDepth(dna)) <= MaxIndices
  }

  /** The guard does not ensure the new biomorph fits: with both buffers
      exactly full the guard lets every genome through, and none fits. */
  lemma GuardAdmitsOverflow(dna: MorphDNA)
    requires MorphDna.Valid(dna)
    ensures !GuardRejects(MaxVertices, MaxIndices)
    ensures !Fits(MaxVertices, MaxIndices, dna)
  {
    assert QuadCount(BaseDepth(dna)) >= 1;
  }

  /** QuadCount grows with depth. */
  lemma {:induction false} QuadCountMonotone(d: int, e: int)
    requires d <= e
    ensures QuadCount(d) <= QuadCount(e)
    decreases e - d
  {
    if d < e {
      QuadCountMonotone(d, e - 1);
    }
  }

  /** After StartRendering every valid genome fits: the deepest tree (depth
      16) needs 65535 quads, far below the buffer capacities. */
  lemma FreshBuffersFit(dna: MorphDNA)
    requires MorphDna.Valid(dna)
    ensures Fits(0, 0, dna)
    ensures QuadCount(BaseDepth(dna)) <= 65535
  {
    QuadCountMonotone(BaseDepth(dna), 16);
    QuadCountAtSixteen();
  }

  lemma QuadCountAtSixteen()
    ensures QuadCount(16) == 65535
  {
    assert QuadCount(1) == 1;
    assert QuadCount(2) == 3;
    assert QuadCount(4) == 15;
    assert QuadCount(8) == 255;
    assert QuadCount(12) == 4095;
  }

  /** An index count of 6q stands for 4q vertices. */
  lemma VerticesOfIndexCount(n: int, q: nat)
    requires n == 6 * q
    ensures (n / 6) * 4 == 4 * q
  {
  }

  class MorphRenderer {
    /** The locked vertex and index buffers (kMaxVertices, kMaxIndices). */
    const vertices: array<MorphVertex>
    const indices: array<int>
    var verticesWritten: int
    var indicesWritten: int
    /** Quads written since StartRendering. */
    ghost var quadsWritten: nat

    ghost predicate Buffers()
      reads this
    {
      vertices.Length == MaxVertices && indices.Length == MaxIndices
    }

    /** The running counters stay at 4k and 6k for k quads. */
    ghost predicate Valid()
      reads this
    {
      Buffers() &&
      verticesWritten == 4 * quadsWritten && indicesWritten == 6 * quadsWritten
    }

    /** The constructor leaves the counters unset; StartRendering sets them. */
    constructor ()
      ensures Buffers() && fresh(vertices) && fresh(indices)
    {
      vertices := new MorphVertex[MaxVertices];
      indices := new int[MaxIndices];
    }

    /** StartRendering: both counters return to 0 (the buffer locks are
        device calls and not modelled). */
    method StartRendering()
      requires Buffers()
      modifies this
      ensures Valid()
      ensures verticesWritten == 0 && indicesWritten == 0 && quadsWritten == 0
    {
      verticesWritten, indicesWritten := 0, 0;
      quadsWritten := 0;
    }

    /** One branch's quad: its four vertices at the vertex cursor and the six
        indices 0,2,1,0,3,2 above vertexOffset at the index cursor. */
    method EmitQuad(colour: Colour, vertexOffset: int, vCursor: nat, iCursor: nat)
      requires vCursor + 4 <= vertices.Length && iCursor + 6 <= indices.Length
      modifies vertices, indices
      ensures forall k :: vCursor <= k < vCursor + 4 ==> vertices[k] == MorphVertex(k - vCursor, colour)
      ensures forall k :: iCursor <= k < iCursor + 6 ==> indices[k] == vertexOffset + QuadCorner(k - iCursor)
      ensures forall k :: 0 <= k < vertices.Length && !(vCursor <= k < vCursor + 4) ==> vertices[k] == old(vertices[k])
      ensures forall k :: 0 <= k < indices.Length && !(iCursor <= k < iCursor + 6) ==> indices[k] == old(indices[k])
    {
      vertices[vCursor] := MorphVertex(0, colour);
      vertices[vCursor + 1] := MorphVertex(1, colour);
      vertices[vCursor + 2] := MorphVertex(2, colour);
      vertices[vCursor + 3] := MorphVertex(3, colour);

      indices[iCursor] := vertexOffset + 0;
      indices[iCursor + 1] := vertexOffset + 2;
      indices[iCursor + 2] := vertexOffset + 1;
      indices[iCursor + 3] := vertexOffset + 0;
      indices[iCursor + 4] := vertexOffset + 3;
      indices[iCursor + 5] := vertexOffset + 2;
    }

    /** `_drawRecursive`: write the subtree at the two cursors and return the
        number of indices written; nothing outside the written runs changes. */
    method DrawRecursive(dna: MorphDNA, params: RecursionParams, vCursor: nat, iCursor: nat)
      returns (indexCount: int)
      requires vCursor + 4 * QuadCount(params.branchDepth) <= vertices.Length
      requires iCursor + 6 * QuadCount(params.branchDepth) <= indices.Length
      modifies vertices, indices
      ensures indexCount == 6 * QuadCount(params.branchDepth)
      ensures forall k :: vCursor <= k < vCursor + 4 * QuadCount(params.branchDepth) ==>
        vertices[k] == VertexAt(dna, params.branchDepth, params.colour, k - vCursor)
      ensures forall k :: iCursor <= k < iCursor + 6 * QuadCount(params.branchDepth) ==>
        indices[k] == IndexAt(params.branchDepth, params.vertexOffset, k - iCursor)
      ensures forall k :: 0 <= k < vertices.Length && !(vCursor <= k < vCursor + 4 * QuadCount(params.branchDepth)) ==>
        vertices[k] == old(vertices[k])
      ensures forall k :: 0 <= k < indices.Length && !(iCursor <= k < iCursor + 6 * QuadCount(params.branchDepth)) ==>
        indices[k] == old(indices[k])
      decreases params.branchDepth
    {
      if params.branchDepth <= 0 {
        return 0;
      }
      var q := QuadCount(params.branchDepth - 1);
      assert QuadCount(params.branchDepth) == 1 + 2 * q;

      // this branch's quad
      EmitQuad(params.colour, params.vertexOffset, vCursor, iCursor);
      var v := vCursor + 4;
      var i := iCursor + 6;

      indexCount := 6;
      if params.branchDepth > 0 {
        var newDepth := params.branchDepth - 1;
        var branchColour := BranchColour(dna, newDepth);
        var childParams := RecursionParams(params.vertexOffset + 4, params.branchDepth - 1, branchColour);
        var ch0Indices := DrawRecursive(dna, childParams, v, i);
        i := i + ch0Indices;
        VerticesOfIndexCount(ch0Indices, q);
        v := v + (ch0Indices / 6) * 4;
        childParams := childParams.(vertexOffset := childParams.vertexOffset + (ch0Indices / 6) * 4);
        var ch1Indices := DrawRecursive(dna, childParams, v, i);
        i := i + ch1Indices;
        v := v + (ch1Indices / 6) * 4;
        indexCount := indexCount + ch0Indices + ch1Indices;
      }
    }

    /** DrawBiomorph: unless the guard fires, draw the whole tree of depth
        BASEDEPTH(dna) after the vertices and indices already written, with
        vertexOffset = the vertex counter, and advance both counters. The
        caller must not overflow the buffers; the guard alone does not
        prevent it (GuardAdmitsOverflow). */
    method DrawBiomorph(dna: MorphDNA)
      requires Valid() && MorphDna.Valid(dna)
      requires GuardRejects(verticesWritten, indicesWritten) || Fits(verticesWritten, indicesWritten, dna)
      modifies this, vertices, indices
      ensures Valid()
      ensures GuardRejects(old(verticesWritten), old(indicesWritten)) ==>
        verticesWritten == old(verticesWritten) && indicesWritten == old(indicesWritten) &&
        vertices[..] == old(vertices[..]) && indices[..] == old(indices[..])
      ensures !GuardRejects(old(verticesWritten), old(indicesWritten)) ==>
        var q := QuadCount(BaseDepth(dna));
        && quadsWritten == old(quadsWritten) + q
        && verticesWritten == old(verticesWritten) + 4 * q
        && indicesWritten == old(indicesWritten) + 6 * q
        && (forall k :: 0 <= k < 4 * q ==>
              vertices[old(verticesWritten) + k] == VertexAt(dna, BaseDepth(dna), BaseColour(dna), k))
        && (forall k :: 0 <= k < 6 * q ==>
              indices[old(indicesWritten) + k] == IndexAt(BaseDepth(dna), old(verticesWritten), k))
        && (forall k :: 0 <= k < old(verticesWritten) ==> vertices[k] == old(vertices[k]))
        && (forall k :: 0 <= k < old(indicesWritten) ==> indices[k] == old(indices[k]))
    {
      if verticesWritten > MaxVertices || indicesWritten > MaxIndices {
        return;
      }
      var baseParams := RecursionParams(verticesWritten, BaseDepth(dna), BaseColour(dna));
      var indexCount := DrawRecursive(dna, baseParams, verticesWritten, indicesWritten);
      verticesWritten := verticesWritten + (indexCount / 6) * 4;
      indicesWritten := indicesWritten + indexCount;
      quadsWritten := quadsWritten + QuadCount(BaseDepth(dna));
    }
  }
}
