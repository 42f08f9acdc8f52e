/** framework/graphics/sprite_render.cpp: a list of sprites drawn as one
    indexed mesh, rebuilt only when the list has changed.

    Positions, scales and UVs are floats and stay symbolic: a vertex
    position is the sprite position translated by a corner offset, and
    the sum is not evaluated. The vertex and index buffers the device
    locks are arrays; the index buffer stores 16-bit values. The calls
    that reach the device are the trace of a Device. */
module SpriteRendering {
  import opened Wrappers
  import opened Containers
  import opened Spritemaps
  import opened Quads
  import opened ShadowedDevices
  import VertexLayout

  /** A vertex position: base + offset, left unevaluated. */
  datatype Position = Translated(base: Vec2, offset: Vec2)

  datatype SpriteVertex = SpriteVertex(position: Position, uv: Vec2)

  datatype RenderSprite = RenderSprite(position: Vec2, scale: Vec2, spriteID: int)

  const BlankRenderSprite: RenderSprite := RenderSprite(Vec2(0.0, 0.0), Vec2(0.0, 0.0), 0)
  const BlankVertex: SpriteVertex := SpriteVertex(Translated(Vec2(0.0, 0.0), Vec2(0.0, 0.0)), Vec2(0.0, 0.0))

  /** The UVs a sprite gets when the spritemap does not supply them. */
  const DefaultUV0: Vec2 := Vec2(0.0, 0.0)
  const DefaultUV1: Vec2 := Vec2(1.0, 1.0)

  /** The offset of corner c of a quad of the given size: (0,0), (w,0),
      (w,h), (0,h). */
  function CornerOffset(c: nat, size: Vec2): (v: Vec2)
    requires c < 4
  {
    match c
    case 0 => Vec2(0.0, 0.0)
    case 1 => Vec2(size.x, 0.0)
    case 2 => size
    case _ => Vec2(0.0, size.y)
  }

  /** The UV of corner c: (u0,v1), (u1,v1), (u1,v0), (u0,v0). */
  function CornerUV(c: nat, uv0: Vec2, uv1: Vec2): (v: Vec2)
    requires c < 4
  {
    match c
    case 0 => Vec2(uv0.x, uv1.y)
    case 1 => uv1
    case 2 => Vec2(uv1.x, uv0.y)
    case _ => uv0
  }

  /** Corner c of a quad at `position` with the given size and UVs. */
  function QuadVertex(position: Vec2, size: Vec2, uv0: Vec2, uv1: Vec2, c: nat): SpriteVertex
    requires c < 4
  {
    SpriteVertex(Translated(position, CornerOffset(c, size)), CornerUV(c, uv0, uv1))
  }

  /** The int sprite id converted to the spritemap's unsigned id. */
  function AsUnsignedId(id: int): (u: nat)
    ensures u < 0x1_0000_0000
    ensures 0 <= id < 0x1_0000_0000 ==> u == id
  {
    id % 0x1_0000_0000
  }

  /** A sprite's UVs: the spritemap's entry for its id when a spritemap is
      present and has one, otherwise (0,0)-(1,1). */
  function SpriteUVs(spriteMap: Option<seq<Sprite>>, id: int): (uvs: (Vec2, Vec2))
    ensures spriteMap.None? ==> uvs == (DefaultUV0, DefaultUV1)
    ensures spriteMap.Some? && IndexOfId(spriteMap.value, AsUnsignedId(id)).None? ==> uvs == (DefaultUV0, DefaultUV1)
  {
    if spriteMap.None? then (DefaultUV0, DefaultUV1)
    else match IndexOfId(spriteMap.value, AsUnsignedId(id))
      case None => (DefaultUV0, DefaultUV1)
      case Some(k) => (spriteMap.value[k].uv0, spriteMap.value[k].uv1)
  }

  /** Vertex k of the mesh: corner k % 4 of sprite k / 4, in list order. */
  function MeshVertex(sprites: seq<RenderSprite>, spriteMap: Option<seq<Sprite>>, k: nat): (v: SpriteVertex)
    requires k < 4 * |sprites|
    ensures v.position.base == sprites[k / 4].position
  {
    var s := sprites[k / 4];
    var uvs := SpriteUVs(spriteMap, s.spriteID);
    QuadVertex(s.position, s.scale, uvs.0, uvs.1, k % 4)
  }

  /** The draw's index count, size() * 6 as a 32-bit unsigned int. */
  function IndexCount(n: nat): (c: nat)
    ensures c < 0x1_0000_0000
    ensures n < 0x2AAA_AAAB ==> c == 6 * n
  {
    (n * 6) % 0x1_0000_0000
  }

  /** Positions 4a..4a+3 are sprite a's four corners. */
  lemma CornerSlots(a: nat, c: nat)
    requires c < 4
    ensures (4 * a + c) / 4 == a && (4 * a + c) % 4 == c
  {
  }

  class SpriteRender {
    var dirty: bool
    const sprites: Array<RenderSprite>
    var spritemap: Spritemap?
    var texture: nat
    var shader: nat
    var vb: array?<SpriteVertex>
    var ib: array?<UInt16>
    var vbHandle: nat
    var ibHandle: nat
    var inputLayout: nat
    const vd: VertexLayout.VertexDescriptor
    var vertexSize: nat
    /** The texture the last Draw bound to the sampler. */
    ghost var boundTexture: nat

    /** The list never grows; once created, the buffers hold 4 vertices and
        6 indices for every sprite the list can hold. */
    ghost predicate Valid()
      reads this, sprites, sprites.buf
    {
      sprites.Valid() && !sprites.grow &&
      (vb == null <==> ib == null) &&
      (vb != null ==> vb.Length == 4 * sprites.MaxSize() && ib.Length == 6 * sprites.MaxSize())
    }

    /** The spritemap's table, when there is a spritemap. */
    ghost function MapView(): Option<seq<Sprite>>
      reads this, spritemap
      reads if spritemap != null then {spritemap.sprites} else {}
      reads if spritemap != null then {spritemap.sprites.buf} else {}
      requires spritemap != null ==> spritemap.Valid()
    {
      if spritemap == null then None else Some(spritemap.sprites.Contents())
    }

    /** The vertex buffer holds the mesh of every listed sprite. */
    ghost predicate MeshBuilt()
      reads this, sprites, sprites.buf, vb, ib, spritemap
      reads if spritemap != null then {spritemap.sprites} else {}
      reads if spritemap != null then {spritemap.sprites.buf} else {}
      requires Valid() && vb != null && (spritemap != null ==> spritemap.Valid())
    {
      (forall k :: 0 <= k < 4 * sprites.Size() ==> vb[k] == MeshVertex(sprites.Contents(), MapView(), k)) &&
      (forall k :: 0 <= k < 6 * sprites.Size() ==> ib[k] as int == TileIndex(k))
    }

    constructor ()
      ensures Valid() && fresh(sprites) && fresh(vd) && sprites.Contents() == [] && vd.elements == []
      ensures vb == null && spritemap == null
    {
      dirty := false;
      sprites := new Array<RenderSprite>(BlankRenderSprite);
      spritemap := null;
      texture, shader := 0, 0;
      vb, ib := null, null;
      vbHandle, ibHandle, inputLayout := 0, 0, 0;
      vd := new VertexLayout.VertexDescriptor();
      vertexSize := 0;
      boundTexture := 0;
    }

    /** AddSprite: appends one sprite and marks the mesh dirty. Appending
        to a full list writes through a null pointer, so there must be
        room. */
    method AddSprite(spriteID: int, position: Vec2, scale: Vec2)
      requires Valid() && sprites.Size() < sprites.MaxSize()
      modifies this, sprites, sprites.buf
      ensures Valid() && dirty
      ensures sprites.Contents() == old(sprites.Contents()) + [RenderSprite(position, scale, spriteID)]
      ensures sprites.buf == old(sprites.buf) && vb == old(vb) && ib == old(ib) && spritemap == old(spritemap)
    {
      var _ := sprites.PushBack(RenderSprite(position, scale, spriteID), false);
      dirty := true;
    }

    /** RemoveSprites: empties the list, keeping its capacity, and marks the
        mesh dirty. */
    method RemoveSprites()
      requires Valid()
      modifies this, sprites
      ensures Valid() && dirty && sprites.Contents() == []
      ensures sprites.MaxSize() == old(sprites.MaxSize()) && vb == old(vb) && ib == old(ib)
      ensures spritemap == old(spritemap)
    {
      sprites.DeleteAll();
      dirty := true;
    }

    /** Create: fails when the sprite list cannot be initialised (already
        initialised, a zero or failed size); otherwise records the shader,
        spritemap and texture and builds the graphics objects. */
    method Create(maxSprites: int, shader: nat, spritemap: Spritemap?, texture: nat, mallocOk: bool,
                  vbHandle: nat, ibHandle: nat, layout: nat) returns (ok: bool)
      requires Valid()
      modifies this, sprites, vd
      ensures Valid()
      ensures ok <==> maxSprites % 0x1_0000_0000 != 0 && old(sprites.buf) == null && mallocOk
      ensures ok ==> sprites.Contents() == [] && sprites.MaxSize() == maxSprites % 0x1_0000_0000
      ensures ok ==> this.spritemap == spritemap && this.texture == texture && vb != null && fresh(vb) && fresh(ib)
      ensures ok && old(vd.elements) == [] ==> vertexSize == 16
      ensures !ok ==> vb == old(vb) && ib == old(ib) && sprites.buf == old(sprites.buf)
    {
      ok := sprites.Init(maxSprites % 0x1_0000_0000, false, mallocOk);
      if !ok {
        return false;
      }
      this.shader, this.spritemap, this.texture := shader, spritemap, texture;
      InitGraphics(vbHandle, ibHandle, layout);
    }

    /** initGraphics: a 2-float POSITION at offset 0 and a 2-float TEXCOORD
        at offset 8, a vertex buffer of maxSize * 4 vertices and a 16-bit
        index buffer of maxSize * 6 indices. */
    method InitGraphics(vbHandle: nat, ibHandle: nat, layout: nat)
      requires sprites.Valid() && !sprites.grow
      modifies this, vd
      ensures Valid() && vb != null && fresh(vb) && fresh(ib)
      ensures vd.elements == old(vd.elements) + SpriteLayout()
      ensures old(vd.elements) == [] ==> vertexSize == 16
      ensures this.vbHandle == vbHandle && this.ibHandle == ibHandle && inputLayout == layout
      ensures spritemap == old(spritemap) && texture == old(texture) && dirty == old(dirty)
    {
      var size := DescribeLayout(vd);
      vertexSize := size;
      vb, ib := NewBuffers(sprites.MaxSize());
      this.vbHandle, this.ibHandle, inputLayout := vbHandle, ibHandle, layout;
    }

    /** Release: destroys the sprite list and releases the buffers. */
    method Release()
      requires Valid()
      modifies this, sprites
      ensures Valid() && sprites.Contents() == [] && sprites.MaxSize() == 0 && vb == null
    {
      sprites.Destroy();
      vb, ib := null, null;
    }

    /** updateSpriteMesh: four vertices per sprite in list order, then the
        six indices of every tile. */
    method UpdateSpriteMesh()
      requires Valid() && vb != null && (spritemap != null ==> spritemap.Valid())
      modifies vb, ib
      ensures MeshBuilt()
    {
      var list, spriteMap := sprites.Contents(), MapView();
      var n := sprites.Size();
      var a := 0;
      while a < n
        invariant a <= n
        invariant forall k :: 0 <= k < 4 * a ==> vb[k] == MeshVertex(list, spriteMap, k)
      {
        var s := sprites.Get(a).value;
        var uv0, uv1 := LookupUVs(s.spriteID);
        WriteQuad(vb, 4 * a, s.position, s.scale, uv0, uv1);
        forall k | 4 * a <= k < 4 * a + 4
          ensures vb[k] == MeshVertex(list, spriteMap, k)
        {
          CornerSlots(a, k - 4 * a);
        }
        a := a + 1;
      }
      WriteTileIndices(ib, n);
    }

    /** The UV lookup of updateSpriteMesh: (0,0)-(1,1) unless the spritemap
        has the id. */
    method LookupUVs(spriteID: int) returns (uv0: Vec2, uv1: Vec2)
      requires spritemap != null ==> spritemap.Valid()
      ensures (uv0, uv1) == SpriteUVs(MapView(), spriteID)
    {
      uv0, uv1 := DefaultUV0, DefaultUV1;
      if spritemap != null {
        var found;
        found, uv0, uv1 := spritemap.GetSprite(AsUnsignedId(spriteID), uv0, uv1);
      }
    }

    /** Draw: rebuilds the mesh only when dirty and clears the flag, binds
        the texture (or else the spritemap's), and issues the state changes
        and one indexed draw of 6 * size() indices. */
    method Draw(device: Device, technique: nat)
      requires Valid() && vb != null && (spritemap != null ==> spritemap.Valid())
      requires texture == 0 ==> spritemap != null
      modifies this, vb, ib, device
      ensures Valid() && !dirty && vb == old(vb) && ib == old(ib)
      ensures spritemap == old(spritemap) && texture == old(texture)
      ensures inputLayout == old(inputLayout) && vbHandle == old(vbHandle) && ibHandle == old(ibHandle)
      ensures old(dirty) ==> MeshBuilt()
      ensures !old(dirty) ==> vb[..] == old(vb[..]) && ib[..] == old(ib[..])
      ensures texture != 0 ==> boundTexture == texture
      ensures texture == 0 ==> boundTexture == spritemap.texture
      ensures device.calls == old(device.calls) +
        [DeviceCall.SetTechnique(technique, 0), DeviceCall.SetInputLayout(inputLayout),
         DeviceCall.SetPrimitiveTopology(PrimitiveTriangles), DeviceCall.SetIndexBuffer(ibHandle),
         DeviceCall.SetVertexBuffer(0, vbHandle), DeviceCall.DrawIndexed(IndexCount(sprites.Size()))]
    {
      if dirty {
        UpdateSpriteMesh();
        dirty := false;
      }
      boundTexture := if texture != 0 then texture else spritemap.texture;
      device.calls := device.calls +
        [DeviceCall.SetTechnique(technique, 0), DeviceCall.SetInputLayout(inputLayout),
         DeviceCall.SetPrimitiveTopology(PrimitiveTriangles), DeviceCall.SetIndexBuffer(ibHandle),
         DeviceCall.SetVertexBuffer(0, vbHandle), DeviceCall.DrawIndexed(IndexCount(sprites.Size()))];
    }
  }

  /** The first element initGraphics adds: a per-vertex 2-float POSITION at
      offset 0 on stream 0. */
  function PositionElement(): (e: VertexLayout.VertexElement)
    ensures e.format == VertexLayout.Float2 && e.byteOffset == 0 && e.streamIndex == 0
  {
    VertexLayout.DefaultElement("POSITION").(format := VertexLayout.Float2)
  }

  /** The second: the same element renamed TEXCOORD and moved on by the
      8 bytes of a D3DXVECTOR2. */
  function TexcoordElement(): (e: VertexLayout.VertexElement)
    ensures e.format == VertexLayout.Float2 && e.byteOffset == 8 && e.streamIndex == 0
  {
    PositionElement().(byteOffset := 8, semanticName := "TEXCOORD")
  }

  /** The layout initGraphics describes. */
  function SpriteLayout(): seq<VertexLayout.VertexElement> {
    [PositionElement(), TexcoordElement()]
  }

  /** That layout is 16 bytes per vertex. */
  lemma SpriteLayoutSize()
    ensures VertexLayout.VertexSize(SpriteLayout(), 0) == 16
  {
    VertexLayout.SpriteVertexSize(PositionElement(), "TEXCOORD");
  }

  /** The element half of initGraphics: the two elements are appended and
      the vertex size is read back; on a fresh descriptor it is 16. */
  method DescribeLayout(vd: VertexLayout.VertexDescriptor) returns (size: nat)
    modifies vd
    ensures vd.elements == old(vd.elements) + SpriteLayout()
    ensures old(vd.elements) == [] ==> size == 16
  {
    vd.AddElement(PositionElement());
    vd.AddElement(TexcoordElement());
    size := vd.GetVertexSize(0);
    if old(vd.elements) == [] {
      SpriteLayoutSize();
    }
  }

  /** CreateVB and CreateIB: room for 4 vertices and 6 indices per sprite. */
  method NewBuffers(maxSprites: nat) returns (vb: array<SpriteVertex>, ib: array<UInt16>)
    ensures fresh(vb) && fresh(ib)
    ensures vb.Length == 4 * maxSprites && ib.Length == 6 * maxSprites
  {
    vb := new SpriteVertex[maxSprites * 4](_ => BlankVertex);
    ib := new UInt16[maxSprites * 6](_ => 0);
  }

  /** The four vertices of one quad at vertex position `at`. */
  method WriteQuad(vb: array<SpriteVertex>, at: nat, position: Vec2, size: Vec2, uv0: Vec2, uv1: Vec2)
    requires at + 4 <= vb.Length
    modifies vb
    ensures forall k :: at <= k < at + 4 ==> vb[k] == QuadVertex(position, size, uv0, uv1, k - at)
    ensures forall k :: 0 <= k < vb.Length && !(at <= k < at + 4) ==> vb[k] == old(vb[k])
  {
    vb[at] := QuadVertex(position, size, uv0, uv1, 0);
    vb[at + 1] := QuadVertex(position, size, uv0, uv1, 1);
    vb[at + 2] := QuadVertex(position, size, uv0, uv1, 2);
    vb[at + 3] := QuadVertex(position, size, uv0, uv1, 3);
  }
}
