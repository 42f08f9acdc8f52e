/** biomorphs/sprite_render.cpp: the biomorph program's own sprite list.
    Sprites have no scale (every quad is 1 x 1), a spritemap is required,
    a sprite whose id the spritemap does not know is skipped when the mesh
    is built, and drawing goes through the ShadowedDevice. */
module MorphSpriteRendering {
  import opened Wrappers
  import opened Containers
  import opened Spritemaps
  import opened Quads
  import opened ShadowedDevices
  import opened SpriteRendering
  import VertexLayout

  datatype MorphSprite = MorphSprite(position: Vec2, spriteID: int)

  const BlankMorphSprite: MorphSprite := MorphSprite(Vec2(0.0, 0.0), 0)

  /** kXScale x kYScale: every quad is one unit square. */
  const UnitScale: Vec2 := Vec2(1.0, 1.0)

  /** A quad the mesh builder emits: where it goes and its UVs. */
  datatype Tile = Tile(position: Vec2, uv0: Vec2, uv1: Vec2)

  /** The tile a sprite yields: its position with the UVs of the
      spritemap entry for its id, or none when the id is unknown. */
  function TileOf(s: MorphSprite, spriteMap: seq<Sprite>): (t: Option<Tile>)
    ensures t.Some? <==> IndexOfId(spriteMap, AsUnsignedId(s.spriteID)).Some?
    ensures t.Some? ==> t.value.position == s.position
  {
    match IndexOfId(spriteMap, AsUnsignedId(s.spriteID))
    case None => None
    case Some(k) => Some(Tile(s.position, spriteMap[k].uv0, spriteMap[k].uv1))
  }

  /** The tiles updateSpriteMesh emits, in list order: one for each sprite
      whose id the spritemap holds. */
  function Tiles(sprites: seq<MorphSprite>, spriteMap: seq<Sprite>): (t: seq<Tile>)
    ensures |t| <= |sprites|
  {
    if |sprites| == 0 then []
    else
      var rest := Tiles(sprites[..|sprites| - 1], spriteMap);
      match TileOf(sprites[|sprites| - 1], spriteMap)
      case None => rest
      case Some(tile) => rest + [tile]
  }

  /** One more sprite extends the tiles exactly as one loop pass does. */
  lemma TilesStep(sprites: seq<MorphSprite>, a: nat, spriteMap: seq<Sprite>)
    requires a < |sprites|
    ensures Tiles(sprites[..a + 1], spriteMap) ==
      match TileOf(sprites[a], spriteMap)
      case None => Tiles(sprites[..a], spriteMap)
      case Some(tile) => Tiles(sprites[..a], spriteMap) + [tile]
  {
    assert sprites[..a + 1][..a] == sprites[..a];
  }

  /** Every sprite gets a tile exactly when the spritemap knows every id. */
  lemma {:induction false} AllTilesIffAllKnown(sprites: seq<MorphSprite>, spriteMap: seq<Sprite>)
    ensures |Tiles(sprites, spriteMap)| == |sprites| <==>
      forall a :: 0 <= a < |sprites| ==> IndexOfId(spriteMap, AsUnsignedId(sprites[a].spriteID)).Some?
  {
    if |sprites| > 0 {
      var init := sprites[..|sprites| - 1];
      AllTilesIffAllKnown(init, spriteMap);
      assert forall a :: 0 <= a < |init| ==> init[a] == sprites[a];
    }
  }

  /** Vertex k of the mesh: corner k % 4 of tile k / 4. */
  function TileVertex(tiles: seq<Tile>, k: nat): (v: SpriteVertex)
    requires k < 4 * |tiles|
    ensures v.position == Translated(tiles[k / 4].position, CornerOffset(k % 4, UnitScale))
  {
    var t := tiles[k / 4];
    QuadVertex(t.position, UnitScale, t.uv0, t.uv1, k % 4)
  }

  /** The first 4 * |tiles| vertices are the tiles' quads. */
  ghost predicate Written(vb: array<SpriteVertex>, tiles: seq<Tile>)
    reads vb
  {
    forall k :: 0 <= k < 4 * |tiles| && k < vb.Length ==> vb[k] == TileVertex(tiles, k)
  }

  /** A sprite whose id is unknown leaves the draw count above the indices
      written: 6 * size() indices are drawn, and only 6 per tile are
      rebuilt. */
  lemma {:induction false} UnknownIdLeavesStaleIndices(sprites: seq<MorphSprite>, spriteMap: seq<Sprite>, a: nat)
    requires a < |sprites| && IndexOfId(spriteMap, AsUnsignedId(sprites[a].spriteID)).None?
    ensures 6 * |Tiles(sprites, spriteMap)| < 6 * |sprites|
  {
    AllTilesIffAllKnown(sprites, spriteMap);
  }

  class SpriteRender {
    var dirty: bool
    const sprites: Array<MorphSprite>
    var spritemap: Spritemap?
    var shader: nat
    var vb: array?<SpriteVertex>
    var ib: array?<UInt16>
    var vbHandle: nat
    var ibHandle: nat
    var inputLayout: nat
    const vd: VertexLayout.VertexDescriptor
    var vertexSize: nat
    /** The number of tiles the last mesh rebuild emitted. */
    ghost var tilesDrawn: nat
    /** The texture the last Draw bound to the sampler. */
    ghost var boundTexture: nat

    /** The list never grows; once created, the buffers hold 4 vertices and
        6 indices for every sprite the list can hold. */
    ghost predicate Valid()
      reads this, sprites, sprites.buf
    {
      sprites.Valid() && !sprites.grow &&
      (vb == null <==> ib == null) &&
      (vb != null ==> vb.Length == 4 * sprites.MaxSize() && ib.Length == 6 * sprites.MaxSize())
    }

    /** The buffers hold the tiles of the listed sprites. */
    ghost predicate MeshBuilt()
      reads this, sprites, sprites.buf, vb, ib, spritemap, spritemap.sprites, spritemap.sprites.buf
      requires Valid() && vb != null && spritemap != null && spritemap.Valid()
    {
      var tiles := Tiles(sprites.Contents(), spritemap.sprites.Contents());
      tilesDrawn == |tiles| &&
      Written(vb, tiles) &&
      (forall k :: 0 <= k < 6 * |tiles| ==> ib[k] as int == TileIndex(k))
    }

    constructor ()
      ensures Valid() && fresh(sprites) && fresh(vd) && sprites.Contents() == [] && vd.elements == []
      ensures vb == null && spritemap == null
    {
      dirty := false;
      sprites := new Array<MorphSprite>(BlankMorphSprite);
      spritemap := null;
      shader := 0;
      vb, ib := null, null;
      vbHandle, ibHandle, inputLayout := 0, 0, 0;
      vd := new VertexLayout.VertexDescriptor();
      vertexSize := 0;
      tilesDrawn := 0;
      boundTexture := 0;
    }

    /** AddSprite: appends one sprite and marks the mesh dirty; there must
        be room, as the list does not grow. */
    method AddSprite(spriteID: int, position: Vec2)
      requires Valid() && sprites.Size() < sprites.MaxSize()
      modifies this, sprites, sprites.buf
      ensures Valid() && dirty
      ensures sprites.Contents() == old(sprites.Contents()) + [MorphSprite(position, spriteID)]
      ensures vb == old(vb) && ib == old(ib) && spritemap == old(spritemap)
    {
      var _ := sprites.PushBack(MorphSprite(position, spriteID), false);
      dirty := true;
    }

    /** RemoveSprites: empties the list, keeping its capacity, and marks the
        mesh dirty. */
    method RemoveSprites()
      requires Valid()
      modifies this, sprites
      ensures Valid() && dirty && sprites.Contents() == []
      ensures sprites.MaxSize() == old(sprites.MaxSize()) && vb == old(vb) && ib == old(ib)
      ensures spritemap == old(spritemap)
    {
      sprites.DeleteAll();
      dirty := true;
    }

    /** Create: fails when the sprite list cannot be initialised; otherwise
        records the shader and spritemap and builds the graphics objects. */
    method Create(maxSprites: int, shader: nat, spritemap: Spritemap?, mallocOk: bool,
                  vbHandle: nat, ibHandle: nat, layout: nat) returns (ok: bool)
      requires Valid()
      modifies this, sprites, vd
      ensures Valid()
      ensures ok <==> maxSprites % 0x1_0000_0000 != 0 && old(sprites.buf) == null && mallocOk
      ensures ok ==> sprites.Contents() == [] && sprites.MaxSize() == maxSprites % 0x1_0000_0000
      ensures ok ==> this.spritemap == spritemap && vb != null && fresh(vb) && fresh(ib)
      ensures ok && old(vd.elements) == [] ==> vertexSize == 16
      ensures !ok ==> vb == old(vb) && ib == old(ib) && sprites.buf == old(sprites.buf)
    {
      ok := sprites.Init(maxSprites % 0x1_0000_0000, false, mallocOk);
      if !ok {
        return false;
      }
      this.shader, this.spritemap := shader, spritemap;
      InitGraphics(vbHandle, ibHandle, layout);
    }

    /** initGraphics: the same layout and buffers as the framework sprite
        renderer's. */
    method InitGraphics(vbHandle: nat, ibHandle: nat, layout: nat)
      requires sprites.Valid() && !sprites.grow
      modifies this, vd
      ensures Valid() && vb != null && fresh(vb) && fresh(ib)
      ensures vd.elements == old(vd.elements) + SpriteLayout()
      ensures old(vd.elements) == [] ==> vertexSize == 16
      ensures this.vbHandle == vbHandle && this.ibHandle == ibHandle && inputLayout == layout
      ensures spritemap == old(spritemap) && dirty == old(dirty)
    {
      var size := DescribeLayout(vd);
      vertexSize := size;
      vb, ib := NewBuffers(sprites.MaxSize());
      this.vbHandle, this.ibHandle, inputLayout := vbHandle, ibHandle, layout;
    }

    /** Release: destroys the sprite list and releases the buffers. */
    method Release()
      requires Valid()
      modifies this, sprites
      ensures Valid() && sprites.Contents() == [] && sprites.MaxSize() == 0 && vb == null
    {
      sprites.Destroy();
      vb, ib := null, null;
    }

    /** updateSpriteMesh: a unit quad for every sprite the spritemap knows,
        in list order, then the indices of exactly the tiles written. */
    method UpdateSpriteMesh()
      requires Valid() && vb != null && spritemap != null && spritemap.Valid()
      modifies this, vb, ib
      ensures vb == old(vb) && ib == old(ib) && spritemap == old(spritemap) && dirty == old(dirty)
      ensures Valid() && MeshBuilt()
      ensures inputLayout == old(inputLayout) && vbHandle == old(vbHandle) && ibHandle == old(ibHandle)
    {
      var count := WriteVertices(vb, sprites.Contents(), spritemap);
      WriteTileIndices(ib, count);
      tilesDrawn := count;
    }

    /** Draw: rebuilds the mesh only when dirty and clears the flag, binds
        the spritemap's texture, and sends the state changes and one draw
        of 6 * size() indices through the shadowed device, which forwards
        only the changes. */
    method Draw(device: ShadowedDevice, t: EffectTechnique)
      requires Valid() && vb != null && spritemap != null && spritemap.Valid()
      requires device.Valid()
      modifies this, vb, ib, device, device.vertexBuffers, device.perf.slots, t
      ensures Valid() && !dirty && vb == old(vb) && ib == old(ib) && spritemap == old(spritemap)
      ensures old(dirty) ==> MeshBuilt()
      ensures !old(dirty) ==> vb[..] == old(vb[..]) && ib[..] == old(ib[..])
      ensures boundTexture == spritemap.texture
      ensures device.Valid() && !t.dirty && t.handle == old(t.handle)
      ensures Snapshot(device) ==
        AfterSubmit(old(Snapshot(device)), old(t.dirty), t.handle, inputLayout, ibHandle, vbHandle, IndexCount(sprites.Size()))
    {
      ghost var before := Snapshot(device);
      Prepare();
      assert Snapshot(device) == before;
      Submit(device, t, inputLayout, ibHandle, vbHandle, IndexCount(sprites.Size()));
    }

    /** The steps of Draw before the device calls: the mesh is rebuilt only
        when dirty and the flag is cleared, then the spritemap's texture is
        bound. */
    method Prepare()
      requires Valid() && vb != null && spritemap != null && spritemap.Valid()
      modifies this, vb, ib
      ensures vb == old(vb) && ib == old(ib) && spritemap == old(spritemap)
      ensures inputLayout == old(inputLayout) && vbHandle == old(vbHandle) && ibHandle == old(ibHandle)
      ensures Valid() && !dirty
      ensures old(dirty) ==> MeshBuilt()
      ensures !old(dirty) ==> vb[..] == old(vb[..]) && ib[..] == old(ib[..])
      ensures boundTexture == spritemap.texture
    {
      if dirty {
        UpdateSpriteMesh();
        dirty := false;
      }
      boundTexture := spritemap.texture;
    }
  }

  /** What a draw can observe of a shadowed device: its caches, its
      change counters and the calls it has forwarded. */
  datatype DeviceState = DeviceState(colourTarget: nat, depthStencil: nat, primitiveType: nat, inputLayout: nat,
                                     streams: seq<nat>, indexBuffer: nat, technique: nat, pass: int,
                                     slots: seq<int>, calls: seq<DeviceCall>)

  ghost function Snapshot(device: ShadowedDevice): (d: DeviceState)
    reads device, device.vertexBuffers, device.perf, device.perf.slots
    ensures d.streams == device.vertexBuffers[..] && d.slots == device.perf.slots[..] && d.calls == device.calls
  {
    DeviceState(device.colourTarget, device.depthStencil, device.primitiveType, device.inputLayout,
                device.vertexBuffers[..], device.indexBuffer, device.technique, device.pass,
                device.perf.slots[..], device.calls)
  }

  /** Whether SetTechnique(t, 0) reaches the device: the technique or the
      pass differs from the cache, or the technique is dirty. */
  predicate TechniqueChanges(d: DeviceState, dirty: bool, handle: nat) {
    handle != d.technique || d.pass != 0 || dirty
  }

  /** 1 when a call is forwarded (and counted), else 0. */
  function Counted(forwarded: bool): nat {
    if forwarded then 1 else 0
  }

  /** The state calls a draw forwards: technique, input layout and
      topology, each only on change. */
  function StateCalls(d: DeviceState, dirty: bool, handle: nat, layout: nat): seq<DeviceCall> {
    (if TechniqueChanges(d, dirty, handle) then [DeviceCall.SetTechnique(handle, 0)] else []) +
    (if layout != d.inputLayout then [DeviceCall.SetInputLayout(layout)] else []) +
    (if d.primitiveType != PrimitiveTriangles then [DeviceCall.SetPrimitiveTopology(PrimitiveTriangles)] else [])
  }

  /** The buffer calls and the draw: the index buffer and the stream-0
      vertex buffer only on change, then the indexed draw, always. */
  function BufferCalls(cachedIb: nat, cachedVb: nat, ib: nat, vb: nat, indexCount: nat): seq<DeviceCall> {
    (if ib != cachedIb then [DeviceCall.SetIndexBuffer(ib)] else []) +
    (if vb != cachedVb then [DeviceCall.SetVertexBuffer(0, vb)] else []) +
    [DeviceCall.DrawIndexed(indexCount)]
  }

  /** The calls a draw forwards from state d, in the order technique, input
      layout, topology, index buffer, stream-0 vertex buffer, draw; only
      the draw is forwarded whatever the cache holds. */
  function SubmitCalls(d: DeviceState, dirty: bool, handle: nat, layout: nat, ib: nat, vb: nat, indexCount: nat): (calls: seq<DeviceCall>)
    requires 0 < |d.streams|
    ensures 1 <= |calls| <= 6 && calls[|calls| - 1] == DeviceCall.DrawIndexed(indexCount)
    ensures calls[0] == DeviceCall.DrawIndexed(indexCount) <==>
      !TechniqueChanges(d, dirty, handle) && layout == d.inputLayout && d.primitiveType == PrimitiveTriangles &&
      ib == d.indexBuffer && vb == d.streams[0]
  {
    StateCalls(d, dirty, handle, layout) + BufferCalls(d.indexBuffer, d.streams[0], ib, vb, indexCount)
  }

  /** The device state a draw leaves behind from d: the technique at pass
      0, the layout, triangles, the index buffer and the stream-0 buffer
      cached; render targets and the other streams as they were; each
      change counter up by one exactly when its call is forwarded, the
      draw counter up by one; SubmitCalls appended to the calls. */
  function AfterSubmit(d: DeviceState, dirty: bool, handle: nat, layout: nat, ib: nat, vb: nat, indexCount: nat): (r: DeviceState)
    requires |d.streams| == MaxVertexBuffers && |d.slots| == MaxPerfGrabs
    ensures |r.streams| == MaxVertexBuffers && |r.slots| == MaxPerfGrabs
    ensures r.technique == handle && r.pass == 0 && r.inputLayout == layout && r.primitiveType == PrimitiveTriangles
    ensures r.indexBuffer == ib && r.streams[0] == vb
    ensures r.colourTarget == d.colourTarget && r.depthStencil == d.depthStencil && r.streams[1..] == d.streams[1..]
    ensures r.slots[NumEffectChanges] == d.slots[NumEffectChanges] + Counted(TechniqueChanges(d, dirty, handle))
    ensures r.slots[NumIBChanges] == d.slots[NumIBChanges] + Counted(ib != d.indexBuffer)
    ensures r.slots[NumVBChanges] == d.slots[NumVBChanges] + Counted(vb != d.streams[0])
    ensures r.slots[NumDrawCalls] == d.slots[NumDrawCalls] + 1
    ensures r.calls == d.calls + SubmitCalls(d, dirty, handle, layout, ib, vb, indexCount)
  {
    var slots := d.slots[NumEffectChanges := d.slots[NumEffectChanges] + Counted(TechniqueChanges(d, dirty, handle))]
                        [NumIBChanges := d.slots[NumIBChanges] + Counted(ib != d.indexBuffer)]
                        [NumVBChanges := d.slots[NumVBChanges] + Counted(vb != d.streams[0])]
                        [NumDrawCalls := d.slots[NumDrawCalls] + 1];
    d.(primitiveType := PrimitiveTriangles, inputLayout := layout, streams := d.streams[0 := vb],
       indexBuffer := ib, technique := handle, pass := 0, slots := slots,
       calls := d.calls + SubmitCalls(d, dirty, handle, layout, ib, vb, indexCount))
  }

  /** Drawing twice with the same arguments: the second draw forwards only
      the technique, and only when its technique object is dirty, then the
      draw call; it counts the effect change in that case and the draw,
      nothing else. The source's Draw fetches a fresh technique each time,
      whose dirty flag is uninitialised, so either case can arise. */
  lemma RepeatDrawOnlyDraws(d: DeviceState, dirty: bool, dirty2: bool, handle: nat, layout: nat, ib: nat, vb: nat, indexCount: nat)
    requires |d.streams| == MaxVertexBuffers && |d.slots| == MaxPerfGrabs
    ensures var once := AfterSubmit(d, dirty, handle, layout, ib, vb, indexCount);
      var twice := AfterSubmit(once, dirty2, handle, layout, ib, vb, indexCount);
      twice.calls == once.calls + (if dirty2 then [DeviceCall.SetTechnique(handle, 0)] else []) +
                     [DeviceCall.DrawIndexed(indexCount)] &&
      twice.slots == once.slots[NumEffectChanges := once.slots[NumEffectChanges] + Counted(dirty2)]
                               [NumDrawCalls := once.slots[NumDrawCalls] + 1] &&
      (!dirty2 ==> twice.calls == once.calls + [DeviceCall.DrawIndexed(indexCount)])
  {
  }

  /** The calls Draw makes on the shadowed device, in the source's order:
      technique pass 0, input layout, triangle list, index buffer, vertex
      buffer on stream 0, and the indexed draw. */
  method Submit(device: ShadowedDevice, t: EffectTechnique, layout: nat, ib: nat, vb: nat, indexCount: nat)
    requires device.Valid()
    modifies device, device.vertexBuffers, device.perf.slots, t
    ensures device.Valid() && !t.dirty && t.handle == old(t.handle)
    ensures Snapshot(device) == AfterSubmit(old(Snapshot(device)), old(t.dirty), t.handle, layout, ib, vb, indexCount)
  {
    ghost var d := Snapshot(device);
    ghost var dirty := t.dirty;
    SubmitState(device, t, layout);
    SubmitBuffers(device, ib, vb, indexCount);
    ghost var r := AfterSubmit(d, dirty, t.handle, layout, ib, vb, indexCount);
    assert Snapshot(device).streams == r.streams;
    assert Snapshot(device).slots == r.slots;
    assert Snapshot(device).calls == r.calls;
  }

  /** The first half of Submit: technique, input layout, topology. */
  method SubmitState(device: ShadowedDevice, t: EffectTechnique, layout: nat)
    requires device.Valid()
    modifies device, device.perf.slots, t
    ensures device.Valid() && device.technique == t.handle && device.pass == 0 && !t.dirty
    ensures t.handle == old(t.handle)
    ensures device.inputLayout == layout && device.primitiveType == PrimitiveTriangles
    ensures device.indexBuffer == old(device.indexBuffer)
    ensures device.colourTarget == old(device.colourTarget) && device.depthStencil == old(device.depthStencil)
    ensures device.calls == old(device.calls) + StateCalls(old(Snapshot(device)), old(t.dirty), t.handle, layout)
    ensures device.perf.slots[..] == old(device.perf.slots[..])[NumEffectChanges :=
      old(device.perf.slots[NumEffectChanges]) + Counted(TechniqueChanges(old(Snapshot(device)), old(t.dirty), t.handle))]
  {
    ghost var d := Snapshot(device);
    ghost var c0 := device.calls;
    ghost var dirty := t.dirty;
    device.SetTechnique(t, 0);
    ghost var c1 := device.calls;
    device.SetInputLayout(layout);
    device.SetPrimitiveTopology(PrimitiveTriangles);
    assert c1 == c0 + (if TechniqueChanges(d, dirty, t.handle) then [DeviceCall.SetTechnique(t.handle, 0)] else []);
  }

  /** The second half of Submit: index buffer, stream-0 vertex buffer,
      draw. */
  method SubmitBuffers(device: ShadowedDevice, ib: nat, vb: nat, indexCount: nat)
    requires device.Valid()
    modifies device, device.vertexBuffers, device.perf.slots
    ensures device.Valid()
    ensures device.technique == old(device.technique) && device.pass == old(device.pass)
    ensures device.inputLayout == old(device.inputLayout) && device.primitiveType == old(device.primitiveType)
    ensures device.colourTarget == old(device.colourTarget) && device.depthStencil == old(device.depthStencil)
    ensures device.indexBuffer == ib
    ensures device.vertexBuffers[..] == old(device.vertexBuffers[..])[0 := vb]
    ensures device.calls == old(device.calls) + BufferCalls(old(device.indexBuffer), old(device.vertexBuffers[0]), ib, vb, indexCount)
    ensures device.perf.slots[..] == old(device.perf.slots[..])
      [NumIBChanges := old(device.perf.slots[NumIBChanges]) + Counted(ib != old(device.indexBuffer))]
      [NumVBChanges := old(device.perf.slots[NumVBChanges]) + Counted(vb != old(device.vertexBuffers[0]))]
      [NumDrawCalls := old(device.perf.slots[NumDrawCalls]) + 1]
  {
    device.SetIndexBuffer(ib);
    device.SetVertexBuffer(0, vb);
    device.DrawIndexed(indexCount);
  }

  /** The vertex loop of updateSpriteMesh: one quad per tile, in order; it
      returns the number of tiles written. */
  method WriteVertices(vb: array<SpriteVertex>, list: seq<MorphSprite>, spritemap: Spritemap) returns (count: nat)
    requires spritemap.Valid() && 4 * |list| <= vb.Length
    modifies vb
    ensures count == |Tiles(list, spritemap.sprites.Contents())| && count <= |list|
    ensures Written(vb, Tiles(list, spritemap.sprites.Contents()))
  {
    ghost var table := spritemap.sprites.Contents();
    ghost var tiles: seq<Tile> := [];
    count := 0;
    var a := 0;
    while a < |list|
      invariant a <= |list|
      invariant spritemap.Valid() && spritemap.sprites.Contents() == table
      invariant tiles == Tiles(list[..a], table) && count == |tiles| && count <= a
      invariant Written(vb, tiles)
      invariant a < |list| ==> 4 * count + 4 <= vb.Length
    {
      TilesStep(list, a, table);
      count, tiles := EmitSprite(vb, spritemap, list[a], count, tiles);
      a := a + 1;
    }
    assert list[..a] == list;
  }

  /** One pass of the vertex loop: the sprite's quad follows the tiles
      already written when the spritemap knows its id. */
  method EmitSprite(vb: array<SpriteVertex>, spritemap: Spritemap, s: MorphSprite, count: nat, ghost tiles: seq<Tile>)
    returns (count': nat, ghost tiles': seq<Tile>)
    requires spritemap.Valid() && Written(vb, tiles) && count == |tiles| && 4 * count + 4 <= vb.Length
    modifies vb
    ensures tiles' == match TileOf(s, spritemap.sprites.Contents())
      case None => tiles
      case Some(t) => tiles + [t]
    ensures count' == |tiles'| && Written(vb, tiles')
  {
    var tile := LookupTile(spritemap, s);
    count', tiles' := count, tiles;
    if tile.Some? {
      AppendQuad(vb, 4 * count, tiles, tile.value);
      count', tiles' := count + 1, tiles + [tile.value];
    }
  }

  /** One sprite's GetSprite lookup, as the tile it yields. */
  method LookupTile(spritemap: Spritemap, s: MorphSprite) returns (tile: Option<Tile>)
    requires spritemap.Valid()
    ensures tile == TileOf(s, spritemap.sprites.Contents())
  {
    var found, uv0, uv1 := spritemap.GetSprite(AsUnsignedId(s.spriteID), Vec2(0.0, 0.0), Vec2(0.0, 0.0));
    tile := if found then Some(Tile(s.position, uv0, uv1)) else None;
  }

  /** Writes one tile's quad after the tiles already written. */
  method AppendQuad(vb: array<SpriteVertex>, at: nat, ghost tiles: seq<Tile>, tile: Tile)
    requires at == 4 * |tiles| && at + 4 <= vb.Length
    requires Written(vb, tiles)
    modifies vb
    ensures Written(vb, tiles + [tile])
  {
    WriteQuad(vb, at, tile.position, UnitScale, tile.uv0, tile.uv1);
    forall k | 0 <= k < at + 4
      ensures vb[k] == TileVertex(tiles + [tile], k)
    {
      if k >= at {
        CornerSlots(|tiles|, k - at);
      }
    }
  }
}
