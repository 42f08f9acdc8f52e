/** The quad index pattern shared by the biomorph mesh builder and both
    sprite renderers: a quad's four vertices are drawn as the triangles
    (0, 2, 1) and (0, 3, 2). */
module Quads {
  /** The number of values of a 16-bit index. */
  const IndexRange: nat := 0x1_0000

  /** Corner used by index j (0..5) of a quad. */
  function QuadCorner(j: int): (c: nat)
    requires 0 <= j < 6
    ensures c < 4
  {
    match j
    case 0 => 0
    case 1 => 2
    case 2 => 1
    case 3 => 0
    case 4 => 3
    case _ => 2
  }

  /** Index k of a sprite mesh's 16-bit index buffer: tile k / 6 over
      vertices 4t..4t+3, truncated to 16 bits as the unsigned short store
      does. */
  function TileIndex(k: nat): (i: nat)
    ensures i < IndexRange
    ensures 4 * (k / 6) + 3 < IndexRange ==> i == 4 * (k / 6) + QuadCorner(k % 6)
  {
    (4 * (k / 6) + QuadCorner(k % 6)) % IndexRange
  }

  /** While the tile's vertices are addressable in 16 bits, each of its six
      indices lies within the tile's own four vertices. */
  lemma TileIndexWithinTile(k: nat)
    requires 4 * (k / 6) + 3 < IndexRange
    ensures 4 * (k / 6) <= TileIndex(k) < 4 * (k / 6) + 4
  {
  }

  /** An unsigned short. */
  newtype UInt16 = x: int | 0 <= x < 0x1_0000

  /** Positions 6t..6t+5 are tile t's six indices. */
  lemma TileSlots(t: nat, j: nat)
    requires j < 6
    ensures (6 * t + j) / 6 == t && (6 * t + j) % 6 == j
  {
  }

  /** In a list of at most 16384 tiles nothing is truncated: tile t's
      indices address exactly its own vertices 4t..4t+3. */
  lemma TileIndexExact(tiles: nat, k: nat)
    requires tiles <= 0x4000 && k < 6 * tiles
    ensures TileIndex(k) == 4 * (k / 6) + QuadCorner(k % 6)
    ensures 4 * (k / 6) <= TileIndex(k) < 4 * tiles
  {
    assert k / 6 < tiles;
  }

  /** The sprite renderers' index loop: tile t gets 4t + 0, 2, 1, 0, 3, 2,
      stored as unsigned shorts; nothing past the last tile is written. */
  method WriteTileIndices(ib: array<UInt16>, tiles: nat)
    requires 6 * tiles <= ib.Length
    modifies ib
    ensures forall k :: 0 <= k < 6 * tiles ==> ib[k] as int == TileIndex(k)
    ensures forall k :: 6 * tiles <= k < ib.Length ==> ib[k] == old(ib[k])
  {
    var tile := 0;
    while tile < tiles
      invariant tile <= tiles
      invariant forall k :: 0 <= k < 6 * tile ==> ib[k] as int == TileIndex(k)
      invariant forall k :: 6 * tile <= k < ib.Length ==> ib[k] == old(ib[k])
    {
      WriteTile(ib, tile);
      tile := tile + 1;
    }
  }

  /** The value an int takes when stored in an unsigned short. */
  function Truncate16(x: nat): (u: UInt16)
    ensures u as int == x % IndexRange
  {
    (x % IndexRange) as UInt16
  }

  /** One pass of the index loop: the six indices of tile t. */
  method WriteTile(ib: array<UInt16>, tile: nat)
    requires 6 * tile + 6 <= ib.Length
    modifies ib
    ensures forall k :: 6 * tile <= k < 6 * tile + 6 ==> ib[k] as int == TileIndex(k)
    ensures forall k :: 0 <= k < ib.Length && !(6 * tile <= k < 6 * tile + 6) ==> ib[k] == old(ib[k])
  {
    var i := tile * 4;
    var at := 6 * tile;
    ib[at] := Truncate16(i + 0);
    ib[at + 1] := Truncate16(i + 2);
    ib[at + 2] := Truncate16(i + 1);
    ib[at + 3] := Truncate16(i + 0);
    ib[at + 4] := Truncate16(i + 3);
    ib[at + 5] := Truncate16(i + 2);
    forall k | at <= k < at + 6
      ensures ib[k] as int == TileIndex(k)
    {
      TileSlots(tile, k - at);
    }
  }
}
