/** framework/graphics/spritemap.cpp: a texture and a table of sprites, each
    an id with the two corners of its rectangle in texture space.

    UV coordinates are floats and only copied, so they are an opaque
    payload. The table is the fixed-capacity Array<Sprite> of core/array.h
    (it never grows). */
module Spritemaps {
  import opened Wrappers
  import opened Containers

  /** A D3DXVECTOR2, carried but never computed with. */
  datatype Vec2 = Vec2(x: real, y: real)

  datatype Sprite = Sprite(uv0: Vec2, uv1: Vec2, id: nat)

  /** The value a default-constructed sprite slot holds. */
  const BlankSprite: Sprite := Sprite(Vec2(0.0, 0.0), Vec2(0.0, 0.0), 0)

  /** The position of the first sprite with the id, if any. */
  function IndexOfId(s: seq<Sprite>, id: nat): (r: Option<nat>)
    ensures r.None? <==> forall j :: 0 <= j < |s| ==> s[j].id != id
    ensures r.Some? ==> r.value < |s| && s[r.value].id == id
    ensures r.Some? ==> forall j :: 0 <= j < r.value ==> s[j].id != id
  {
    if |s| == 0 then None
    else if s[|s| - 1].id == id && IndexOfId(s[..|s| - 1], id).None? then Some(|s| - 1)
    else IndexOfId(s[..|s| - 1], id)
  }

  /** No two sprites share an id. */
  ghost predicate UniqueIds(s: seq<Sprite>) {
    forall i, j :: 0 <= i < j < |s| ==> s[i].id != s[j].id
  }

  class Spritemap {
    const sprites: Array<Sprite>
    var texture: nat

    /** The table is a valid array that never grows, and its ids are
        distinct. */
    ghost predicate Valid()
      reads this, sprites, sprites.buf
    {
      sprites.Valid() && !sprites.grow && UniqueIds(sprites.Contents())
    }

    constructor ()
      ensures Valid() && fresh(sprites) && sprites.Contents() == [] && sprites.MaxSize() == 0
      ensures texture == 0
    {
      sprites := new Array<Sprite>(BlankSprite);
      texture := 0;
    }

    /** Init: initialises the table with capacity maxSprites (its unsigned
        conversion) and stores the texture; a table that is already
        initialised, or a failed malloc, leaves the table as it was. */
    method Init(maxSprites: int, texture: nat, mallocOk: bool)
      requires Valid()
      modifies this, sprites
      ensures Valid() && this.texture == texture
      ensures var size := maxSprites % 0x1_0000_0000;
        if size != 0 && old(sprites.buf) == null && mallocOk
        then sprites.Contents() == [] && sprites.MaxSize() == size
        else sprites.buf == old(sprites.buf) && sprites.count == old(sprites.count)
    {
      var _ := sprites.Init(maxSprites % 0x1_0000_0000, false, mallocOk);
      this.texture := texture;
    }

    /** Release: destroys the table. */
    method Release()
      requires Valid()
      modifies sprites
      ensures Valid() && sprites.Contents() == [] && sprites.MaxSize() == 0
    {
      sprites.Destroy();
    }

    /** AddSprite: a linear search; an id already present changes nothing,
        and a new id is appended with its UVs. Appending to a full table
        writes through a null pointer, so a new id needs a free slot. */
    method AddSprite(id: nat, uv0: Vec2, uv1: Vec2)
      requires Valid()
      requires IndexOfId(sprites.Contents(), id).None? ==> sprites.Size() < sprites.MaxSize()
      modifies sprites, sprites.buf
      ensures Valid() && texture == old(texture)
      ensures IndexOfId(old(sprites.Contents()), id).Some? ==>
        sprites.Contents() == old(sprites.Contents())
      ensures IndexOfId(old(sprites.Contents()), id).None? ==>
        sprites.Contents() == old(sprites.Contents()) + [Sprite(uv0, uv1, id)]
      ensures sprites.MaxSize() == old(sprites.MaxSize())
    {
      var s := 0;
      while s < sprites.Size()
        invariant s <= sprites.Size()
        invariant forall j :: 0 <= j < s ==> sprites.Contents()[j].id != id
      {
        if sprites.Get(s).value.id == id {
          return;
        }
        s := s + 1;
      }
      var _ := sprites.PushBack(Sprite(uv0, uv1, id), false);
    }

    /** GetSprite: for a present id, true and that sprite's UVs; for an
        absent id, false with the out-parameters as they came in. */
    method GetSprite(id: nat, uv0In: Vec2, uv1In: Vec2) returns (found: bool, uv0: Vec2, uv1: Vec2)
      requires Valid()
      ensures found <==> IndexOfId(sprites.Contents(), id).Some?
      ensures found ==> var k := IndexOfId(sprites.Contents(), id).value;
        uv0 == sprites.Contents()[k].uv0 && uv1 == sprites.Contents()[k].uv1
      ensures !found ==> uv0 == uv0In && uv1 == uv1In
    {
      var s := 0;
      while s < sprites.Size()
        invariant s <= sprites.Size()
        invariant forall j :: 0 <= j < s ==> sprites.Contents()[j].id != id
      {
        var spr := sprites.Get(s).value;
        if spr.id == id {
          FirstMatch(sprites.Contents(), id, s);
          return true, spr.uv0, spr.uv1;
        }
        s := s + 1;
      }
      return false, uv0In, uv1In;
    }
  }

  /** The first position holding an id is the one IndexOfId reports. */
  lemma FirstMatch(s: seq<Sprite>, id: nat, k: nat)
    requires k < |s| && s[k].id == id
    requires forall j :: 0 <= j < k ==> s[j].id != id
    ensures IndexOfId(s, id) == Some(k)
  {
  }

  /** After a new id is appended, looking it up finds the appended sprite,
      and every other id is found where it was before. */
  lemma {:induction false} AppendedSpriteFound(s: seq<Sprite>, spr: Sprite, other: nat)
    requires IndexOfId(s, spr.id).None?
    ensures IndexOfId(s + [spr], spr.id) == Some(|s|)
    ensures other != spr.id ==> IndexOfId(s + [spr], other) == IndexOfId(s, other)
  {
    assert (s + [spr])[..|s|] == s;
  }
}
