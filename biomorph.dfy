/** biomorphs/biomorph.h: a generated biomorph (texture, genome and
    reference count) and the instance handle the game holds on it. */
module Biomorph {
  import opened Wrappers
  import opened MorphDna

  /** A device texture: the texture and shader-resource pointers, with 0
      standing for NULL. */
  datatype Texture2D = Texture2D(texture: nat, shaderResource: nat) {
    /** Texture2D::IsValid: the texture pointer is non-null. */
    predicate IsValid() {
      texture != 0
    }
  }

  /** Texture2D::Invalidate: both pointers NULL. */
  const InvalidTexture: Texture2D := Texture2D(0, 0)

  class BiomorphBase {
    var texture: Texture2D
    var dna: MorphDNA
    var refcount: int

    /** BiomorphBase::IsValid: it holds a valid texture. */
    predicate IsValid()
      reads this
    {
      texture.IsValid()
    }

    /** A new base has refcount 0 and an invalidated texture, so it is not
        valid; its genome is the default (all fields zero). */
    constructor ()
      ensures refcount == 0 && texture == InvalidTexture && !IsValid()
      ensures dna == DefaultDNA()
    {
      refcount := 0;
      texture := InvalidTexture;
      dna := DefaultDNA();
    }
  }

  /** BiomorphInstance: a copyable handle holding a base pointer. */
  datatype BiomorphInstance = BiomorphInstance(base: BiomorphBase?) {
    /** BiomorphInstance::IsValid: the base pointer is non-null. */
    predicate IsValid() {
      base != null
    }

    /** GetTexture: the base's texture when the instance is valid, NULL
        (None) otherwise. */
    function GetTexture(): (r: Option<Texture2D>)
      reads base
      ensures r.Some? <==> IsValid()
      ensures IsValid() ==> r == Some(base.texture)
    {
      if base != null then Some(base.texture) else None
    }
  }

  /** The default-constructed instance, with a NULL base. */
  function NewInstance(): (inst: BiomorphInstance)
    ensures !inst.IsValid() && inst.GetTexture() == None
  {
    BiomorphInstance(null)
  }
}
