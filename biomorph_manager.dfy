/** biomorphs/biomorph_manager.cpp: the database of generated biomorphs,
    a std::map from the genome hash to a heap-allocated BiomorphBase, with
    reference-counted instances handed out to the game. */
module BiomorphManagement {
  import opened Wrappers
  import opened OrderedMap
  import opened MorphDna
  import opened MorphRender
  import opened Biomorph

  /** What the cleanup pass looks at in one map entry. */
  datatype Slot = Slot(key: nat, refcount: int, texture: Texture2D)

  /** `sl` is the slot-by-slot view of the map `s`. */
  ghost predicate Matches(sl: seq<Slot>, s: seq<Entry<BiomorphBase>>)
    reads set i | 0 <= i < |s| :: s[i].value
  {
    |sl| == |s| &&
    forall i :: 0 <= i < |s| ==> sl[i] == Slot(s[i].key, s[i].value.refcount, s[i].value.texture)
  }

  function SlotsOf(s: seq<Entry<BiomorphBase>>): (r: seq<Slot>)
    reads set i | 0 <= i < |s| :: s[i].value
    ensures Matches(r, s)
  {
    seq(|s|, i reads set j | 0 <= j < |s| :: s[j].value
               requires 0 <= i < |s| => Slot(s[i].key, s[i].value.refcount, s[i].value.texture))
  }

  /** The cleanup loop is defined from iterator position `it`: an erase
      that empties the map is followed by ++ on end(), which is undefined. */
  predicate CleanupDefined(s: seq<Slot>, it: nat)
    decreases |s|, |s| - it
  {
    if it >= |s| then true
    else if s[it].refcount <= 0 then |s| > 1 && CleanupDefined(RemoveAt(s, it), 1)
    else CleanupDefined(s, it + 1)
  }

  /** The cleanup loop as written, from iterator position `it`: an entry
      with refcount <= 0 is released and erased, the iterator is reset to
      begin() and then advanced, so scanning resumes at position 1. Returns
      the remaining entries and the released textures in release order. */
  function CleanupFrom(s: seq<Slot>, it: nat): (r: (seq<Slot>, seq<Texture2D>))
    requires CleanupDefined(s, it)
    decreases |s|, |s| - it
  {
    if it >= |s| then (s, [])
    else if s[it].refcount <= 0 then
      var rest := CleanupFrom(RemoveAt(s, it), 1);
      (rest.0, [s[it].texture] + rest.1)
    else CleanupFrom(s, it + 1)
  }

  /** Cleanup never erases an entry whose refcount is positive, keeps only
      entries of the map, erases as many entries as it releases textures,
      and each released texture belongs to an entry with refcount <= 0. */
  lemma {:induction false} CleanupKeepsReferenced(s: seq<Slot>, it: nat)
    requires CleanupDefined(s, it)
    ensures forall x :: x in s && x.refcount > 0 ==> x in CleanupFrom(s, it).0
    ensures forall x :: x in CleanupFrom(s, it).0 ==> x in s
    ensures |CleanupFrom(s, it).0| + |CleanupFrom(s, it).1| == |s|
    ensures forall t :: t in CleanupFrom(s, it).1 ==>
      exists x :: x in s && x.refcount <= 0 && x.texture == t
    decreases |s|, |s| - it
  {
    if it >= |s| {
    } else if s[it].refcount <= 0 {
      var w := RemoveAt(s, it);
      CleanupKeepsReferenced(w, 1);
      forall x | x in s && x.refcount > 0
        ensures x in w
      {
        var j :| 0 <= j < |s| && s[j] == x;
        if j < it {
          assert w[j] == x;
        } else {
          assert j != it;
          assert w[j - 1] == x;
        }
      }
      forall x | x in w
        ensures x in s
      {
        var j :| 0 <= j < |w| && w[j] == x;
        if j >= it {
          assert s[j + 1] == x;
        }
      }
    } else {
      CleanupKeepsReferenced(s, it + 1);
    }
  }

  /** The textures of the slots, in order. */
  function SlotTextures(sl: seq<Slot>): (r: seq<Texture2D>)
    ensures |r| == |sl| && forall i :: 0 <= i < |sl| ==> r[i] == sl[i].texture
  {
    seq(|sl|, i requires 0 <= i < |sl| => sl[i].texture)
  }

  /** Cleanup releases the erased entries' own textures: the released
      textures and the kept entries' textures together are, counted with
      multiplicity, exactly the textures the map held. */
  lemma {:induction false} CleanupReleasesOwnTextures(s: seq<Slot>, it: nat)
    requires CleanupDefined(s, it)
    ensures multiset(CleanupFrom(s, it).1) + multiset(SlotTextures(CleanupFrom(s, it).0)) == multiset(SlotTextures(s))
    decreases |s|, |s| - it
  {
    if it >= |s| {
    } else if s[it].refcount <= 0 {
      var w := RemoveAt(s, it);
      CleanupReleasesOwnTextures(w, 1);
      var ts := SlotTextures(s);
      assert ts == ts[..it] + [s[it].texture] + ts[it + 1..];
      assert SlotTextures(w) == ts[..it] + ts[it + 1..];
      var rest := CleanupFrom(w, 1);
      assert CleanupFrom(s, it) == (rest.0, [s[it].texture] + rest.1);
      calc {
        multiset(SlotTextures(s));
        multiset(ts[..it]) + multiset{s[it].texture} + multiset(ts[it + 1..]);
        multiset{s[it].texture} + multiset(SlotTextures(w));
        multiset{s[it].texture} + multiset(rest.1) + multiset(SlotTextures(rest.0));
        multiset([s[it].texture] + rest.1) + multiset(SlotTextures(rest.0));
      }
    } else {
      CleanupReleasesOwnTextures(s, it + 1);
    }
  }

  /** The entry following an erased one is skipped: two unreferenced
      entries leave one of them behind. */
  lemma CleanupSkipsSuccessor(t1: Texture2D, t2: Texture2D)
    ensures CleanupDefined([Slot(1, 0, t1), Slot(2, 0, t2)], 0)
    ensures CleanupFrom([Slot(1, 0, t1), Slot(2, 0, t2)], 0) == ([Slot(2, 0, t2)], [t1])
  {
    var s := [Slot(1, 0, t1), Slot(2, 0, t2)];
    var w := [Slot(2, 0, t2)];
    assert RemoveAt(s, 0) == w;
    assert CleanupDefined(w, 1);
    assert CleanupFrom(w, 1) == (w, []);
    assert CleanupFrom(s, 0) == (w, [t1] + []);
    assert [t1] + [] == [t1];
  }

  /** Erasing the last entry is followed by ++ on end(). */
  lemma CleanupOfLoneUnreferencedIsUndefined(t: Texture2D)
    ensures !CleanupDefined([Slot(1, 0, t)], 0)
  {
  }

  /** The intended cleanup: every entry with refcount <= 0 is released and
      erased, in map order. */
  function CleanupIntended(s: seq<Slot>): (r: (seq<Slot>, seq<Texture2D>))
  {
    if |s| == 0 then ([], [])
    else
      var rest := CleanupIntended(s[1..]);
      if s[0].refcount <= 0 then (rest.0, [s[0].texture] + rest.1)
      else ([s[0]] + rest.0, rest.1)
  }

  /** After the intended cleanup exactly the entries with positive refcount
      remain, and a texture is released for every other entry. */
  lemma {:induction false} CleanupIntendedExact(s: seq<Slot>)
    ensures forall x :: x in CleanupIntended(s).0 <==> x in s && x.refcount > 0
    ensures |CleanupIntended(s).0| + |CleanupIntended(s).1| == |s|
  {
    if |s| > 0 {
      CleanupIntendedExact(s[1..]);
      assert s == [s[0]] + s[1..];
    }
  }

  /** Every base is filed under the hash of its own genome. */
  ghost predicate Filed(s: seq<Entry<BiomorphBase>>, hashOf: MorphDNA -> nat)
    reads set i | 0 <= i < |s| :: s[i].value
  {
    forall i :: 0 <= i < |s| ==> s[i].key == hashOf(s[i].value.dna)
  }

  /** Entries taken from a filed map form a filed map. */
  lemma SubsetFiled(m: seq<Entry<BiomorphBase>>, m0: seq<Entry<BiomorphBase>>, hashOf: MorphDNA -> nat)
    requires Filed(m0, hashOf)
    requires forall i :: 0 <= i < |m| ==> m[i] in m0
    ensures Filed(m, hashOf)
  {
    forall i | 0 <= i < |m|
      ensures m[i].key == hashOf(m[i].value.dna)
    {
      var j :| 0 <= j < |m0| && m0[j] == m[i];
    }
  }

  /** Filing a base under its own hash keeps the map filed. */
  lemma InsertKeepsFiled(s: seq<Entry<BiomorphBase>>, hashOf: MorphDNA -> nat, b: BiomorphBase)
    requires Sorted(s) && Filed(s, hashOf)
    ensures Filed(Insert(s, hashOf(b.dna), b), hashOf)
  {
    var r := Insert(s, hashOf(b.dna), b);
    InsertOnlyAdds(s, hashOf(b.dna), b);
    forall i | 0 <= i < |r|
      ensures r[i].key == hashOf(r[i].value.dna)
    {
      if r[i] in s {
        var j :| 0 <= j < |s| && s[j] == r[i];
      }
    }
  }

  class BiomorphManager {
    /** mBiomorphs, in key order. */
    var biomorphs: seq<Entry<BiomorphBase>>
    const renderer: MorphRenderer
    /** MorphDNA::GetHash, which is not defined in the sources modelled. */
    const hashOf: MorphDNA -> nat
    /** Textures handed to Device::Release, in order. */
    ghost var released: seq<Texture2D>

    function Bases(): (r: set<BiomorphBase>)
      reads this
      ensures forall i :: 0 <= i < |biomorphs| ==> biomorphs[i].value in r
    {
      set i | 0 <= i < |biomorphs| :: biomorphs[i].value
    }

    /** Keys strictly increasing (so one base per hash), and every base
        filed under the hash of its own genome. */
    ghost predicate Valid()
      reads this, renderer, Bases()
    {
      Sorted(biomorphs) && renderer.Buffers() && Filed(biomorphs, hashOf)
    }

    constructor (renderer: MorphRenderer, hashOf: MorphDNA -> nat)
      requires renderer.Buffers()
      ensures Valid() && biomorphs == [] && released == []
      ensures this.renderer == renderer && this.hashOf == hashOf
    {
      this.renderer := renderer;
      this.hashOf := hashOf;
      biomorphs := [];
      released := [];
    }

    /** Release: every base's texture is released whatever its refcount, in
        map order, and the map is emptied. */
    method Release()
      requires Valid()
      modifies this
      ensures Valid()
      ensures biomorphs == []
      ensures released == old(released) + TexturesOf(old(biomorphs))
    {
      var i := 0;
      while i < |biomorphs|
        invariant 0 <= i <= |biomorphs|
        invariant biomorphs == old(biomorphs)
        invariant released == old(released) + TexturesOf(biomorphs[..i])
      {
        assert biomorphs[..i + 1][..i] == biomorphs[..i];
        released := released + [biomorphs[i].value.texture];
        i := i + 1;
      }
      assert biomorphs[..i] == biomorphs;
      biomorphs := [];
    }

    /** GenerateBiomorph: when no base is filed under the genome's hash, the
        biomorph is drawn into freshly restarted buffers and a new base
        holding the genome, refcount 0 and the rendered texture (`produced`,
        the result of CopyOutputTexture) is inserted under the hash, and the
        result is true. Otherwise the result is false and nothing changes,
        even when the stored genome differs (a hash collision, which is only
        reported). */
    method GenerateBiomorph(dna: MorphDNA, produced: Texture2D) returns (generated: bool)
      requires Valid() && MorphDna.Valid(dna)
      modifies this, renderer, renderer.vertices, renderer.indices
      ensures Valid() && released == old(released)
      ensures generated <==> hashOf(dna) !in Keys(old(biomorphs))
      ensures !generated ==> biomorphs == old(biomorphs)
      ensures !generated ==> unchanged(renderer)
      ensures !generated ==> renderer.vertices[..] == old(renderer.vertices[..])
      ensures !generated ==> renderer.indices[..] == old(renderer.indices[..])
      ensures generated ==>
        && Find(biomorphs, hashOf(dna)).Some?
        && var base := biomorphs[Find(biomorphs, hashOf(dna)).value].value;
        && fresh(base) && base.dna == dna && base.refcount == 0 && base.texture == produced
        && biomorphs == Insert(old(biomorphs), hashOf(dna), base)
        && renderer.verticesWritten == 4 * QuadCount(BaseDepth(dna))
        && renderer.indicesWritten == 6 * QuadCount(BaseDepth(dna))
    {
      var morphHash := hashOf(dna);
      var it := Find(biomorphs, morphHash);
      if it.Some? {
        // a stored genome different from dna is a hash collision, only reported
        return false;
      }
      DrawTexture(dna);
      var newBase := FileNewBase(dna, produced);
      InsertContents(old(biomorphs), morphHash, newBase);
      generated := true;
    }

    /** StartRendering, DrawBiomorph and EndRendering: the genome's whole
        tree is drawn into restarted buffers. */
    method DrawTexture(dna: MorphDNA)
      requires renderer.Buffers() && MorphDna.Valid(dna)
      modifies renderer, renderer.vertices, renderer.indices
      ensures renderer.Buffers()
      ensures renderer.verticesWritten == 4 * QuadCount(BaseDepth(dna))
      ensures renderer.indicesWritten == 6 * QuadCount(BaseDepth(dna))
    {
      renderer.StartRendering();
      FreshBuffersFit(dna);
      renderer.DrawBiomorph(dna);
    }

    /** A new base holding the genome, no references and the rendered
        texture, inserted under the genome's hash. */
    method FileNewBase(dna: MorphDNA, produced: Texture2D) returns (newBase: BiomorphBase)
      requires Valid() && hashOf(dna) !in Keys(biomorphs)
      modifies this
      ensures Valid() && released == old(released)
      ensures fresh(newBase) && newBase.dna == dna && newBase.refcount == 0 && newBase.texture == produced
      ensures biomorphs == Insert(old(biomorphs), hashOf(dna), newBase)
    {
      newBase := new BiomorphBase();
      newBase.dna := dna;
      newBase.refcount := 0;
      newBase.texture := produced;
      assert Filed(biomorphs, hashOf);
      InsertSorted(biomorphs, hashOf(dna), newBase);
      InsertKeepsFiled(biomorphs, hashOf, newBase);
      biomorphs := Insert(biomorphs, hashOf(dna), newBase);
    }

    /** CreateInstance: the base filed under the genome's hash gains one
        reference and the instance points at it (without comparing the
        stored genome); with no such base the instance is invalid and nothing
        changes. */
    method CreateInstance(dna: MorphDNA) returns (inst: BiomorphInstance)
      requires Valid()
      modifies Bases()
      ensures Valid() && biomorphs == old(biomorphs)
      ensures var it := Find(biomorphs, hashOf(dna));
        && (it.None? ==> inst == NewInstance())
        && (it.Some? ==> inst.base == biomorphs[it.value].value &&
                         inst.base.refcount == old(inst.base.refcount) + 1)
      ensures forall b :: b in Bases() && b != inst.base ==> b.refcount == old(b.refcount)
      ensures forall b :: b in Bases() ==> b.dna == old(b.dna) && b.texture == old(b.texture)
    {
      inst := NewInstance();
      var it := Find(biomorphs, hashOf(dna));
      if it.Some? {
        var base := biomorphs[it.value].value;
        base.refcount := base.refcount + 1;
        inst := BiomorphInstance(base);
      }
    }

    /** DestroyInstance: a valid instance's base loses one reference, with
        no floor at zero; an invalid instance changes nothing. */
    method DestroyInstance(inst: BiomorphInstance)
      requires Valid()
      modifies if inst.base != null then {inst.base} else {}
      ensures Valid()
      ensures inst.IsValid() ==> inst.base.refcount == old(inst.base.refcount) - 1
    {
      if inst.IsValid() {
        inst.base.refcount := inst.base.refcount - 1;
      }
    }

    /** CleanupDatabase, as written: stepping through the map, each entry
        with refcount <= 0 has its texture released and is erased, and
        scanning restarts at begin() and then steps past it. Callers must
        not reach an erase that empties the map, after which the source
        increments end(). */
    method CleanupDatabase()
      requires Valid()
      requires CleanupDefined(SlotsOf(biomorphs), 0)
      modifies this
      ensures Valid()
      ensures Matches(CleanupFrom(old(SlotsOf(biomorphs)), 0).0, biomorphs)
      ensures released == old(released) + CleanupFrom(old(SlotsOf(biomorphs)), 0).1
      ensures forall i :: 0 <= i < |biomorphs| ==> biomorphs[i] in old(biomorphs)
    {
      var m;
      ghost var sl, rel;
      m, sl, rel := EraseUnreferenced(biomorphs, SlotsOf(biomorphs));
      SubsetFiled(m, biomorphs, hashOf);
      biomorphs, released := m, released + rel;
    }
  }

  /** The loop of CleanupDatabase over the map `m0`, whose slots are `sl0`:
      returns the remaining map, its slots and the textures released, in
      order. */
  method EraseUnreferenced(m0: seq<Entry<BiomorphBase>>, ghost sl0: seq<Slot>)
    returns (m: seq<Entry<BiomorphBase>>, ghost sl: seq<Slot>, ghost rel: seq<Texture2D>)
    requires Sorted(m0) && Matches(sl0, m0) && CleanupDefined(sl0, 0)
    ensures Sorted(m) && Matches(sl, m)
    ensures forall i :: 0 <= i < |m| ==> m[i] in m0
    ensures sl == CleanupFrom(sl0, 0).0 && rel == CleanupFrom(sl0, 0).1
  {
    m, sl, rel := m0, sl0, [];
    var it := 0;
    while it < |m|
      invariant 0 <= it <= |m|
      invariant Sorted(m) && Matches(sl, m)
      invariant forall i :: 0 <= i < |m| ==> m[i] in m0
      invariant CleanupDefined(sl, it)
      invariant CleanupFrom(sl, it).0 == CleanupFrom(sl0, 0).0
      invariant rel + CleanupFrom(sl, it).1 == CleanupFrom(sl0, 0).1
      decreases |m|, |m| - it
    {
      if m[it].value.refcount <= 0 {
        CleanupEraseStep(sl, it, rel);
        rel := rel + [m[it].value.texture];
        EraseKeeps(m, sl, it, m0);
        m, sl := RemoveAt(m, it), RemoveAt(sl, it);
        // it = begin(), then ++it
        it := 1;
      } else {
        assert CleanupFrom(sl, it) == CleanupFrom(sl, it + 1);
        it := it + 1;
      }
    }
    assert CleanupFrom(sl, it) == (sl, []);
    assert rel + [] == rel;
  }

  /** One erase of the cleanup loop, seen from a release trace `rel`. */
  lemma CleanupEraseStep(sl: seq<Slot>, it: nat, rel: seq<Texture2D>)
    requires CleanupDefined(sl, it) && it < |sl| && sl[it].refcount <= 0
    ensures CleanupDefined(RemoveAt(sl, it), 1)
    ensures CleanupFrom(sl, it).0 == CleanupFrom(RemoveAt(sl, it), 1).0
    ensures rel + CleanupFrom(sl, it).1 == (rel + [sl[it].texture]) + CleanupFrom(RemoveAt(sl, it), 1).1
  {
  }

  /** Erasing from a sorted map drawn from `m0` leaves a sorted map drawn
      from `m0`, whose slots are the old slots less the erased one. */
  lemma EraseKeeps(m: seq<Entry<BiomorphBase>>, sl: seq<Slot>, it: nat, m0: seq<Entry<BiomorphBase>>)
    requires it < |m| && Sorted(m) && Matches(sl, m)
    requires forall i :: 0 <= i < |m| ==> m[i] in m0
    ensures Sorted(RemoveAt(m, it)) && Matches(RemoveAt(sl, it), RemoveAt(m, it))
    ensures forall i :: 0 <= i < |RemoveAt(m, it)| ==> RemoveAt(m, it)[i] in m0
  {
    RemoveAtSorted(m, it);
  }

  function TexturesOf(s: seq<Entry<BiomorphBase>>): (r: seq<Texture2D>)
    reads set i | 0 <= i < |s| :: s[i].value
    ensures |r| == |s|
    ensures forall i :: 0 <= i < |s| ==> r[i] == s[i].value.texture
  {
    seq(|s|, i reads set j | 0 <= j < |s| :: s[j].value
               requires 0 <= i < |s| => s[i].value.texture)
  }
}
