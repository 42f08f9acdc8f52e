# Biomorphs core, modelled in Dafny

Biomorphs are recursive branching figures. Each figure's shape and colour
come from a small fixed-width genome, `MorphDNA`, which holds eleven
quantised genes. The program expands a genome into a mesh of quads and
renders it once into a texture. It keeps those textures in a cache keyed
by the genome's hash and counts references to them, so every instance of
the same creature shares one texture. The renderer draws the instances as
sprites.

This project models that core and the small engine underneath it, one
Dafny module per source file:

- **Genome**: `MorphDna`. The genes as bounded naturals, `BASEDEPTH`, `MutateGene` and `MutateDNA`.
- **Generator**: `MorphRender` and `Quads`. The recursive mesh walk: vertex and index counts, index pattern and offsets, and the overflow guard.
- **Cache**: `Biomorph` and `BiomorphManagement`. Bases, instances, reference counts, generation, clean-up and release.
- **Containers and memory**: `Containers` (`Array<T>`), `LinearAllocation`, `Serialisation` and `NamedObjects`.
  - `OrderedMap` stands in for `std::map`: a list of entries sorted by key.
  - `Wrappers` supplies `Option`.
- **Hashing and bounds**: `StringHashing` (djb2 over a C string) and `Bounds` (`Min`/`Max`).
- **Engine services**: `Configuration`, `ModuleManagement` and `Profiling`.
- **Graphics helpers**: `PerfCounters`, `ShadowedDevices` (the state-filtering device wrapper), `VertexLayout`, `Spritemaps`, `SpriteRendering` (the framework sprite renderer) and `MorphSpriteRendering` (the biomorph program's own sprite renderer).

Some parts of the source change state in place. They are classes whose
methods carry `modifies` clauses and whose loops carry invariants. Each
such method is proved against a specification function, and lemmas state
what the source promises about that function. The pure parts are
datatypes, functions and lemmas.

The model assumes the Win32 build:

- `unsigned int`, `unsigned long` and `size_t` have 32 bits.
- `char` is signed.
- Pointers take 4 bytes.

Under these assumptions:

- Addresses and object handles are naturals, and 0 means NULL.
- Floating-point values are opaque `real`s, or symbolic terms such as a colour.
- Anything that comes from outside the model is a parameter of the operation:
  - what `malloc` returns;
  - the texture the renderer produced;
  - what a module or factory answers;
  - timer readings;
  - random draws;
  - the genome hash.
- Direct3D calls are recorded in a ghost trace of device calls.

## Model

| member | source | states |
|---|---|---|
| Bounds.Min | core/minmax.h:9-13 | the result is one of the arguments and no larger than either; on a tie it is the second argument |
| Bounds.Max | core/minmax.h:15-19 | the result is one of the arguments and no smaller than either; on a tie it is the second argument |
| StringHashing.SignedChar | core/string_hashing.h:13-15 | a character enters the hash as a signed char: a value in -128..127 congruent to its code modulo 256 |
| StringHashing.CString | core/string_hashing.h:15 | the hashed characters are the prefix before the first NUL, or the whole sequence when it holds none |
| StringHashing.Djb2 | core/string_hashing.h:12-17 | the hash of any character run fits an unsigned long (below 2^32) |
| StringHashing.GetHash | core/string_hashing.h:10-21 | the loop returns the djb2 hash of the C string (seed 5381, hash*33 + c per character, 32-bit wrap), stopping at the NUL |
| StringHashing.CStringOfPrefix | core/string_hashing.h:15 | a NUL-free prefix that ends at a NUL or at the end of the sequence is exactly the C string |
| StringHashing.EmptyHashIsSeed | core/string_hashing.h:12-15 | the empty string, with or without a NUL, hashes to 5381 |
| StringHashing.HashAppend | core/string_hashing.h:17 | appending a non-NUL character c to a C string turns hash h into (h*33 + c) mod 2^32 |
| StringHashing.HashStopsAtNul | core/string_hashing.h:15 | whatever follows the first NUL never changes the hash |
| StringHashing.HashDependsOnLowBytes | core/string_hashing.h:13-17 | two strings that agree on every character's low byte hash alike |
| StringHashing.HighCharIsNegative | core/string_hashing.h:13 | a character whose low byte is 0xE9 adds -23, not 233 (char is signed) |
| LinearAllocation.AddSize | core/linear_allocator.h:7 | size_t addition stays below 2^32 and is exact when the sum fits |
| LinearAllocation.AlignUp | core/linear_allocator.h:7 | ALIGN_UP yields a size_t value |
| LinearAllocation.AlignUpBounds | core/linear_allocator.h:6-7 | without wrap, ALIGN_UP is the next multiple of align strictly above ptr, so an already aligned ptr gains a whole align |
| LinearAllocation.AllocStep | core/linear_allocator.h:46-58 | an allocation succeeds iff ALIGN_UP(head)+size, wrapped to 32 bits, is below the tail; it then returns the aligned address and moves head by size from the old head; otherwise NULL and head unchanged |
| LinearAllocation.AllocatedBlockInRange | core/linear_allocator.h:46-58 | when nothing wraps, a successful block is aligned, starts above the old head and ends before the tail |
| LinearAllocation.SuccessiveBlocksOverlap | core/linear_allocator.h:53 | two 2-byte allocations with alignment 4 from an aligned head return the same address |
| LinearAllocation.HugeRequestWrapsPastTail | core/linear_allocator.h:49-53 | a request of 0xFFFFF000 bytes with head 0x1000 and tail 0x2000 succeeds, returning 0x1004 and moving head to 0 |
| LinearAllocation.IntendedAllocStep | core/linear_allocator.h:46-58 | corrected allocation: a returned block is aligned, above the old head, ends before the tail, and head moves to its end |
| LinearAllocation.IntendedBlocksDisjoint | core/linear_allocator.h:46-58 | with the corrected step, each successful block lies wholly after the previous one |
| LinearAllocation.LinearAllocator.constructor | core/linear_allocator.h:12-17 | a new allocator holds no buffer and all three pointers are NULL |
| LinearAllocation.LinearAllocator.Initialise | core/linear_allocator.h:24-44 | fails without change when a buffer is held or malloc returns NULL; otherwise head is the buffer and tail is buffer + maxSize |
| LinearAllocation.LinearAllocator.Allocate | core/linear_allocator.h:46-58 | the returned address and the new head are AllocStep's; buffer and tail never change |
| LinearAllocation.LinearAllocator.Release | core/linear_allocator.h:60-67 | a held buffer is freed exactly once and all pointers become NULL; releasing an empty allocator frees nothing |
| Serialisation.NodeType | core/serialiser.h:106-143 | int, unsigned int, float and C strings get their own tags and every other type is TYPE_UNKNOWN, each tag iff its type |
| Serialisation.ValueSize | core/serialiser.h:36-78 | the bytes copied are 4 for int, unsigned int and float, sizeof for other types, and strlen + 1 for a C string |
| Serialisation.Stored | core/serialiser.h:64-69 | the data copy has the value's tag and equals the value, except that a C string keeps only its characters up to the NUL |
| Serialisation.FindNode | core/serialiser.h:80-94 | the position of the earliest node whose key hash matches, and None iff no node matches |
| Serialisation.GetValue | core/serialiser.h:147-201 | a typed read succeeds iff the node's tag is the requested type, returning the stored data; the generic read always fails; a failure leaves the result untouched |
| Serialisation.Serialiser.constructor | core/serialiser.h:11-14 | the node list is empty and the allocator spans maxSize bytes from malloc's block (or holds none when malloc fails) |
| Serialisation.Serialiser.Destroy | core/serialiser.h:15-18 | the allocator's buffer is released |
| Serialisation.Serialiser.AddNode | core/serialiser.h:36-78 | a node and then its data are allocated; only when both succeed is (hash of key, node) appended with the value's size, tag and data; a node allocation is not given back when the data allocation fails; the earlier nodes' values are kept as values, and whether their bytes survive is stated by `NextNodeOverlapsData` |
| Serialisation.Serialiser.GetNode | core/serialiser.h:80-94 | the loop returns the first node whose key hash equals the key's hash, or NULL when none does |
| Serialisation.FindEarliest | core/serialiser.h:83-90 | the first matching position reached by the scan is the one FindNode reports |
| Serialisation.FindAfterAppend | core/serialiser.h:51 | appending a node keeps every earlier lookup, and a hash not present before finds the new node |
| Serialisation.AddThenGet | core/serialiser.h:36-201 | round trip: a typed value added under an unused key hash is found and read back by its own type's GetValue as the value |
| Serialisation.UnknownNeverRead | core/serialiser.h:24-28 | a node of any other type can never be read back |
| Serialisation.NextNodeOverlapsData | core/serialiser.h:39-46 | with no wrap, AddNode's record and data allocations and the next AddNode's record all succeed, and that record starts inside the previous data iff (head + size) % 4 > head % 4; from an aligned head, iff the data size is not a multiple of 4 |
| Serialisation.ShortStringStored | core/serialiser.h:64-69 | the C string "ab" takes 3 bytes with its NUL and is stored whole |
| Serialisation.ShortStringThenIntClobbered | core/serialiser.h:36-78 | from an aligned head, AddNode("a", "ab") then AddNode("b", 1) puts the second record at the first node's data address, so the first node is not Intact |
| Serialisation.IntendedNextNodeAfterData | core/linear_allocator.h:47-56 | with the intended allocation step, the next record starts after the previous node's data, whatever its size |
| Serialisation.WrongTypeFails | core/serialiser.h:147-187 | an int node read as unsigned int or float fails and leaves the result untouched |
| NamedObjects.NamedObjectBuffer.Available | core/named_object_buffer.cpp:17 | the free space is head + bufferSize - tail |
| NamedObjects.NamedObjectBuffer.constructor | core/named_object_buffer.cpp:3-8 | a new buffer has NULL head and tail, size 0 and no objects |
| NamedObjects.NamedObjectBuffer.Initialise | core/named_object_buffer.cpp:42-54 | head takes malloc's result even when NULL; success iff non-NULL, and then tail is head and the size is sizeRequired, leaving an empty buffer consistent |
| NamedObjects.NamedObjectBuffer.AddObjectRaw | core/named_object_buffer.cpp:14-40 | succeeds iff size fits the free space and no object is filed under the name's hash; then the bytes are copied to tail, the object is filed at offset tail - head, tail moves by size and earlier bytes are kept; a failure changes nothing; objects stay packed and disjoint |
| NamedObjects.NamedObjectBuffer.AddObject | core/named_object_buffer.h:91-95 | addObjectRaw with the value's bytes (sizeof(value) of them): succeeds exactly when they fit and the name's hash is free; then the object is filed at the old tail, tail advances by the size and the bytes land there with the earlier bytes kept; on failure nothing changes |
| NamedObjects.NamedObjectBuffer.GetIterator | core/named_object_buffer.h:76-79 | the iterator starts at the entry with the smallest hash, or at end() when the map is empty |
| NamedObjects.InsertPacked | core/named_object_buffer.cpp:28-37 | filing a new object at the used mark keeps all objects inside the used bytes and pairwise disjoint |
| NamedObjects.CopyBytes | core/named_object_buffer.cpp:34 | the memcpy writes the value at the offset and leaves every other byte as it was |
| NamedObjects.Successor | core/named_object_buffer.h:36-41 | ++it moves to the smallest key above the current one, or to end() when there is none |
| NamedObjects.SuccessorIsNext | core/named_object_buffer.h:36-41 | in key order the successor of entry i is entry i+1, and the last entry's successor is end() |
| NamedObjects.NamedObjectIterator.constructor | core/named_object_buffer.h:59-63 | the iterator is at begin() of its buffer's map |
| NamedObjects.NamedObjectIterator.HasData | core/named_object_buffer.h:31-34 | true iff the iterator is not at end() |
| NamedObjects.NamedObjectIterator.Next | core/named_object_buffer.h:36-41 | the iterator moves to the successor entry and reports whether it has data |
| NamedObjects.NamedObjectIterator.Current | core/named_object_buffer.h:43-56 | the object the iterator points at is the one filed under its key |
| NamedObjects.NamedObjectIterator.GetType | core/named_object_buffer.h:43-46 | the type tag filed for the current object |
| NamedObjects.NamedObjectIterator.GetSize | core/named_object_buffer.h:48-51 | the size filed for the current object |
| NamedObjects.NamedObjectIterator.GetValue | core/named_object_buffer.h:53-56 | head + offset, whose bytes lie wholly between head and tail |
| OrderedMap.Find | core/named_object_buffer.cpp:23 | map::find returns the position holding the key, and end() iff the key is absent |
| OrderedMap.FindUnique | core/named_object_buffer.cpp:23 | in a sorted map the entry find reports is the only one with that key |
| OrderedMap.LowerBound | core/named_object_buffer.cpp:36 | every entry before the position has a smaller key and every entry from it on a key at least as large |
| OrderedMap.Insert | core/named_object_buffer.cpp:36 | map::insert never overwrites: a present key leaves the map as it was, an absent key adds exactly one entry |
| OrderedMap.InsertSorted | core/named_object_buffer.cpp:36 | insertion keeps the keys strictly increasing |
| OrderedMap.InsertKeys | core/named_object_buffer.cpp:36 | after insertion the keys are the old keys plus the new one |
| OrderedMap.InsertContents | core/named_object_buffer.cpp:36 | every old entry survives insertion, and an absent key's new entry is present |
| OrderedMap.InsertOnlyAdds | core/named_object_buffer.cpp:36 | insertion adds no entry other than the new one |
| OrderedMap.RemoveAt | biomorphs/biomorph_manager.cpp:91 | map::erase removes exactly the entry at the position: those before it stay and those after it move down by one (used for the map and for its slot view) |
| OrderedMap.RemoveAtSorted | biomorphs/biomorph_manager.cpp:91 | erasing keeps the map sorted and removes its key |
| Containers.Array.Contents | core/array.h:49-52 | the live elements number m_head - m_buffer |
| Containers.Array.Size | core/array.h:49-52 | size() is the number of live elements |
| Containers.Array.MaxSize | core/array.h:54-57 | the capacity is at least the size, and 0 iff no buffer is held |
| Containers.Array.constructor | core/array.h:10-16 | a new array has no buffer, no elements, capacity 0 and does not grow |
| Containers.Array.Destroy | core/array.h:23-32 | the buffer is freed and size and capacity become 0 |
| Containers.Array.DeleteAll | core/array.h:34-37 | the array becomes empty and keeps its buffer and capacity |
| Containers.Array.Get | core/array.h:39-47 | operator[] yields the element iff idx < size(), and NULL otherwise |
| Containers.Array.Init | core/array.h:59-78 | succeeds iff size is non-zero, no buffer is held and malloc succeeds, leaving an empty array of that capacity and grow flag; a failure changes nothing |
| Containers.Array.FastDelete | core/array.h:80-91 | an in-range index gets the last element and the array shrinks by one; any other index changes nothing |
| Containers.Array.PushBackDefault | core/array.h:94-132 | with room, a default element is appended at position size(); when full, a growable array whose malloc succeeds doubles its capacity keeping the elements and appends; otherwise NULL and nothing changes |
| Containers.Array.PushBack | core/array.h:134-143 | the value is appended at position size(), and the capacity stays or doubles |
| Containers.Copy | core/array.h:104 | the memcpy puts the old buffer at the front of the new one |
| Biomorph.BiomorphBase.constructor | biomorphs/biomorph.h:12-16 | a new base has refcount 0 and an invalidated texture, so it is not valid |
| Biomorph.BiomorphInstance.GetTexture | biomorphs/biomorph.h:38-46 | the base's texture iff the instance is valid, and NULL otherwise |
| Biomorph.NewInstance | biomorphs/biomorph.h:33-36 | a default instance is invalid and has no texture |
| BiomorphManagement.SlotsOf | biomorphs/biomorph_manager.cpp:88 | the key, refcount and texture of each map entry, in map order |
| BiomorphManagement.SlotTextures | biomorphs/biomorph_manager.cpp:90 | the textures of the entries, position by position |
| BiomorphManagement.CleanupReleasesOwnTextures | biomorphs/biomorph_manager.cpp:86-92 | the released textures plus the kept entries' textures are, with multiplicity, exactly the map's textures: each erased entry releases its own texture |
| BiomorphManagement.CleanupKeepsReferenced | biomorphs/biomorph_manager.cpp:82-95 | cleanup as written never erases an entry with a positive refcount, keeps only entries of the map, releases one texture per erased entry, and releases only textures of entries with refcount <= 0 |
| BiomorphManagement.CleanupSkipsSuccessor | biomorphs/biomorph_manager.cpp:90-92 | of two unreferenced entries the second survives: after an erase the loop restarts at begin() and then steps past it |
| BiomorphManagement.CleanupOfLoneUnreferencedIsUndefined | biomorphs/biomorph_manager.cpp:84-92 | erasing the only entry is followed by ++ on end() |
| BiomorphManagement.CleanupIntendedExact | biomorphs/biomorph_manager.cpp:82-95 | corrected cleanup: exactly the entries with positive refcount remain, and one texture is released per other entry |
| BiomorphManagement.SubsetFiled | biomorphs/biomorph_manager.cpp:50-73 | entries taken from a map where each base is filed under its genome's hash are filed the same way |
| BiomorphManagement.InsertKeepsFiled | biomorphs/biomorph_manager.cpp:73 | inserting a base under its own genome's hash keeps every base filed under its own hash |
| BiomorphManagement.BiomorphManager.Bases | biomorphs/biomorph_manager.cpp:34-43 | every base in the map |
| BiomorphManagement.BiomorphManager.constructor | biomorphs/biomorph_manager.cpp:4-7 | a new manager has an empty database and has released nothing |
| BiomorphManagement.BiomorphManager.Release | biomorphs/biomorph_manager.cpp:30-46 | every base's texture is released in map order whatever its refcount, and the map is emptied |
| BiomorphManagement.BiomorphManager.GenerateBiomorph | biomorphs/biomorph_manager.cpp:48-80 | true iff no base was filed under the genome's hash; then exactly one new base with the genome, refcount 0 and the rendered texture is inserted under that hash after the whole tree is drawn; otherwise false and nothing changes, neither the map nor the renderer and its buffers, even on a hash collision |
| BiomorphManagement.BiomorphManager.DrawTexture | biomorphs/biomorph_manager.cpp:63-65 | StartRendering, DrawBiomorph and EndRendering leave 4 vertices and 6 indices per quad of the genome's tree in the buffers |
| BiomorphManagement.BiomorphManager.FileNewBase | biomorphs/biomorph_manager.cpp:67-75 | the new base holds the genome, refcount 0 and the produced texture, and is inserted under the genome's hash |
| BiomorphManagement.BiomorphManager.CreateInstance | biomorphs/biomorph_manager.cpp:97-109 | a base filed under the genome's hash gains exactly one reference and the instance points at it; with none, the instance is invalid; no other refcount, genome or texture changes |
| BiomorphManagement.BiomorphManager.DestroyInstance | biomorphs/biomorph_manager.cpp:111-117 | a valid instance's base loses one reference with no floor at zero; an invalid one changes nothing |
| BiomorphManagement.BiomorphManager.CleanupDatabase | biomorphs/biomorph_manager.cpp:82-95 | the map becomes what the as-written loop leaves and the textures released are the ones it releases, in order; the remaining entries all come from the old map |
| BiomorphManagement.EraseUnreferenced | biomorphs/biomorph_manager.cpp:84-94 | the erase-while-iterating loop leaves the as-written cleanup's map and release sequence, and the map stays sorted |
| BiomorphManagement.CleanupEraseStep | biomorphs/biomorph_manager.cpp:88-92 | one erase followed by the reset to begin() and ++ continues the cleanup at position 1 of the shorter map |
| BiomorphManagement.EraseKeeps | biomorphs/biomorph_manager.cpp:91 | erasing keeps the map sorted and drawn from the original map |
| BiomorphManagement.TexturesOf | biomorphs/biomorph_manager.cpp:42 | the textures of the map's bases, in map order |
| MorphDna.Pow2 | biomorphs/morph_dna.h:24-34 | a bit-field of width w holds values below Pow2(w), which is at least 1 |
| MorphDna.Genes | biomorphs/morph_dna.h:24-34 | the genome has eleven fields, in the order of the mutation switch |
| MorphDna.StoreBits | biomorphs/morph_dna.h:61-73 | storing into a bit-field keeps a value below 2^width, and unchanged when it already fits |
| MorphDna.LowBits | biomorphs/morph_dna.h:61-73 | the residue kept by a bit-field of m values lies below m |
| MorphDna.DefaultDNA | biomorphs/morph_dna.h:15-19 | the default genome has every field zero and fits its bit-fields |
| MorphDna.MakeDNA | biomorphs/morph_dna.h:52-76 | the built genome fits its bit-fields and its depth field is branches modulo 16 (branches itself below 16) |
| MorphDna.BaseDepth | biomorphs/morph_dna.h:79-82 | BASEDEPTH is one more than the depth field, so 1..16 for any valid genome |
| MorphDna.MutateGene | biomorphs/morph_dna.h:170-178 | with min <= max the result lies in [min, max]; it equals original + modification when that is in range, is exactly min when the sum falls below min, and exactly max when the sum exceeds max; it never exceeds max |
| MorphDna.Direction | biomorphs/morph_dna.h:183-184 | the direction is +1 iff the draw exceeds 50, and -1 otherwise |
| MorphDna.SetGene | biomorphs/morph_dna.h:186-221 | assigning one field changes that gene and no other |
| MorphDna.MutateDNA | biomorphs/morph_dna.h:180-222 | a gene index 0..10 has its field clamped from old value + direction * step into the switch's range, all other fields unchanged; any other index changes nothing; a valid genome stays valid |
| MorphDna.ClampFitsWidth | biomorphs/morph_dna.h:186-221 | every clamp range of the switch is non-empty, positive and fits its field's bit width |
| MorphDna.MutationStaysInClampRange | biomorphs/morph_dna.h:186-221 | a mutated field always lies in its clamp range |
| MorphDna.FrozenGenesSnap | biomorphs/morph_dna.h:189-210 | mutating gene 0 sets the depth field to 15, and genes 5-7 set their colour field to 31, whatever the old value and direction |
| MorphDna.InteriorMutationSteps | biomorphs/morph_dna.h:186-221 | away from the clamp bounds a mutation moves the field by exactly the gene's step in the drawn direction |
| MorphDna.MutatedDepthInRange | biomorphs/morph_dna.h:79-82 | after any mutation of a valid genome BASEDEPTH stays in 1..16, and is 16 after mutating gene 0 |
| MorphRender.QuadCountIsPow2MinusOne | biomorphs/morph_render.cpp:99-131 | a subtree of depth d draws 2^d - 1 quads, so 4(2^d - 1) vertices and 6(2^d - 1) indices |
| MorphRender.IndexAtClosedForm | biomorphs/morph_render.cpp:90-96 | the t-th quad of indices in pre-order uses exactly the t-th quad of vertices, offset + 4t + 0, 2, 1, 0, 3, 2 |
| MorphRender.IndexAtInRange | biomorphs/morph_render.cpp:117-123 | every index a subtree writes addresses one of its own vertices |
| MorphRender.VertexAtShape | biomorphs/morph_render.cpp:74-86 | vertex 4t + c is corner c of quad t, the four vertices of a quad share one colour, the root quad has BASECOLOUR and every other quad a BRANCHCOLOUR of a smaller depth |
| MorphRender.GuardAdmitsOverflow | biomorphs/morph_render.cpp:139-143 | the guard uses a strict comparison on the counters only, so with both buffers full it lets a genome through that cannot fit |
| MorphRender.QuadCountMonotone | biomorphs/morph_render.cpp:41-44 | a deeper tree draws at least as many quads |
| MorphRender.FreshBuffersFit | biomorphs/morph_render.cpp:158-165 | after StartRendering every valid genome fits: at most 65535 quads |
| MorphRender.QuadCountAtSixteen | biomorphs/morph_dna.h:24 | the deepest tree (BASEDEPTH 16) draws 65535 quads |
| MorphRender.VerticesOfIndexCount | biomorphs/morph_render.cpp:122-123 | a child's index count 6q advances the vertex cursor and offset by exactly 4q |
| MorphRender.MorphRenderer.constructor | biomorphs/morph_render.cpp:4-6 | the vertex and index buffers have the capacities kMaxVertices and kMaxIndices |
| MorphRender.MorphRenderer.StartRendering | biomorphs/morph_render.cpp:158-165 | both written counters return to 0 |
| MorphRender.MorphRenderer.EmitQuad | biomorphs/morph_render.cpp:74-97 | the branch's four corners carry its colour and its six indices are vertexOffset + 0, 2, 1, 0, 3, 2; nothing else is written |
| MorphRender.MorphRenderer.DrawRecursive | biomorphs/morph_render.cpp:39-135 | returns 6 indices per quad of the subtree (0 for depth <= 0) and writes exactly the pre-order vertex and index streams of the subtree at the two cursors, leaving every other slot unchanged |
| MorphRender.MorphRenderer.DrawBiomorph | biomorphs/morph_render.cpp:137-156 | when the guard fires nothing changes; otherwise the whole tree of depth BASEDEPTH is appended after what is written, with indices based at the vertex counter, both counters advance by 4 and 6 per quad, and earlier contents are kept |
| Quads.QuadCorner | biomorphs/morph_render.cpp:90-96 | each of a quad's six indices names one of its four corners |
| Quads.TileIndex | framework/graphics/sprite_render.cpp:122-130 | a sprite index fits an unsigned short, and is tile k/6's corner above 4(k/6) while that fits |
| Quads.TileIndexWithinTile | framework/graphics/sprite_render.cpp:122-130 | while addressable in 16 bits, each of a tile's six indices names one of the tile's own four vertices |
| Quads.TileIndexExact | framework/graphics/sprite_render.cpp:122-130 | with at most 16384 tiles nothing is truncated and every index addresses a written vertex |
| Quads.WriteTileIndices | framework/graphics/sprite_render.cpp:120-131 | the loop gives tile t the indices 4t + 0, 2, 1, 0, 3, 2 as unsigned shorts and writes nothing past the last tile |
| Quads.Truncate16 | framework/graphics/sprite_render.cpp:124-129 | storing an int into an unsigned short keeps it modulo 65536 |
| Quads.WriteTile | framework/graphics/sprite_render.cpp:122-130 | one pass writes exactly tile t's six indices |
| VertexLayout.FormatSize | framework/graphics/vertex_descriptor.h:18-34 | 8, 12 and 16 bytes exactly for the 2-, 3- and 4-float formats, and 0 exactly for any other format |
| VertexLayout.DefaultElement | framework/graphics/vertex_descriptor.h:36-44 | a default element has every numeric field zero, is per-vertex, and its format has size 0 |
| VertexLayout.Assign | framework/graphics/vertex_descriptor.h:51-62 | operator= as written copies every field except the semantic index, which keeps the destination's; the copy is exact iff the two indices already agree |
| VertexLayout.AssignLosesSemanticIndex | framework/graphics/vertex_descriptor.h:54 | assigning an element with semantic index 1 onto a default element leaves index 0 |
| VertexLayout.AssignIntended | framework/graphics/vertex_descriptor.h:51-62 | corrected operator=: the destination becomes equal to the source |
| VertexLayout.AsUnsigned | framework/graphics/vertex_descriptor.h:103 | the int stream argument compared with an unsigned field converts modulo 2^32, exact for non-negative values |
| VertexLayout.Pick | framework/graphics/vertex_descriptor.h:97-108 | the element chosen is on the stream with the largest offset, the last such in list order; none iff no element is on the stream |
| VertexLayout.PickStep | framework/graphics/vertex_descriptor.h:103-107 | one more element changes the pick exactly as one loop step does |
| VertexLayout.VertexSize | framework/graphics/vertex_descriptor.h:94-116 | the size fits an unsigned int and is 0 when no element is on the stream |
| VertexLayout.MorphVertexSize | framework/graphics/vertex_descriptor.h:94-116 | a 2-float position at 0 and a 4-float colour at 8 give 24 bytes per vertex |
| VertexLayout.SpriteVertexSize | framework/graphics/vertex_descriptor.h:94-116 | two 2-float elements at 0 and 8 give 16 bytes per vertex |
| VertexLayout.LaterElementWinsTie | framework/graphics/vertex_descriptor.h:103 | because the comparison is >=, of two elements at the same largest offset the later one decides the size |
| VertexLayout.VertexDescriptor.constructor | framework/graphics/vertex_descriptor.h:122 | a new descriptor has no elements |
| VertexLayout.VertexDescriptor.AddElement | framework/graphics/vertex_descriptor.h:84-87 | the element is appended at the end of the list |
| VertexLayout.VertexDescriptor.Invalidate | framework/graphics/vertex_descriptor.h:89-92 | the list becomes empty |
| VertexLayout.VertexDescriptor.GetVertexSize | framework/graphics/vertex_descriptor.h:94-116 | the loop returns the largest offset on the stream plus its element's format size, or 0 when the stream has none |
| SpriteRendering.AsUnsignedId | framework/graphics/sprite_render.cpp:88-94 | the int sprite id reaches GetSprite's unsigned id modulo 2^32, unchanged when non-negative |
| SpriteRendering.SpriteUVs | framework/graphics/sprite_render.cpp:89-95 | the UVs are (0,0)-(1,1) when there is no spritemap or it lacks the id |
| SpriteRendering.MeshVertex | framework/graphics/sprite_render.cpp:97-112 | vertex k is a corner of sprite k/4, placed relative to that sprite's position |
| SpriteRendering.IndexCount | framework/graphics/sprite_render.cpp:52 | the draw's index count is size() * 6 as an unsigned int, exactly 6 per sprite when that fits |
| SpriteRendering.CornerSlots | framework/graphics/sprite_render.cpp:102-112 | vertex slots 4a..4a+3 are sprite a's four corners |
| SpriteRendering.SpriteRender.constructor | framework/graphics/sprite_render.h:51-60 | a new renderer has an empty sprite list, no buffers, no spritemap and an empty vertex description |
| SpriteRendering.SpriteRender.AddSprite | framework/graphics/sprite_render.cpp:11-19 | the sprite is appended to the list and the mesh is marked dirty; the buffers are untouched |
| SpriteRendering.SpriteRender.RemoveSprites | framework/graphics/sprite_render.cpp:175-179 | the list is emptied, keeping its capacity, and the mesh is marked dirty |
| SpriteRendering.SpriteRender.Create | framework/graphics/sprite_render.cpp:66-78 | succeeds iff the list's init succeeds; then the shader, spritemap and texture are recorded and the buffers are built, with a 16-byte vertex on a fresh description |
| SpriteRendering.SpriteRender.InitGraphics | framework/graphics/sprite_render.cpp:137-173 | POSITION and TEXCOORD are appended to the vertex description, the vertex size read back is 16 on a fresh description, and the buffers hold 4 vertices and 6 indices per sprite of capacity |
| SpriteRendering.SpriteRender.Release | framework/graphics/sprite_render.cpp:58-64 | the sprite list is destroyed and the buffers are released |
| SpriteRendering.SpriteRender.UpdateSpriteMesh | framework/graphics/sprite_render.cpp:80-135 | afterwards the vertex buffer holds every listed sprite's four corners with its spritemap UVs (or (0,0)-(1,1)), in list order, and the index buffer each tile's six indices |
| SpriteRendering.SpriteRender.LookupUVs | framework/graphics/sprite_render.cpp:89-95 | the UVs are the spritemap's for the id, or (0,0)-(1,1) |
| SpriteRendering.SpriteRender.Draw | framework/graphics/sprite_render.cpp:21-56 | the mesh is rebuilt iff dirty and the flag is cleared; the renderer's texture, or else the spritemap's, is bound; the technique, input layout, topology, index buffer, vertex buffer and one draw of size() * 6 indices are issued in that order |
| SpriteRendering.PositionElement | framework/graphics/sprite_render.cpp:139-144 | the first element is a 2-float position at offset 0 on stream 0 |
| SpriteRendering.TexcoordElement | framework/graphics/sprite_render.cpp:145-147 | the second element is a 2-float texcoord at offset 8 on stream 0 |
| SpriteRendering.SpriteLayoutSize | framework/graphics/sprite_render.cpp:150 | the sprite layout is 16 bytes per vertex |
| SpriteRendering.DescribeLayout | framework/graphics/sprite_render.cpp:139-150 | the two elements are appended and the size read back is 16 on a fresh description |
| SpriteRendering.NewBuffers | framework/graphics/sprite_render.cpp:151-167 | the buffers hold 4 vertices and 6 indices per sprite of capacity |
| SpriteRendering.WriteQuad | framework/graphics/sprite_render.cpp:102-112 | the four corners of one quad are written at the cursor and nothing else changes |
| MorphSpriteRendering.TileOf | biomorphs/sprite_render.cpp:84-104 | a sprite yields a tile iff the spritemap knows its id, and the tile sits at the sprite's position |
| MorphSpriteRendering.Tiles | biomorphs/sprite_render.cpp:82-106 | the mesh holds at most one tile per sprite |
| MorphSpriteRendering.TilesStep | biomorphs/sprite_render.cpp:82-106 | one more sprite extends the tiles exactly as one loop pass does |
| MorphSpriteRendering.AllTilesIffAllKnown | biomorphs/sprite_render.cpp:87 | every sprite gets a tile iff the spritemap knows every listed id |
| MorphSpriteRendering.TileVertex | biomorphs/sprite_render.cpp:93-103 | vertex k is corner k % 4 of a unit quad at tile k/4's position |
| MorphSpriteRendering.UnknownIdLeavesStaleIndices | biomorphs/sprite_render.cpp:45 | a sprite with an unknown id makes the draw count 6 * size() exceed the indices the rebuild wrote |
| MorphSpriteRendering.SpriteRender.constructor | biomorphs/sprite_render.h:38-46 | a new renderer has an empty sprite list, no buffers, no spritemap and an empty vertex description |
| MorphSpriteRendering.SpriteRender.AddSprite | biomorphs/sprite_render.cpp:11-18 | the sprite is appended to the list and the mesh is marked dirty |
| MorphSpriteRendering.SpriteRender.RemoveSprites | biomorphs/sprite_render.cpp:167-171 | the list is emptied, keeping its capacity, and the mesh is marked dirty |
| MorphSpriteRendering.SpriteRender.Create | biomorphs/sprite_render.cpp:59-70 | succeeds iff the list's init succeeds; then the shader and spritemap are recorded and the buffers are built |
| MorphSpriteRendering.SpriteRender.InitGraphics | biomorphs/sprite_render.cpp:129-165 | the same layout and buffers as the framework renderer: 16 bytes per vertex, 4 vertices and 6 indices per sprite of capacity |
| MorphSpriteRendering.SpriteRender.Release | biomorphs/sprite_render.cpp:51-57 | the sprite list is destroyed and the buffers are released |
| MorphSpriteRendering.SpriteRender.UpdateSpriteMesh | biomorphs/sprite_render.cpp:72-127 | the vertex buffer holds a unit quad for each sprite the spritemap knows, skipping the others, and the index buffer the six indices of each tile drawn |
| MorphSpriteRendering.SpriteRender.Draw | biomorphs/sprite_render.cpp:20-49 | the mesh is rebuilt iff dirty; the spritemap's texture is bound; the shadowed device ends up with the technique at pass 0, the layout, triangles and both buffers set; its whole observable state is AfterSubmit of the state before: the calls forwarded are exactly SubmitCalls of the cache before, ending in one draw of size() * 6 indices; the effect, index-buffer and vertex-buffer counters rise by one exactly when their call is forwarded and the draw counter always; render targets and the other streams are untouched |
| MorphSpriteRendering.SpriteRender.Prepare | biomorphs/sprite_render.cpp:22-35 | the mesh is rebuilt only when dirty and the flag is cleared; the spritemap's texture is bound; the handles and input layout are kept |
| MorphSpriteRendering.Submit | biomorphs/sprite_render.cpp:37-48 | the device's whole observable state becomes AfterSubmit of the state before: those states set, exactly SubmitCalls of the cache before appended, each change counter up by one exactly when its call is forwarded, the draw counter always, render targets and streams 1..15 untouched; the technique's dirty flag is cleared |
| MorphSpriteRendering.SubmitState | biomorphs/sprite_render.cpp:37-39 | technique, layout and topology set, only changed ones forwarded, the effect counter rising exactly when the technique call is forwarded and no other counter moving |
| MorphSpriteRendering.SubmitBuffers | biomorphs/sprite_render.cpp:41-48 | index buffer and stream 0 set, only changed ones forwarded and counted, then the draw forwarded and counted; the other caches and the effect counter unchanged |
| MorphSpriteRendering.AfterSubmit | biomorphs/sprite_render.cpp:37-48 | the device state after a draw: technique at pass 0, the layout, triangles, the index buffer and stream-0 buffer cached; render targets and streams 1..15 as before; each change counter up by one exactly when its call is forwarded, the draw counter up by one; SubmitCalls appended to the calls |
| MorphSpriteRendering.SubmitCalls | biomorphs/sprite_render.cpp:37-48 | between one and six calls, the last always the draw; the draw comes first, alone, exactly when every Set* matches the cache and the technique is clean |
| MorphSpriteRendering.RepeatDrawOnlyDraws | biomorphs/sprite_render.cpp:28-48 | from the state a draw leaves behind, drawing again forwards the technique (counted as an effect change) exactly when the second draw's technique is dirty, then the draw call, and moves no other counter; when that technique is clean, only the draw call |
| MorphSpriteRendering.WriteVertices | biomorphs/sprite_render.cpp:82-106 | the loop returns the number of tiles, at most one per sprite, and writes exactly their quads in order |
| MorphSpriteRendering.EmitSprite | biomorphs/sprite_render.cpp:84-105 | a known sprite appends its tile's quad, an unknown one writes nothing |
| MorphSpriteRendering.LookupTile | biomorphs/sprite_render.cpp:87 | the lookup yields the sprite's tile, or none for an unknown id |
| MorphSpriteRendering.AppendQuad | biomorphs/sprite_render.cpp:93-103 | one tile's quad is written after the tiles already written |
| Spritemaps.IndexOfId | framework/graphics/spritemap.cpp:34-43 | the position of the first sprite with the id, and None iff no sprite has it |
| Spritemaps.Spritemap.constructor | framework/graphics/spritemap.h:28-29 | a new spritemap has an empty, unallocated table |
| Spritemaps.Spritemap.Init | framework/graphics/spritemap.cpp:3-8 | the texture is stored; the table gets capacity maxSprites (as unsigned) when its init succeeds, and is otherwise left as it was |
| Spritemaps.Spritemap.Release | framework/graphics/spritemap.cpp:10-13 | the table is destroyed |
| Spritemaps.Spritemap.AddSprite | framework/graphics/spritemap.cpp:15-30 | a present id changes nothing; a new id is appended with its UVs; ids stay distinct |
| Spritemaps.Spritemap.GetSprite | framework/graphics/spritemap.cpp:32-44 | true iff the id is present, then with that sprite's UVs; otherwise false with the UVs as they came in |
| Spritemaps.FirstMatch | framework/graphics/spritemap.cpp:34-41 | the first matching position reached by the scan is the one IndexOfId reports |
| Spritemaps.AppendedSpriteFound | framework/graphics/spritemap.cpp:25-29 | after a new id is appended, GetSprite finds it there and every other id where it was before |
| ShadowedDevices.Device.constructor | framework/graphics/shadowed_device.h:148 | the device has received no calls yet |
| ShadowedDevices.EffectTechnique.constructor | framework/graphics/shadowed_device.h:124-130 | a technique carries its native handle and its dirty flag |
| ShadowedDevices.ShadowedDevice.constructor | framework/graphics/shadowed_device.h:28-32 | every cached state starts invalid: NULL handles, PRIMITIVE_NA and pass -1 |
| ShadowedDevices.ShadowedDevice.Invalidate | framework/graphics/shadowed_device.h:100-115 | every cache becomes invalid, all 16 vertex-buffer slots included, with no device call |
| ShadowedDevices.ShadowedDevice.StartFrame | framework/graphics/shadowed_device.h:41-45 | every statistic reads 0 and every cache is invalid |
| ShadowedDevices.ShadowedDevice.SetRenderTargets | framework/graphics/shadowed_device.h:51-60 | the call reaches the device iff either target differs from the cached one; the cache then holds both; nothing else changes |
| ShadowedDevices.ShadowedDevice.SetPrimitiveTopology | framework/graphics/shadowed_device.h:62-69 | forwarded iff the topology differs from the cached one, which then holds it |
| ShadowedDevices.ShadowedDevice.SetInputLayout | framework/graphics/shadowed_device.h:71-78 | forwarded iff the layout differs from the cached one, which then holds it |
| ShadowedDevices.ShadowedDevice.SetVertexBuffer | framework/graphics/shadowed_device.h:80-88 | for a stream below 16 (the int compared as unsigned, so never a negative one) whose cached buffer differs, the slot is updated, the call forwarded and one VB change counted; otherwise nothing changes |
| ShadowedDevices.ShadowedDevice.SetIndexBuffer | framework/graphics/shadowed_device.h:90-98 | forwarded and counted as one IB change iff the buffer differs from the cached one |
| ShadowedDevices.ShadowedDevice.DrawIndexed | framework/graphics/shadowed_device.h:117-122 | always forwarded, and counted as one draw call |
| ShadowedDevices.ShadowedDevice.SetTechnique | framework/graphics/shadowed_device.h:124-135 | when the technique or pass differs or the technique is dirty, both are cached, the dirty flag is cleared, and the call is forwarded and counted as one effect change; otherwise nothing changes |
| PerfCounters.PerfGrab.constructor | framework/graphics/perf_grab.h:8-10 | the static table has SlotCount zeroed slots |
| PerfCounters.PerfGrab.Reset | framework/graphics/perf_grab.h:20-28 | the default argument -1 zeroes every slot, and any other argument changes nothing |
| PerfCounters.PerfGrab.ResetIntended | framework/graphics/perf_grab.h:20-28 | corrected Reset: -1 zeroes every slot, an in-range slot zeroes that slot alone |
| PerfCounters.PerfGrab.Increment | framework/graphics/perf_grab.h:30-36 | an in-range slot gains count and every other slot is unchanged; an out-of-range slot changes nothing |
| PerfCounters.PerfGrab.Decrement | framework/graphics/perf_grab.h:38-44 | as written, an in-range slot GAINS count, exactly as Increment does |
| PerfCounters.PerfGrab.DecrementIntended | framework/graphics/perf_grab.h:38-44 | corrected Decrement: an in-range slot loses count |
| PerfCounters.PerfGrab.Grab | framework/graphics/perf_grab.h:46-49 | the slot's value when in range, and 0 otherwise |
| PerfCounters.IncrementThenDecrement | framework/graphics/perf_grab.h:30-44 | as written, a Decrement meant to undo an Increment leaves the slot 2 * count above where it started |
| PerfCounters.IncrementThenDecrementIntended | framework/graphics/perf_grab.h:30-44 | with the corrected Decrement the pair restores every counter |
| PerfCounters.ResetOneSlotKeepsCount | framework/graphics/perf_grab.h:22-23 | as written, Reset of one in-range slot leaves its non-zero count in place |
| PerfCounters.ResetOneSlotIntended | framework/graphics/perf_grab.h:20-28 | with the corrected Reset the slot reads 0 and the other slots are kept |
| Profiling.FindId | core/profiler.h:95-105 | the position of the first entry with the id, and None iff no entry has it |
| Profiling.FindNumbered | core/profiler.h:113 | in a list numbered from 1, id k is found exactly for 1 <= k <= size, at position k - 1 |
| Profiling.FindFirst | core/profiler.h:95-104 | the first matching position reached by the scan is the one FindId reports |
| Profiling.ProfilerSingleton.constructor | core/profiler.h:77-82 | no entries, the first id is 1 and the level is 0 |
| Profiling.ProfilerSingleton.TotalData | core/profiler.h:66-69 | the number of entries |
| Profiling.ProfilerSingleton.Reset | core/profiler.h:126-131 | the list is cleared, ids restart at 1 and the level at 0 |
| Profiling.ProfilerSingleton.SetProfileData | core/profiler.h:91-124 | id 0 appends an entry with the next id and the current level, advances both and returns the id; a known id closes the first entry carrying it (time difference = now - its timestamp), drops the level by one and returns the id; an unknown id returns -1 and changes nothing; entries stay numbered 1, 2, 3, ... |
| Profiling.ScopedProfiler.constructor | core/profiler.h:136-142 | opening inside k open scopes records level k under an id one past the entries so far, at least 1 |
| Profiling.ScopedProfiler.Close | core/profiler.h:143-148 | the entry numbered with the scope's id, while listed, gets its time difference and the level drops by one; otherwise nothing changes |
| Configuration.SkipSpace | core/config.cpp:37 | %d first skips white space: the result is a suffix of the text, everything dropped is white space, and the rest starts with something else or is empty |
| Configuration.DigitCount | core/config.cpp:37 | the length of the longest leading run of decimal digits: every counted character is a digit and the next one is not |
| Configuration.DecimalText | core/config.cpp:37 | the decimal text of a natural number is non-empty and made only of digits |
| Configuration.DigitsValueOfDecimal | core/config.cpp:37 | the digit value of a number's decimal text is the number |
| Configuration.ScanDecimal | core/config.cpp:37 | round trip: %d reads back the decimal text of any natural number, after any leading white space |
| Configuration.ElementOfType | core/config.cpp:25-43 | "String" keeps the text, "Boolean" is true exactly for "True", "Unsigned Int" fails exactly when sscanf_s returns 0, stores the converted number modulo 2^32 when %d converted one and 0 when the text is blank (EOF), any other type fails |
| Configuration.BlankScansAsEnd | core/config.cpp:37 | sscanf_s reports end of input (EOF) exactly when the text is all white space |
| Configuration.BlankUIntStoresZero | core/config.cpp:36-40 | as written, an "Unsigned Int" whose text is blank is accepted and stored as 0, because EOF is not 0 |
| Configuration.ElementOfTypeIntended | core/config.cpp:34-43 | corrected: an "Unsigned Int" is stored exactly when a number was converted, as that number modulo 2^32; the other types are unchanged |
| Configuration.IntendedUIntNeedsDigits | core/config.cpp:36-40 | the corrected version refuses blank text yet still reads every decimal number, with leading white space, modulo 2^32 |
| Configuration.Stored | core/config.h:64-79 | the element found by a name is absent exactly when no entry has the name's hash, and otherwise is the value of that entry |
| Configuration.AddOfType | core/config.cpp:15-44 | addElementOfType succeeds exactly when the name's hash is free and the type and text give an element; success inserts that element under the hash, failure changes nothing, and the map stays ordered |
| Configuration.AddThenGet | core/config.h:64-96 | an element added under a fresh name is found again as the value it was given, and every name with a different hash keeps what it had |
| Configuration.KeyName | core/config.cpp:52-54 | the key is the group, a dot, then the name |
| Configuration.GroupName | core/config.cpp:82-87 | a nested group's name is the parent, a dot and the group's name, or just the name at top level |
| Configuration.ParseValueStep | core/config.cpp:46-62 | undefined exactly when the element has no Name; false with nothing added when Type or Value is missing; the map stays ordered |
| Configuration.ParseElements | core/config.cpp:64-99 | walking the siblings keeps the map ordered |
| Configuration.ParseKeepsElements | core/config.cpp:64-99 | parsing never removes or changes an element that was already filed |
| Configuration.ParseFilesEveryElement | core/config.cpp:64-99 | a walk that returns true has filed an element under the key name of every Element below it, nested groups included |
| Configuration.Config.constructor | core/config.cpp:122-124 | a new configuration holds no element |
| Configuration.Config.AddElement | core/config.h:81-96 | returns true and inserts under the name's hash; an element already filed under that hash is kept |
| Configuration.Config.GetElement | core/config.h:64-79 | found exactly when the name's hash is filed, giving that element; otherwise the caller's element is left as it was |
| Configuration.Config.AddElementOfType | core/config.cpp:15-44 | the result and the new map are those of AddOfType on the old map |
| Configuration.Config.ParseValue | core/config.cpp:46-62 | the result and the new map are those of ParseValueStep on the old map |
| Configuration.Config.ParseGroups | core/config.cpp:64-99 | the loop's result and the new map are those of ParseElements on the old map |
| ModuleManagement.Handles | core/module_manager.cpp:72 | the modules the loops call: no NULL among them, at most one per entry, and exactly one per entry when none is NULL |
| ModuleManagement.UntilFailure | core/module_manager.cpp:65-79 | the result is true exactly when every module answers true; then all were called, otherwise the called modules are a prefix ending with the first that answered false, every earlier one having answered true |
| ModuleManagement.ModuleOf | core/module_manager.cpp:52-63 | NULL when no module has the name's hash, otherwise the module filed under it |
| ModuleManagement.FactoryRegistry.constructor | core/module_manager.cpp:9 | the registry starts empty |
| ModuleManagement.FactoryRegistry.RegisterFactory | core/module_manager.cpp:174-186 | succeeds exactly when the type name's hash is not yet registered, adding exactly that key; otherwise nothing changes |
| ModuleManagement.ModuleManager.constructor | core/module_manager.cpp:11-13 | a new manager holds no module |
| ModuleManagement.ModuleManager.GetModule | core/module_manager.cpp:52-63 | the module filed under the name's hash, or NULL |
| ModuleManagement.ModuleManager.AddModule | core/module_manager.cpp:154-172 | succeeds exactly when a factory is registered for the type and makes a module, which is then inserted under the name's hash; otherwise nothing changes; no NULL module is ever filed |
| ModuleManagement.ModuleManager.Visit | core/module_manager.cpp:65-79 | the loop returns and calls what UntilFailure says for the modules in map order |
| ModuleManagement.ModuleManager.Connect | core/module_manager.cpp:81-95 | the loop returns and calls what UntilFailure says for the modules in map order |
| ModuleManagement.ModuleManager.PostConnect | core/module_manager.cpp:65-79 | the loop returns and calls what UntilFailure says for the modules in map order |
| ModuleManagement.ModuleManager.Startup | core/module_manager.cpp:97-111 | the loop returns and calls what UntilFailure says for the modules in map order |
| ModuleManagement.ModuleManager.Update | core/module_manager.cpp:113-127 | the loop returns and calls what UntilFailure says for the modules in map order |
| ModuleManagement.ModuleManager.Shutdown | core/module_manager.cpp:129-152 | every module is shut down whatever the others answer; the result is true exactly when all answered true, and only then are they all deleted |
| ModuleManagement.HandlesConcat | core/module_manager.cpp:68-70 | the modules of two runs of entries are the modules of the first, then those of the second |
| ModuleManagement.UntilFailureAppend | core/module_manager.cpp:68-75 | after a run of true answers, a false one stops the walk right there whatever follows, and a true one extends the run |
| ModuleManagement.AddThenGetModule | core/module_manager.cpp:154-172 | a module added under a fresh name is found by that name, and every name with a different hash finds what it found before |
| ModuleManagement.DuplicateNameKeepsFirst | core/module_manager.cpp:165 | adding a module under a name already filed leaves the map unchanged, so the first module is kept |
| ModuleManagement.SuccessCallsEveryModule | core/module_manager.cpp:65-79 | when the walk succeeds over modules none of which is NULL, every module was called once, in map order |
| ModuleManagement.HandlesAll | core/module_manager.cpp:68-75 | with no NULL module, the modules called are exactly the filed modules, position by position |

## Left out

- Loading files: `Config::appendFromFile` and `ModuleManager::appendFromFile` read XML through TinyXML, which is not part of this model. `Config` parsing starts from an already-parsed element tree.
- Assertions and debug output: `assert` and `printf` compile out of release builds. A duplicate configuration name therefore returns false.
- Floating point: gene dequantisation with `pow`, `MAKEDNA`'s float-to-integer quantisation, vertex positions, rotations, colours, UVs and sprite positions. These are symbolic terms or opaque `real`s. The model states where values go, not what they are.
- Direct3D: textures, buffers, shaders, effect variables and samplers are handles. The calls that reach the device are a ghost trace.
  - `MorphRender::Initialise`, `EndRendering` and `CopyOutputTexture` are not modelled. The texture they produce is a parameter of `GenerateBiomorph`.
  - Shader constants and sampler state are not modelled.
- Randomness and clocks: the gene index and direction draw of `MutateDNA`, and the profiler's timestamps, are parameters. `Random` and `Timer` are not part of this model.
- The `MorphDNA` bit-field union with its two 64-bit words: it depends on the compiler's bit-field packing. The genome is eleven bounded naturals, and a default genome has all of them zero.
- MorphDna.MutateDNA: returns the mutated genome instead of overwriting the caller's variable. The genome is a value, so no other state can observe the difference.
- BiomorphManagement.BiomorphManager: the genome hash is an uninterpreted function `hashOf`, not djb2 over the genome's raw bits. Hash collisions are therefore possible in the model, as they are in the source.
- `Array::sort`: a `qsort` wrapper with a foreign comparator.
- Containers.Array.PushBackDefault: when the array grows, the source never frees the old buffer, which leaks. The model does not track the old buffer.
- Containers.Array.PushBackDefault: requires that `malloc` fails when an array with no buffer grows (`buf == null && grow ==> !mallocOk`). A successful `malloc(0)` there would construct an element in a zero-byte block, which is undefined behaviour.
- Spritemaps.Spritemap.AddSprite: requires room in the sprite list when the id is new, because it appends with `push_back(const T&)`, which dereferences NULL on a full array.
- SpriteRendering.SpriteRender.Draw: requires a spritemap when the renderer has no texture of its own, because the source then dereferences the spritemap pointer.
- Dafny's `new` cannot fail. A failing `malloc` is modelled only where the source checks for it, through a `mallocOk` flag or a 0 address.
- Containers.Array.PushBack: `push_back(const T&)` on a full array dereferences NULL. The model makes it a precondition that there is room or the array can grow.
- SpriteRendering.SpriteRender.AddSprite: requires room in the sprite list, because it uses that same `push_back`.
- MorphSpriteRendering.SpriteRender.AddSprite: requires room in the sprite list, for the same reason.
- Configuration.Config.ParseValue: requires the Name attribute. Without it the source appends a NULL pointer to a `std::string`, which is undefined behaviour; `ParseValueStep` reports that case as None.
- NamedObjects.NamedObjectIterator.Next: requires an iterator that is not at `end()`, because incrementing `end()` is undefined.
- BiomorphManagement.BiomorphManager.CleanupDatabase: requires `CleanupDefined`. When the as-written loop erases the last entry it goes on to increment `end()`, which is undefined.
- MorphRender.MorphRenderer.DrawBiomorph: requires that the guard either rejects the genome or the mesh fits the buffers. The guard compares counters only, so it can admit a mesh that writes past the locked buffers (`GuardAdmitsOverflow`); that write is not modelled.
- The `DrawBiomorph` declaration in the header and its definition take different parameters. The model follows the definition.
- The serialisation macros in `core/serialisation.h` are not part of this model.
- Serialisation.Serialiser: keeps each node's value next to the address it was copied to, instead of raw bytes in the buffer.
- Serialisation.Serialiser.AddNode: its node list keeps every earlier node's value, but in the source a later node's record can be written over an earlier node's data. Because the allocator's head lags its blocks (the core/linear_allocator.h:53 finding), the next record lands inside the previous data whenever (head + size) % 4 > head % 4 (`NextNodeOverlapsData`), which from an aligned head is any data size that is not a multiple of 4. The source's GetValue on such a node reads the record's bytes. The model's reads match the source only for nodes that are `Intact`; `ShortStringThenIntClobbered` exhibits a node that is not.
- NamedObjects.NamedObjectBuffer: the caller's type tag is a natural number.
- The `ProfilerSingleton::it()` lazy singleton: modelled as a plain instance passed to whoever uses it.
- Profiling.ScopedProfiler.Close: after a `Reset`, a scope that is still open can close a newer entry that reuses its id. The model states this case as it is and does not rule it out.
- PerfCounters.PerfGrab.Increment: a slot is an unbounded integer, so 32-bit signed overflow of a counter is not modelled.
- `%d` in `sscanf_s` wraps a value that is out of range. The model reduces the converted value modulo 2^32 on storing it as `unsigned int`, and does not model the overflow inside the conversion itself.
- ModuleManagement.ModuleManager.Shutdown: the model does not show that the deleted modules stay in the map as dangling pointers. It records only which modules were deleted.
- SpriteRendering.SpriteRender: the implicit constructors leave `mDirty` uninitialised. The model starts it false.
- MorphSpriteRendering.SpriteRender.Draw: the technique is a parameter. The source fetches a fresh `EffectTechnique` by name on every call, and its `m_dirty` is never initialised; the parameter's dirty flag stands for that unknown value, and a caller can pass one whose flag an earlier draw cleared.
- MorphSpriteRendering.SpriteRender: the implicit constructors leave `mDirty` uninitialised. The model starts it false.
- Vertex-buffer byte-size arithmetic in `initGraphics`: the sizes are element counts.
- LinearAllocation.AlignUp: states only that the result is a `size_t` value. Its alignment properties are in `AlignUpBounds`.
- SpriteRendering.SpriteUVs: states only the default UVs. `LookupUVs` and `Spritemaps.Spritemap.GetSprite` carry the found case.
- MorphSpriteRendering.Tiles: states only the bound of one tile per sprite. `UpdateSpriteMesh` states the tile layout.
- OS, windowing, input, threads, the message pump, the application classes, the bloom pass, screenshots, `vector2.h` and `angles.h` are not part of this model.

## Findings

| source | as written | input that shows it | evidently intended | confidence | as-written member | corrected member |
|---|---|---|---|---|---|---|
| biomorphs/biomorph_manager.cpp:90-92 | after erasing an unreferenced entry the loop restarts at `begin()` and then steps past it | two entries, keys 1 and 2, both with refcount 0: only the first is erased and only its texture released | every unreferenced entry is erased and its texture released | high, not executed | BiomorphManagement.CleanupSkipsSuccessor | BiomorphManagement.CleanupIntendedExact |
| core/linear_allocator.h:53 | the new head is the old head plus the size, not the aligned address plus the size | from a head h that is a multiple of 4 with the tail above h + 8, Allocate(2, 4) twice returns h + 4 both times | head moves to the end of the returned block | high, not executed | LinearAllocation.SuccessiveBlocksOverlap | LinearAllocation.IntendedBlocksDisjoint |
| core/serialiser.h:39-46 | each AddNode's record is placed by the lagging allocator head, so it can start inside the previous node's data and `nodePtr->mPtr = dataPtr` overwrites it | from an aligned head, AddNode("a", "ab") then AddNode("b", 1): the second record is written over "ab\0" | every node keeps its own data | high, not executed | Serialisation.ShortStringThenIntClobbered | Serialisation.IntendedNextNodeAfterData |
| core/linear_allocator.h:49-51 | the bound test adds the size to the aligned head in 32-bit `size_t`, which can wrap | head 0x1000, tail 0x2000: Allocate(0xFFFFF000, 4) returns 0x1004 and moves the head to 0 | a request that does not fit is refused | medium, not executed | LinearAllocation.HugeRequestWrapsPastTail | LinearAllocation.IntendedAllocStep |
| framework/graphics/vertex_descriptor.h:54 | `semanticIndex = semanticIndex` assigns the destination's field to itself, so the source's semantic index is never copied | assigning an element with semantic index 1 onto a default element leaves index 0 | the destination becomes a copy of the source, semantic index included | high, not executed | VertexLayout.AssignLosesSemanticIndex | VertexLayout.AssignIntended |
| core/config.cpp:36-40 | `sscanf_s` returning EOF (-1) counts as success | an "Unsigned Int" element whose Value is "" or blank is stored as 0 | only a converted number is stored | medium, not executed | Configuration.BlankUIntStoresZero | Configuration.ElementOfTypeIntended |
| framework/graphics/perf_grab.h:42 | `Decrement` adds its count | Increment(s, 1) then Decrement(s, 1) leaves the slot 2 higher | Decrement subtracts | high, not executed | PerfCounters.IncrementThenDecrement | PerfCounters.PerfGrab.DecrementIntended |
| framework/graphics/perf_grab.h:22-23 | `Reset(slot)` clears only when slot is -1, and otherwise does nothing | Reset(s) for an in-range slot s holding a non-zero count leaves it non-zero | Reset(slot) clears that one slot | high, not executed | PerfCounters.ResetOneSlotKeepsCount | PerfCounters.PerfGrab.ResetIntended |
