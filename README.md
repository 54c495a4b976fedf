# Progressia world core in Dafny

This project models a small core of the Progressia voxel game engine and proves properties of it. It covers six parts:

- **Block coordinates** (`Coordinates`). A world is cut into chunks of 16 × 16 × 16 blocks. A block's world coordinate splits into the coordinate of its chunk (`>> 4`) and its coordinate inside the chunk (`& 15`). `getInWorld` joins the two again (`blockInChunk | (chunk << 4)`). The arithmetic is Java's 32-bit `int`, modelled in `JavaInt`:
  - `<<` and `>>` follow section 15.19 of the Java Language Specification;
  - `&` and `|` work digit by digit over the 32 two's-complement digits;
  - narrowing follows section 5.1.3.
- **Tile stacks** (`TileStacks`). The ordered stack of tiles on one block face, closest to the surface first; it is full once it holds 8 tiles. The model covers its queries (closest, farthest, for-each, find, contains) and the block's world position.
- **Block packets** (`BlockPackets`). A packet about one block carries the block's world coordinates. It writes them as three big-endian `int`s and reads them back (`DataStreams` models `writeInt`/`readInt`). It names the affected chunk with the coordinate conversion.
- **Entity change packets** (`EntityPackets`). The packet carries an entity id and a byte buffer. Applying it finds the entity in the world and lets the entity decode its new state from the buffer.
- **Texture bind table** (`Textures`). A texture gets its handle on first use. A table shared by all textures records which handle is bound to each of the 32 texture slots, so that re-binding the same texture to a slot does nothing.
- **Tile registry** (`TileRegistry`). A map from tile id to tile data. It is pre-filled with four test tiles, and registering overwrites.

Objects whose fields the source updates are classes: `Vec3i`, the packets, the streams, the texture, the registry and the world's entity map. Their methods are proved against pure functions (`ChunkOf`, `EncodeBlock`/`DecodeBlock`, `ApplyChange`, `LoadSpec`/`BindSpec`, `Put`/`Lookup`, `FirstMatch`/`LastMatch`). The laws are proved about those functions.

Exceptions the source throws become error values:
- `Result` or `Outcome`, with a datatype naming the exception;
- a `null` argument that the source rejects with `Objects.requireNonNull` becomes `Option.None`.

Where the code and the design description of the engine disagree, the model follows the code:
- **`findFarthest`.** The design describes tile stacks as ordered from closest to farthest. The code's `findFarthest` still returns the closest match (see Findings).
- **Missing entity.** The design names the unknown-entity failure `EntityNotFoundError`. The code throws a `RuntimeException` with the message "Entity with ID … not found". The model's `EntityNotFound(entityId)` carries the same information.

A consequence of `load` as written, proved in `Textures.FailedLoadThenBind`:
- A failed upload keeps the negative handle it produced.
- Any negative handle other than -1 then makes the texture count as loaded.
- The next `bind` records that handle in its slot and succeeds.

## Model

Source paths are relative to the repository root.

| member | source | states |
|---|---|---|
| JavaInt.AndFifteen | src/main/java/ru/windcorp/progressia/common/world/Coordinates.java:80-82 | `x & 15` on a 32-bit int is `x` mod 16 (floor remainder), also for negative `x` |
| JavaInt.OrLowDigits | src/main/java/ru/windcorp/progressia/common/world/Coordinates.java:115-117 | or-ing a value in [0, 16) into a multiple of 16 adds it |
| JavaInt.WrapKeepsLowDigits | src/main/java/ru/windcorp/progressia/common/world/Coordinates.java:115-117 | narrowing to 32 bits keeps a value's remainder mod 16 |
| Coordinates.ChunkSizeIsShift | src/main/java/ru/windcorp/progressia/common/world/Coordinates.java:33-35 | CHUNK_SIZE is `1 << BITS_IN_CHUNK_COORDS` = 16 and CHUNK_COORDS_MASK is 15 |
| Coordinates.ConvertInWorldToChunk | src/main/java/ru/windcorp/progressia/common/world/Coordinates.java:46-48 | the result `c` is the chunk holding the block: `16c <= w < 16c + 16` |
| Coordinates.ChunkIsFloorDivision | src/main/java/ru/windcorp/progressia/common/world/Coordinates.java:46-48 | world-to-chunk is division by 16 rounded towards minus infinity |
| Coordinates.ConvertInWorldToInChunk | src/main/java/ru/windcorp/progressia/common/world/Coordinates.java:80-82 | the result is in [0, 16) and congruent to the world coordinate mod 16 |
| Coordinates.InChunkIsFloorModulo | src/main/java/ru/windcorp/progressia/common/world/Coordinates.java:80-82 | world-to-in-chunk is the floor remainder mod 16 (-3 gives 13) |
| Coordinates.GetInWorld | src/main/java/ru/windcorp/progressia/common/world/Coordinates.java:115-117 | for an in-chunk coordinate in [0, 16) the result is `16 * chunk + blockInChunk` narrowed to 32 bits |
| Coordinates.Decomposition | src/main/java/ru/windcorp/progressia/common/world/Coordinates.java:46-117 | every 32-bit world coordinate is rebuilt exactly from its chunk and in-chunk coordinates |
| Coordinates.InChunkOfInWorld | src/main/java/ru/windcorp/progressia/common/world/Coordinates.java:80-117 | the in-chunk coordinate survives packing into a world coordinate, for every chunk |
| Coordinates.ChunkOfInWorld | src/main/java/ru/windcorp/progressia/common/world/Coordinates.java:46-117 | the chunk survives packing for chunks in [-2^27, 2^27), where `chunk << 4` does not overflow |
| Coordinates.ChunkOfInWorldOverflows | src/main/java/ru/windcorp/progressia/common/world/Coordinates.java:115-117 | outside that range the chunk is lost: chunk 2^27 packs to -2^31 and comes back as chunk -2^27 |
| Coordinates.WorkedExample | src/main/java/ru/windcorp/progressia/common/world/Coordinates.java:46-139 | world (20, 5, -3) is block (4, 5, 13) of chunk (1, 0, -1), and back |
| Coordinates.ConvertInWorldToChunkVec | src/main/java/ru/windcorp/progressia/common/world/Coordinates.java:60-69 | the output vector holds the chunk of each input component and is returned, also when it is the input vector |
| Coordinates.ConvertInWorldToInChunkVec | src/main/java/ru/windcorp/progressia/common/world/Coordinates.java:94-103 | the output vector holds the in-chunk coordinate of each input component and is returned |
| Coordinates.GetInWorldVec | src/main/java/ru/windcorp/progressia/common/world/Coordinates.java:130-139 | the output vector holds the world coordinate of each axis and is returned |
| Vectors.Vec3i.constructor | src/main/java/ru/windcorp/progressia/common/world/block/PacketAffectBlock.java:32 | a new vector is (0, 0, 0) |
| Vectors.Vec3i.Set | src/main/java/ru/windcorp/progressia/common/world/block/PacketAffectBlock.java:43 | `set(x, y, z)` makes the vector (x, y, z) |
| TileStacks.FirstMatch | src/main/java/ru/windcorp/progressia/common/world/generic/GenericTileStack.java:90-101 | the index found holds the id and no earlier tile does; none means no tile has the id |
| TileStacks.LastMatch | src/main/java/ru/windcorp/progressia/common/world/generic/GenericTileStack.java:103-114 | the index found holds the id and no later tile does; none means no tile has the id |
| TileStacks.FirstMatchAt | src/main/java/ru/windcorp/progressia/common/world/generic/GenericTileStack.java:90-101 | a match with none before it is what the forward search finds |
| TileStacks.LastMatchAt | src/main/java/ru/windcorp/progressia/common/world/generic/GenericTileStack.java:103-114 | a match with none after it is what a backward search finds |
| TileStacks.NoMatch | src/main/java/ru/windcorp/progressia/common/world/generic/GenericTileStack.java:90-114 | with no tile of that id both searches find nothing |
| TileStacks.ClosestIsFirstMatch | src/main/java/ru/windcorp/progressia/common/world/generic/GenericTileStack.java:67-101 | the closest tile is what a search for its own id finds |
| TileStacks.FarthestIsLastMatch | src/main/java/ru/windcorp/progressia/common/world/generic/GenericTileStack.java:71-114 | the farthest tile is what a backward search for its own id finds |
| TileStacks.FirstIsLastIffUnique | src/main/java/ru/windcorp/progressia/common/world/generic/GenericTileStack.java:90-114 | the forward and backward searches agree exactly when the id occurs at most once |
| TileStacks.TileStack.IsFull | src/main/java/ru/windcorp/progressia/common/world/generic/GenericTileStack.java:63-65 | full exactly when the stack holds at least TILES_PER_FACE = 8 tiles |
| TileStacks.TileStack.GetClosest | src/main/java/ru/windcorp/progressia/common/world/generic/GenericTileStack.java:67-69 | tile 0 of a non-empty stack; an index-out-of-bounds error at 0 on an empty one |
| TileStacks.TileStack.GetFarthest | src/main/java/ru/windcorp/progressia/common/world/generic/GenericTileStack.java:71-73 | the last tile of a non-empty stack; an index-out-of-bounds error at -1 on an empty one |
| TileStacks.TileStack.ForEachIndexed | src/main/java/ru/windcorp/progressia/common/world/generic/GenericTileStack.java:75-80 | a null action fails; otherwise there is one result per tile, and the i-th result is the action applied to (i, tile i) |
| TileStacks.TileStack.ForEach | src/main/java/ru/windcorp/progressia/common/world/generic/GenericTileStack.java:82-88 | a null action fails; otherwise there is one result per tile, and the i-th result is the action applied to tile i |
| TileStacks.TileStack.FindClosest | src/main/java/ru/windcorp/progressia/common/world/generic/GenericTileStack.java:90-101 | a null id fails; otherwise the first tile with the id, or none |
| TileStacks.TileStack.FindFarthest | src/main/java/ru/windcorp/progressia/common/world/generic/GenericTileStack.java:103-114 | as written: a null id fails; otherwise the FIRST tile with the id, or none |
| TileStacks.TileStack.FindFarthestFromEnd | src/main/java/ru/windcorp/progressia/common/world/generic/GenericTileStack.java:103-114 | corrected: a null id fails; otherwise the LAST tile with the id, or none |
| TileStacks.FarthestCounterexample | src/main/java/ru/windcorp/progressia/common/world/generic/GenericTileStack.java:103-114 | on tiles 1 and 2 sharing an id, `findFarthest` returns tile 1 while the farthest tile is 2 |
| TileStacks.TileStack.Contains | src/main/java/ru/windcorp/progressia/common/world/generic/GenericTileStack.java:116-118 | a null id fails; otherwise true exactly when some tile has the id |
| TileStacks.TileStack.GetBlockInChunk | src/main/java/ru/windcorp/progressia/common/world/generic/GenericTileStack.java:46 | writes the block's in-chunk coordinates into the output vector and returns it |
| TileStacks.TileStack.GetBlockInWorld | src/main/java/ru/windcorp/progressia/common/world/generic/GenericTileStack.java:58-61 | the output vector ends up holding the world coordinates of the chunk position and in-chunk coordinates |
| DataStreams.IntRoundTrip | src/main/java/ru/windcorp/progressia/common/world/block/PacketAffectBlock.java:47-56 | reading back the four bytes written for an `int` gives that `int` |
| DataStreams.BytesRoundTrip | src/main/java/ru/windcorp/progressia/common/world/block/PacketAffectBlock.java:47-56 | every four bytes are what is written for the `int` read from them |
| DataStreams.DataOutput.WriteInt | src/main/java/ru/windcorp/progressia/common/world/block/PacketAffectBlock.java:53-55 | appends the four big-endian bytes of the value |
| DataStreams.DataInput.ReadInt | src/main/java/ru/windcorp/progressia/common/world/block/PacketAffectBlock.java:48 | with four bytes left, reads them as an `int` and advances by four; otherwise consumes the rest and fails with end of file |
| BlockPackets.EncodeBlock | src/main/java/ru/windcorp/progressia/common/world/block/PacketAffectBlock.java:52-56 | a block position is twelve bytes on the wire |
| BlockPackets.DecodeBlock | src/main/java/ru/windcorp/progressia/common/world/block/PacketAffectBlock.java:47-49 | a position is decoded exactly when at least twelve bytes remain |
| BlockPackets.BlockRoundTrip | src/main/java/ru/windcorp/progressia/common/world/block/PacketAffectBlock.java:47-56 | decoding an encoded position gives it back, whatever bytes follow |
| BlockPackets.BlockBytesRoundTrip | src/main/java/ru/windcorp/progressia/common/world/block/PacketAffectBlock.java:47-56 | every twelve bytes decode to a position that encodes to them again |
| BlockPackets.PacketAffectBlock.constructor | src/main/java/ru/windcorp/progressia/common/world/block/PacketAffectBlock.java:32-36 | a new packet keeps its id and owns a fresh position vector (0, 0, 0) |
| BlockPackets.PacketAffectBlock.GetBlockInWorld | src/main/java/ru/windcorp/progressia/common/world/block/PacketAffectBlock.java:38-40 | returns the packet's own position vector, not a copy |
| BlockPackets.PacketAffectBlock.Set | src/main/java/ru/windcorp/progressia/common/world/block/PacketAffectBlock.java:42-44 | copies the three components of the given vector |
| BlockPackets.PacketAffectBlock.Read | src/main/java/ru/windcorp/progressia/common/world/block/PacketAffectBlock.java:47-49 | succeeds exactly when twelve bytes remain, then the position is their decoding and twelve bytes are consumed; on end of file the position is unchanged and the input is used up |
| BlockPackets.PacketAffectBlock.Write | src/main/java/ru/windcorp/progressia/common/world/block/PacketAffectBlock.java:52-56 | appends the encoding of the position |
| BlockPackets.PacketAffectBlock.GetAffectedChunk | src/main/java/ru/windcorp/progressia/common/world/block/PacketAffectBlock.java:59-61 | the output vector holds the chunk of the packet's block |
| BlockPackets.Transmit | src/main/java/ru/windcorp/progressia/common/world/block/PacketAffectBlock.java:47-56 | a packet written and then read into another packet gives it the same block position |
| EntityPackets.ApplyChange | src/main/java/ru/windcorp/progressia/common/world/entity/PacketEntityChange.java:42-58 | unknown id fails with that id and changes nothing; a known id changes only that entity, to what it read; success exactly when the read did not fail |
| EntityPackets.PacketEntityChange.constructor | src/main/java/ru/windcorp/progressia/common/world/entity/PacketEntityChange.java:14-19 | namespace "Core", name "EntityChange", entity id 0, empty buffer |
| EntityPackets.PacketEntityChange.GetEntityId | src/main/java/ru/windcorp/progressia/common/world/entity/PacketEntityChange.java:21-23 | the id of the entity the packet changes, which `Apply` looks up |
| EntityPackets.PacketEntityChange.SetEntityId | src/main/java/ru/windcorp/progressia/common/world/entity/PacketEntityChange.java:21-27 | afterwards `getEntityId()` returns the id set |
| EntityPackets.PacketEntityChange.GetWriter | src/main/java/ru/windcorp/progressia/common/world/entity/PacketEntityChange.java:37-39 | writing goes into the packet's own buffer |
| EntityPackets.PacketEntityChange.GetReader | src/main/java/ru/windcorp/progressia/common/world/entity/PacketEntityChange.java:33-35 | a fresh reader over the buffer's bytes, from the first one |
| EntityPackets.PacketEntityChange.Apply | src/main/java/ru/windcorp/progressia/common/world/entity/PacketEntityChange.java:42-58 | outcome and new entity map are those of ApplyChange on the packet's id and buffer |
| Textures.NewBindTable | src/main/java/ru/windcorp/progressia/client/graphics/texture/TexturePrimitive.java:30-35 | the table has 32 entries, each NOT_LOADED = -1 |
| Textures.LoadSpec | src/main/java/ru/windcorp/progressia/client/graphics/texture/TexturePrimitive.java:85-94 | a loaded texture is left alone; otherwise the handle becomes the uploaded one, failing exactly when it is negative |
| Textures.BindSpec | src/main/java/ru/windcorp/progressia/client/graphics/texture/TexturePrimitive.java:68-83 | on success the texture is loaded and its slot holds its handle; no other entry changes; binding to a slot that holds the handle is a no-op |
| Textures.BindIdempotent | src/main/java/ru/windcorp/progressia/client/graphics/texture/TexturePrimitive.java:68-83 | a second bind to the same slot after a successful one changes nothing |
| Textures.BindErrors | src/main/java/ru/windcorp/progressia/client/graphics/texture/TexturePrimitive.java:68-94 | a bind fails exactly when the upload fails or the slot is outside [0, 32); a bad slot is reported after the load, which stays done |
| Textures.FailedLoadThenBind | src/main/java/ru/windcorp/progressia/client/graphics/texture/TexturePrimitive.java:64-94 | after an upload that yields -2 fails, the texture counts as loaded and the next bind records -2 |
| Textures.TexturePrimitive.constructor | src/main/java/ru/windcorp/progressia/client/graphics/texture/TexturePrimitive.java:37-42 | a new texture has handle NOT_LOADED and is not loaded |
| Textures.TexturePrimitive.IsLoaded | src/main/java/ru/windcorp/progressia/client/graphics/texture/TexturePrimitive.java:64-66 | loaded exactly when the handle is not NOT_LOADED, which is exactly when `load()` leaves the texture alone whatever an upload would produce |
| Textures.TexturePrimitive.Load | src/main/java/ru/windcorp/progressia/client/graphics/texture/TexturePrimitive.java:85-94 | outcome and new handle are those of LoadSpec |
| Textures.TexturePrimitive.Bind | src/main/java/ru/windcorp/progressia/client/graphics/texture/TexturePrimitive.java:68-83 | outcome, handle and the whole table are those of BindSpec |
| Textures.TexturePrimitive.Delete | src/main/java/ru/windcorp/progressia/client/graphics/texture/TexturePrimitive.java:96-100 | the texture is released exactly when it is loaded, and the handle is not reset |
| TileRegistry.Lookup | src/main/java/ru/windcorp/progressia/common/block/TileDataRegistry.java:34-36 | the registered tile under the id; none (`null`) exactly when the id is not registered |
| TileRegistry.Put | src/main/java/ru/windcorp/progressia/common/block/TileDataRegistry.java:38-40 | afterwards the tile is found under its id and every other id finds what it found before |
| TileRegistry.RegisterOverwrites | src/main/java/ru/windcorp/progressia/common/block/TileDataRegistry.java:38-40 | registering a second tile under a taken id replaces the first |
| TileRegistry.InitialRegistry | src/main/java/ru/windcorp/progressia/common/block/TileDataRegistry.java:27-32 | exactly Test:Grass, Test:Stones, Test:YellowFlowers and Test:Sand are registered, each to its tile |
| TileRegistry.TileDataRegistry.constructor | src/main/java/ru/windcorp/progressia/common/block/TileDataRegistry.java:25-32 | the registry starts as InitialRegistry |
| TileRegistry.TileDataRegistry.Get | src/main/java/ru/windcorp/progressia/common/block/TileDataRegistry.java:34-36 | none (`null`) exactly when the id is not registered; otherwise the registered tile, whose own id is the id asked for |
| TileRegistry.TileDataRegistry.Register | src/main/java/ru/windcorp/progressia/common/block/TileDataRegistry.java:38-40 | the registry becomes Put of the old registry and the tile |

## Left out

- Threads, the graphics card and the network are not modelled.
- `glActiveTexture`, `glBindTexture` and `glDeleteTextures` have no state the model keeps. `OpenGLObjectTracker.register` is the same.
- The handle `pixels.load()` returns is the `obtained` parameter of `Load` and `Bind`. The `TextureData` class is not part of this model.
- `getData`, `getBufferWidth`, `getBufferHeight`, `getWidth` and `getHeight` of a texture only forward to `TextureData`, so they are left out.
- The texture bind table is one static array in the source. In the model it is created once by `NewBindTable` and passed to each texture's constructor.
- `getChunk`, `getFace`, `getReference` and `getHost` of a tile stack return objects this model does not have, so they are left out.
- The tile list itself (`size`, `get`) is a sequence field. `getIndexByTag` and `getTagByIndex` are functions supplied to the constructor, with no contract, because the stack leaves them to its subclasses.
- TileStacks.TileStack.ForEachIndexed: the action is a pure function of (index, tile) whose results are returned. In the source the `TSConsumer` returns nothing and acts only through side effects, and the loop re-reads `size()` on every pass. An action that changes the stack while it runs, and any other effect of the action, is not modelled.
- TileStacks.TileStack.ForEach: the same, for the `Consumer` of tiles.
- TileStacks.TileStack.GetBlockInChunk: `getBlockInChunk` is abstract in the source. The model stands for it with one fixed implementation: it writes the block's in-chunk coordinates, given to the constructor, into the output vector and returns that vector. Other implementations are not modelled.
- TileStacks.TileStack.GetBlockInWorld: requires the output vector not to be the chunk's own position vector. The source relies on its callers for this.
- `DataBuffer` is not part of this model. The entity packet's buffer is modelled as the bytes written into it, and a reader always starts at the first byte.
- `EntityData.read` is the `read` parameter of `Apply`: it returns the entity's state after reading and whether an `IOException` ended the read.
- `WorldData.getEntity` is a map lookup.
- The entity is mutated in place in the source. In the model its new state replaces the map entry, so other references to the same entity object are not modelled.
- The packet superclasses `PacketAffectChunk` and `PacketWorldChange` are not part of this model. Only the packet's id strings are kept.
- `TileData` and the id checks of `NamespacedUtil` are not part of this model. A tile's id is taken to be its namespace and name joined by `:`.
- Null references other than those rejected by `Objects.requireNonNull` are not modelled: a null vector, stream, world or tile.
- `DecodingException` and write-side `IOException`s are not modelled, because the modelled code never raises them itself.

## Findings

| source | as written | input that shows it | evidently intended | confidence | as-written member | corrected member |
|---|---|---|---|---|---|---|
| src/main/java/ru/windcorp/progressia/common/world/generic/GenericTileStack.java:103-114 | `findFarthest` scans from index 0 upwards and returns the first tile with the id, exactly like `findClosest` | a stack of two tiles with the same id: it returns the tile at index 0, while the farthest tile is at index 1 | return the tile with the id that is farthest from the block surface, that is the one with the highest index | not executed | TileStacks.TileStack.FindFarthest | TileStacks.TileStack.FindFarthestFromEnd |
