/**
 * Conversions between the three kinds of block coordinates of the world:
 * world coordinates (`blockInWorld`, relative to the world origin),
 * coordinates inside a chunk (`blockInChunk`, always in [0, CHUNK_SIZE))
 * and coordinates of a chunk (`chunk`). A chunk is CHUNK_SIZE = 16 blocks
 * along each axis, so the conversions are a shift by four binary digits and
 * a mask of the low four digits of a 32-bit `int`.
 */
module Coordinates {
  import opened JavaInt
  import opened Vectors

  const BITS_IN_CHUNK_COORDS: int32 := 4
  /** `1 << BITS_IN_CHUNK_COORDS`; ChunkSizeIsShift proves the two agree. */
  const CHUNK_SIZE: int32 := 16
  const CHUNK_COORDS_MASK: int32 := CHUNK_SIZE - 1

  /** The chunk size is `1 << BITS_IN_CHUNK_COORDS`, and the mask is 15. */
  lemma ChunkSizeIsShift()
    ensures CHUNK_SIZE == ShiftLeft(1, BITS_IN_CHUNK_COORDS) && CHUNK_COORDS_MASK == 15
  {
  }

  /**
   * The chunk that contains the block at world coordinate `blockInWorld`:
   * the shift copies the sign, so the result is `blockInWorld / 16` rounded
   * towards minus infinity.
   */
  function ConvertInWorldToChunk(blockInWorld: int32): (chunk: int32)
    ensures CHUNK_SIZE * chunk <= blockInWorld < CHUNK_SIZE * chunk + CHUNK_SIZE
  {
    ShiftRight(blockInWorld, BITS_IN_CHUNK_COORDS)
  }

  /**
   * The coordinate the block has inside its chunk: always in [0, 16), and
   * congruent to `blockInWorld` modulo 16 (so -3 gives 13).
   */
  function ConvertInWorldToInChunk(blockInWorld: int32): (blockInChunk: int32)
    ensures 0 <= blockInChunk < CHUNK_SIZE
    ensures (blockInWorld - blockInChunk) % CHUNK_SIZE == 0
  {
    AndFifteen(blockInWorld);
    RemainderFacts(blockInWorld);
    And(blockInWorld, CHUNK_COORDS_MASK)
  }

  lemma RemainderFacts(w: int)
    ensures 0 <= w % 16 < 16 && (w - w % 16) % 16 == 0
  {
    ModUnique(w - w % 16, 16, w / 16, 0);
  }

  /**
   * The world coordinate of the block at `blockInChunk` in chunk `chunk`.
   * For an in-chunk coordinate in [0, 16) it is `16 * chunk + blockInChunk`
   * computed in 32-bit arithmetic, so it wraps around once `chunk` leaves
   * [-2^27, 2^27).
   */
  function GetInWorld(chunk: int32, blockInChunk: int32): (blockInWorld: int32)
    ensures 0 <= blockInChunk < CHUNK_SIZE ==>
      blockInWorld == Wrap(CHUNK_SIZE * chunk + blockInChunk)
  {
    PackIsSum(chunk, blockInChunk);
    Or(blockInChunk, ShiftLeft(chunk, BITS_IN_CHUNK_COORDS))
  }

  lemma PackIsSum(chunk: int32, blockInChunk: int32)
    ensures 0 <= blockInChunk < 16 ==>
      Or(blockInChunk, ShiftLeft(chunk, 4)) == Wrap(16 * chunk + blockInChunk)
  {
    if 0 <= blockInChunk < 16 {
      var shifted := ShiftLeft(chunk, 4);
      var k := ShiftLeftFour(chunk);
      OrLowDigits(blockInChunk, shifted);
      WrapCongruent(shifted + blockInChunk, 16 * chunk + blockInChunk, k);
    }
  }

  /** `chunk << 4` is `16 * chunk` up to a multiple of 2^32, and a multiple of 16. */
  lemma ShiftLeftFour(chunk: int32) returns (k: int)
    ensures ShiftLeft(chunk, 4) == 16 * chunk + TWO_32 * k
    ensures ShiftLeft(chunk, 4) % 16 == 0
  {
    Pow2TwentyEight();
    var sixteen: int := 16 * chunk;
    var shifted: int := ShiftLeft(chunk, 4);
    assert shifted == Wrap(sixteen);
    k := (shifted - sixteen) / TWO_32;
    assert shifted == sixteen + TWO_32 * k;
    ModUnique(shifted, 16, chunk + 0x1000_0000 * k, 0);
  }

  /** The components of a world position, each mapped to its chunk. */
  function ChunkOf(blockInWorld: Triple): (chunk: Triple) {
    Triple(
      ConvertInWorldToChunk(blockInWorld.x),
      ConvertInWorldToChunk(blockInWorld.y),
      ConvertInWorldToChunk(blockInWorld.z))
  }

  /** The components of a world position, each mapped to its in-chunk coordinate. */
  function InChunkOf(blockInWorld: Triple): (blockInChunk: Triple) {
    Triple(
      ConvertInWorldToInChunk(blockInWorld.x),
      ConvertInWorldToInChunk(blockInWorld.y),
      ConvertInWorldToInChunk(blockInWorld.z))
  }

  /** The world position of an in-chunk position in a chunk, component by component. */
  function InWorldOf(chunk: Triple, blockInChunk: Triple): (blockInWorld: Triple) {
    Triple(
      GetInWorld(chunk.x, blockInChunk.x),
      GetInWorld(chunk.y, blockInChunk.y),
      GetInWorld(chunk.z, blockInChunk.z))
  }

  // ---------------------------------------------------------------------
  // The vector forms: each writes the three components of `output`, one
  // axis at a time, and returns `output`. An axis reads its own input
  // component before writing, so `output` may be one of the inputs.
  // ---------------------------------------------------------------------

  method ConvertInWorldToChunkVec(blockInWorld: Vec3i, output: Vec3i) returns (r: Vec3i)
    modifies output
    ensures r == output
    ensures output.Value() == ChunkOf(old(blockInWorld.Value()))
  {
    output.x := ConvertInWorldToChunk(blockInWorld.x);
    output.y := ConvertInWorldToChunk(blockInWorld.y);
    output.z := ConvertInWorldToChunk(blockInWorld.z);
    r := output;
  }

  method ConvertInWorldToInChunkVec(blockInWorld: Vec3i, output: Vec3i) returns (r: Vec3i)
    modifies output
    ensures r == output
    ensures output.Value() == InChunkOf(old(blockInWorld.Value()))
  {
    output.x := ConvertInWorldToInChunk(blockInWorld.x);
    output.y := ConvertInWorldToInChunk(blockInWorld.y);
    output.z := ConvertInWorldToInChunk(blockInWorld.z);
    r := output;
  }

  method GetInWorldVec(chunk: Vec3i, blockInChunk: Vec3i, output: Vec3i) returns (r: Vec3i)
    modifies output
    ensures r == output
    ensures output.Value() == InWorldOf(old(chunk.Value()), old(blockInChunk.Value()))
  {
    output.x := GetInWorld(chunk.x, blockInChunk.x);
    output.y := GetInWorld(chunk.y, blockInChunk.y);
    output.z := GetInWorld(chunk.z, blockInChunk.z);
    r := output;
  }

  // ---------------------------------------------------------------------
  // Laws of the conversions.
  // ---------------------------------------------------------------------

  /** World-to-chunk is floor division by 16. */
  lemma ChunkIsFloorDivision(blockInWorld: int32)
    ensures ConvertInWorldToChunk(blockInWorld) == blockInWorld / 16
  {
    var c := ConvertInWorldToChunk(blockInWorld);
    ModUnique(blockInWorld, 16, c, blockInWorld - 16 * c);
  }

  /** World-to-in-chunk is the floor remainder modulo 16. */
  lemma InChunkIsFloorModulo(blockInWorld: int32)
    ensures ConvertInWorldToInChunk(blockInWorld) == blockInWorld % 16
  {
    var b := ConvertInWorldToInChunk(blockInWorld);
    var k := (blockInWorld - b) / 16;
    assert blockInWorld == 16 * k + b;
    ModUnique(blockInWorld, 16, k, b);
  }

  /** Every 32-bit world coordinate is rebuilt from its chunk and in-chunk coordinates. */
  lemma Decomposition(blockInWorld: int32)
    ensures GetInWorld(ConvertInWorldToChunk(blockInWorld), ConvertInWorldToInChunk(blockInWorld))
            == blockInWorld
  {
    var c, b := SplitWorld(blockInWorld);
    var sum: int := 16 * c + b;
    assert GetInWorld(c, b) == Wrap(sum);
  }

  /** The chunk and in-chunk coordinates of a world coordinate add up to it. */
  lemma SplitWorld(blockInWorld: int32) returns (chunk: int32, blockInChunk: int32)
    ensures chunk == ConvertInWorldToChunk(blockInWorld)
    ensures blockInChunk == ConvertInWorldToInChunk(blockInWorld)
    ensures 0 <= blockInChunk < 16 && 16 * chunk + blockInChunk == blockInWorld
  {
    chunk := ConvertInWorldToChunk(blockInWorld);
    blockInChunk := ConvertInWorldToInChunk(blockInWorld);
    ChunkIsFloorDivision(blockInWorld);
    InChunkIsFloorModulo(blockInWorld);
  }

  /** The in-chunk coordinate survives packing into a world coordinate, for every chunk. */
  lemma InChunkOfInWorld(chunk: int32, blockInChunk: int32)
    requires 0 <= blockInChunk < 16
    ensures ConvertInWorldToInChunk(GetInWorld(chunk, blockInChunk)) == blockInChunk
  {
    var sum: int := 16 * chunk + blockInChunk;
    assert GetInWorld(chunk, blockInChunk) == Wrap(sum);
    InChunkIsFloorModulo(GetInWorld(chunk, blockInChunk));
    WrapKeepsLowDigits(sum);
    ModUnique(sum, 16, chunk, blockInChunk);
  }

  /**
   * The chunk survives packing while `chunk << 4` does not overflow, that is
   * for chunks in [-2^27, 2^27).
   */
  lemma ChunkOfInWorld(chunk: int32, blockInChunk: int32)
    requires 0 <= blockInChunk < 16
    requires -0x800_0000 <= chunk < 0x800_0000
    ensures ConvertInWorldToChunk(GetInWorld(chunk, blockInChunk)) == chunk
  {
    var w := GetInWorld(chunk, blockInChunk);
    assert w == 16 * chunk + blockInChunk;
    ChunkIsFloorDivision(w);
    ModUnique(w, 16, chunk, blockInChunk);
  }

  /** Outside that range the chunk is lost: chunk 2^27 comes back as -2^27. */
  lemma ChunkOfInWorldOverflows()
    ensures GetInWorld(0x800_0000, 0) == -0x8000_0000
    ensures ConvertInWorldToChunk(GetInWorld(0x800_0000, 0)) == -0x800_0000
  {
    ChunkIsFloorDivision(-0x8000_0000);
  }

  /** World (20, 5, -3) is block (4, 5, 13) of chunk (1, 0, -1), and back. */
  lemma WorkedExample()
    ensures ChunkOf(Triple(20, 5, -3)) == Triple(1, 0, -1)
    ensures InChunkOf(Triple(20, 5, -3)) == Triple(4, 5, 13)
    ensures InWorldOf(Triple(1, 0, -1), Triple(4, 5, 13)) == Triple(20, 5, -3)
  {
    ChunkIsFloorDivision(20);
    ChunkIsFloorDivision(5);
    ChunkIsFloorDivision(-3);
    InChunkIsFloorModulo(20);
    InChunkIsFloorModulo(5);
    InChunkIsFloorModulo(-3);
  }
}
