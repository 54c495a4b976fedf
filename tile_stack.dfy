/**
 * The stack of tiles on one face of a block, ordered from the tile closest
 * to the block surface (index 0) to the farthest one. A stack is full once
 * it holds TILES_PER_FACE tiles. The queries here only read the stack; `getBlockInWorld`
 * fills in a caller's vector.
 *
 * What a concrete stack supplies (its tiles, the id of a tile, the position of
 * its chunk, the block's position in the chunk and the tag/index mapping) is
 * given to the constructor.
 */
module TileStacks {
  import opened JavaInt
  import opened Wrappers
  import opened Vectors
  import Coordinates

  const TILES_PER_FACE: int := 8

  /** The exceptions these queries can throw. */
  datatype TileStackError =
    | NullPointer(argument: string)  // Objects.requireNonNull on a null argument
    | IndexOutOfBounds(index: int)   // List.get outside [0, size())

  /** The lowest index of a tile whose id is `id`, or None when no tile has it. */
  function FirstMatch<T>(tiles: seq<T>, getId: T -> string, id: string): (r: Option<nat>)
    ensures r.Some? ==> r.value < |tiles| && getId(tiles[r.value]) == id
    ensures r.Some? ==> forall j :: 0 <= j < r.value ==> getId(tiles[j]) != id
    ensures r.None? ==> forall j :: 0 <= j < |tiles| ==> getId(tiles[j]) != id
    decreases |tiles|
  {
    if |tiles| == 0 then None
    else if getId(tiles[0]) == id then Some(0)
    else
      match FirstMatch(tiles[1..], getId, id)
      case None => None
      case Some(i) => Some(i + 1)
  }

  /** The highest index of a tile whose id is `id`, or None when no tile has it. */
  function LastMatch<T>(tiles: seq<T>, getId: T -> string, id: string): (r: Option<nat>)
    ensures r.Some? ==> r.value < |tiles| && getId(tiles[r.value]) == id
    ensures r.Some? ==> forall j :: r.value < j < |tiles| ==> getId(tiles[j]) != id
    ensures r.None? ==> forall j :: 0 <= j < |tiles| ==> getId(tiles[j]) != id
    decreases |tiles|
  {
    if |tiles| == 0 then None
    else if getId(tiles[|tiles| - 1]) == id then Some(|tiles| - 1)
    else LastMatch(tiles[..|tiles| - 1], getId, id)
  }

  /** The tile at an optional index. */
  function TileAt<T>(tiles: seq<T>, index: Option<nat>): Option<T>
    requires index.Some? ==> index.value < |tiles|
  {
    match index
    case None => None
    case Some(i) => Some(tiles[i])
  }

  class TileStack<T> {
    /** The tiles, closest first. */
    var tiles: seq<T>
    /** `GenericTile.getId`. */
    const getId: T -> string
    /** `getChunk().getPosition()`: the coordinates of the chunk the block is in. */
    const chunkPosition: Vec3i
    /** What `getBlockInChunk` writes: the block's coordinates inside its chunk. */
    const blockInChunk: Triple
    /** `getIndexByTag` and `getTagByIndex`, supplied by the concrete stack. */
    const indexByTag: int32 -> int32
    const tagByIndex: int32 -> int32

    constructor (tiles: seq<T>, getId: T -> string, chunkPosition: Vec3i, blockInChunk: Triple,
                 indexByTag: int32 -> int32, tagByIndex: int32 -> int32)
      ensures this.tiles == tiles && this.getId == getId
      ensures this.chunkPosition == chunkPosition && this.blockInChunk == blockInChunk
      ensures this.indexByTag == indexByTag && this.tagByIndex == tagByIndex
    {
      this.tiles := tiles;
      this.getId := getId;
      this.chunkPosition := chunkPosition;
      this.blockInChunk := blockInChunk;
      this.indexByTag := indexByTag;
      this.tagByIndex := tagByIndex;
    }

    function GetIndexByTag(tag: int32): int32 {
      indexByTag(tag)
    }

    function GetTagByIndex(index: int32): int32 {
      tagByIndex(index)
    }

    /** A stack is full once it holds TILES_PER_FACE tiles; no more may be added. */
    function IsFull(): (full: bool)
      reads this
      ensures full <==> |tiles| >= TILES_PER_FACE
    {
      |tiles| >= TILES_PER_FACE
    }

    /** The tile closest to the block surface; `get(0)` throws on an empty stack. */
    function GetClosest(): (r: Result<T, TileStackError>)
      reads this
      ensures |tiles| > 0 <==> r.Success?
      ensures r.Success? ==> r.value == tiles[0]
      ensures r.Failure? ==> r.error == IndexOutOfBounds(0)
    {
      if |tiles| > 0 then Success(tiles[0]) else Failure(IndexOutOfBounds(0))
    }

    /** The tile farthest from the block surface; `get(size() - 1)` throws on an empty stack. */
    function GetFarthest(): (r: Result<T, TileStackError>)
      reads this
      ensures |tiles| > 0 <==> r.Success?
      ensures r.Success? ==> r.value == tiles[|tiles| - 1]
      ensures r.Failure? ==> r.error == IndexOutOfBounds(-1)
    {
      if |tiles| > 0 then Success(tiles[|tiles| - 1]) else Failure(IndexOutOfBounds(|tiles| - 1))
    }

    /**
     * `forEach(TSConsumer)`: calls `action(i, get(i))` for i = 0, 1, ..., size() - 1.
     * The results of the calls are returned in the order they were made.
     */
    method ForEachIndexed<R>(action: Option<(int, T) -> R>) returns (r: Result<seq<R>, TileStackError>)
      ensures action.None? ==> r == Failure(NullPointer("action"))
      ensures action.Some? ==> r.Success? && |r.value| == |tiles|
      ensures action.Some? ==> forall i :: 0 <= i < |tiles| ==> r.value[i] == action.value(i, tiles[i])
    {
      if action.None? {
        return Failure(NullPointer("action"));
      }
      var calls: seq<R> := [];
      var i := 0;
      while i < |tiles|
        invariant 0 <= i <= |tiles|
        invariant |calls| == i
        invariant forall j :: 0 <= j < i ==> calls[j] == action.value(j, tiles[j])
      {
        calls := calls + [action.value(i, tiles[i])];
        i := i + 1;
      }
      return Success(calls);
    }

    /** `forEach(Consumer)`: calls `action(get(i))` for i = 0, 1, ..., size() - 1. */
    method ForEach<R>(action: Option<T -> R>) returns (r: Result<seq<R>, TileStackError>)
      ensures action.None? ==> r == Failure(NullPointer("action"))
      ensures action.Some? ==> r.Success? && |r.value| == |tiles|
      ensures action.Some? ==> forall i :: 0 <= i < |tiles| ==> r.value[i] == action.value(tiles[i])
    {
      if action.None? {
        return Failure(NullPointer("action"));
      }
      var calls: seq<R> := [];
      var i := 0;
      while i < |tiles|
        invariant 0 <= i <= |tiles|
        invariant |calls| == i
        invariant forall j :: 0 <= j < i ==> calls[j] == action.value(tiles[j])
      {
        calls := calls + [action.value(tiles[i])];
        i := i + 1;
      }
      return Success(calls);
    }

    /** The closest tile whose id is `id`, or null; a null `id` is rejected first. */
    method FindClosest(id: Option<string>) returns (r: Result<Option<T>, TileStackError>)
      ensures id.None? ==> r == Failure(NullPointer("id"))
      ensures id.Some? ==> r == Success(TileAt(tiles, FirstMatch(tiles, getId, id.value)))
    {
      if id.None? {
        return Failure(NullPointer("id"));
      }
      var i := 0;
      while i < |tiles|
        invariant 0 <= i <= |tiles|
        invariant forall j :: 0 <= j < i ==> getId(tiles[j]) != id.value
      {
        var tile := tiles[i];
        if getId(tile) == id.value {
          FirstMatchAt(tiles, getId, id.value, i);
          return Success(Some(tile));
        }
        i := i + 1;
      }
      NoMatch(tiles, getId, id.value);
      return Success(None);
    }

    /**
     * `findFarthest` as written: the loop runs from index 0 and returns the
     * first match, so it answers exactly what FindClosest answers.
     */
    method FindFarthest(id: Option<string>) returns (r: Result<Option<T>, TileStackError>)
      ensures id.None? ==> r == Failure(NullPointer("id"))
      ensures id.Some? ==> r == Success(TileAt(tiles, FirstMatch(tiles, getId, id.value)))
    {
      if id.None? {
        return Failure(NullPointer("id"));
      }
      var i := 0;
      while i < |tiles|
        invariant 0 <= i <= |tiles|
        invariant forall j :: 0 <= j < i ==> getId(tiles[j]) != id.value
      {
        var tile := tiles[i];
        if getId(tile) == id.value {
          FirstMatchAt(tiles, getId, id.value, i);
          return Success(Some(tile));
        }
        i := i + 1;
      }
      NoMatch(tiles, getId, id.value);
      return Success(None);
    }

    /** The farthest tile whose id is `id`, or null: the scan runs from the far end. */
    method FindFarthestFromEnd(id: Option<string>) returns (r: Result<Option<T>, TileStackError>)
      ensures id.None? ==> r == Failure(NullPointer("id"))
      ensures id.Some? ==> r == Success(TileAt(tiles, LastMatch(tiles, getId, id.value)))
    {
      if id.None? {
        return Failure(NullPointer("id"));
      }
      var i := |tiles|;
      while i > 0
        invariant 0 <= i <= |tiles|
        invariant forall j :: i <= j < |tiles| ==> getId(tiles[j]) != id.value
      {
        var tile := tiles[i - 1];
        if getId(tile) == id.value {
          LastMatchAt(tiles, getId, id.value, i - 1);
          return Success(Some(tile));
        }
        i := i - 1;
      }
      NoMatch(tiles, getId, id.value);
      return Success(None);
    }

    /** `contains(id)`: whether `findClosest(id)` finds a tile. */
    function Contains(id: Option<string>): (r: Result<bool, TileStackError>)
      reads this
      ensures id.None? ==> r == Failure(NullPointer("id"))
      ensures id.Some? ==> r == Success(exists i :: 0 <= i < |tiles| && getId(tiles[i]) == id.value)
    {
      if id.None? then Failure(NullPointer("id"))
      else Success(FirstMatch(tiles, getId, id.value).Some?)
    }

    /**
     * `getBlockInChunk(output)`, abstract in the stack: this stands for a
     * concrete stack that writes its block's in-chunk coordinates into `output`.
     */
    method GetBlockInChunk(output: Vec3i) returns (r: Vec3i)
      modifies output
      ensures r == output && output.Value() == blockInChunk
    {
      output.Set(blockInChunk.x, blockInChunk.y, blockInChunk.z);
      r := output;
    }

    /**
     * `getBlockInWorld(output)`: the in-chunk coordinates are written into
     * `output` first and then read back, axis by axis, to form the world
     * coordinates. `output` must not be the chunk's own position vector.
     */
    method GetBlockInWorld(output: Vec3i) returns (r: Vec3i)
      requires output != chunkPosition
      modifies output
      ensures r == output
      ensures output.Value() == Coordinates.InWorldOf(chunkPosition.Value(), blockInChunk)
    {
      var position := chunkPosition;
      var inChunk := GetBlockInChunk(output);
      r := Coordinates.GetInWorldVec(position, inChunk, output);
    }
  }

  // ---------------------------------------------------------------------
  // Facts about the searches.
  // ---------------------------------------------------------------------

  /** A match at `i` with none before it is the first match. */
  lemma {:induction false} FirstMatchAt<T>(tiles: seq<T>, getId: T -> string, id: string, i: nat)
    requires i < |tiles| && getId(tiles[i]) == id
    requires forall j :: 0 <= j < i ==> getId(tiles[j]) != id
    ensures FirstMatch(tiles, getId, id) == Some(i)
    decreases i
  {
    if i > 0 {
      FirstMatchAt(tiles[1..], getId, id, i - 1);
    }
  }

  /** A match at `i` with none after it is the last match. */
  lemma {:induction false} LastMatchAt<T>(tiles: seq<T>, getId: T -> string, id: string, i: nat)
    requires i < |tiles| && getId(tiles[i]) == id
    requires forall j :: i < j < |tiles| ==> getId(tiles[j]) != id
    ensures LastMatch(tiles, getId, id) == Some(i)
    decreases |tiles| - i
  {
    if i < |tiles| - 1 {
      LastMatchAt(tiles[..|tiles| - 1], getId, id, i);
    }
  }

  /** With no tile of that id, neither search finds one. */
  lemma NoMatch<T>(tiles: seq<T>, getId: T -> string, id: string)
    requires forall j :: 0 <= j < |tiles| ==> getId(tiles[j]) != id
    ensures FirstMatch(tiles, getId, id) == None
    ensures LastMatch(tiles, getId, id) == None
  {
  }

  /** The closest tile is what a search for its own id finds first. */
  lemma ClosestIsFirstMatch<T>(tiles: seq<T>, getId: T -> string)
    requires |tiles| > 0
    ensures FirstMatch(tiles, getId, getId(tiles[0])) == Some(0)
  {
  }

  /** The farthest tile is what a search from the far end for its own id finds. */
  lemma FarthestIsLastMatch<T>(tiles: seq<T>, getId: T -> string)
    requires |tiles| > 0
    ensures LastMatch(tiles, getId, getId(tiles[|tiles| - 1])) == Some(|tiles| - 1)
  {
  }

  /** The two searches agree exactly when the id occurs at most once. */
  lemma FirstIsLastIffUnique<T>(tiles: seq<T>, getId: T -> string, id: string)
    ensures FirstMatch(tiles, getId, id) == LastMatch(tiles, getId, id) <==>
      forall i, j :: 0 <= i < j < |tiles| ==> !(getId(tiles[i]) == id && getId(tiles[j]) == id)
  {
  }

  /**
   * As written, `findFarthest` does not find the farthest tile: on a stack of
   * two different tiles that share an id it returns the closer one.
   */
  method FarthestCounterexample() returns (found: Result<Option<int>, TileStackError>, farthest: int)
    ensures farthest == 2
    ensures found == Success(Some(1))
  {
    var position := new Vec3i();
    var stack := new TileStack<int>([1, 2], (t: int) => "Test:Grass", position,
                                    Triple(0, 0, 0), (tag: int32) => tag, (index: int32) => index);
    found := stack.FindFarthest(Some("Test:Grass"));
    var last := stack.GetFarthest();
    farthest := last.value;
  }
}
