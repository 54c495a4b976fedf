/**
 * A packet that concerns one block of the world. It carries the block's
 * world coordinates, sends them as three `int`s (x, y, z, each high byte
 * first) and names the chunk it affects as the chunk of that block.
 */
module BlockPackets {
  import opened JavaInt
  import opened Wrappers
  import opened Vectors
  import opened DataStreams
  import Coordinates

  /** The twelve bytes `write` sends for a block position. */
  function EncodeBlock(blockInWorld: Triple): (bytes: seq<byte>)
    ensures |bytes| == 12
  {
    IntToBytes(blockInWorld.x) + IntToBytes(blockInWorld.y) + IntToBytes(blockInWorld.z)
  }

  /** The block position `read` takes from the front of `bytes`; none when fewer than twelve remain. */
  function DecodeBlock(bytes: seq<byte>): (r: Option<Triple>)
    ensures r.Some? <==> |bytes| >= 12
  {
    if |bytes| < 12 then None
    else Some(Triple(BytesToInt(bytes[..4]), BytesToInt(bytes[4..8]), BytesToInt(bytes[8..12])))
  }

  /** Decoding what was encoded gives the position back, whatever follows it. */
  lemma BlockRoundTrip(blockInWorld: Triple, rest: seq<byte>)
    ensures DecodeBlock(EncodeBlock(blockInWorld) + rest) == Some(blockInWorld)
  {
    var bytes := EncodeBlock(blockInWorld) + rest;
    assert bytes[..4] == IntToBytes(blockInWorld.x);
    assert bytes[4..8] == IntToBytes(blockInWorld.y);
    assert bytes[8..12] == IntToBytes(blockInWorld.z);
    IntRoundTrip(blockInWorld.x);
    IntRoundTrip(blockInWorld.y);
    IntRoundTrip(blockInWorld.z);
  }

  /** Every twelve bytes decode to a position that encodes to them again. */
  lemma BlockBytesRoundTrip(bytes: seq<byte>)
    requires |bytes| == 12
    ensures DecodeBlock(bytes).Some? && EncodeBlock(DecodeBlock(bytes).value) == bytes
  {
    BytesRoundTrip(bytes[..4]);
    BytesRoundTrip(bytes[4..8]);
    BytesRoundTrip(bytes[8..12]);
    assert bytes == bytes[..4] + bytes[4..8] + bytes[8..12];
  }

  class PacketAffectBlock {
    const id: string
    /** The block the packet is about; the packet owns this vector. */
    const blockInWorld: Vec3i

    /** A new packet is about block (0, 0, 0). */
    constructor (id: string)
      ensures this.id == id
      ensures fresh(blockInWorld) && blockInWorld.Value() == Triple(0, 0, 0)
    {
      this.id := id;
      blockInWorld := new Vec3i();
    }

    /** `getBlockInWorld()` hands out the packet's own vector, not a copy. */
    function GetBlockInWorld(): (v: Vec3i)
      ensures v == blockInWorld
    {
      blockInWorld
    }

    /** `set(v)` copies the three components of `v`. */
    method Set(v: Vec3i)
      modifies blockInWorld
      ensures blockInWorld.Value() == old(v.Value())
    {
      blockInWorld.Set(v.x, v.y, v.z);
    }

    /**
     * `read(input)`: the next three `int`s become the position. All three
     * are read before the position is set, so when the input ends early the
     * position is left as it was (the input is then used up).
     */
    method Read(input: DataInput) returns (r: Outcome<IOError>)
      requires input.Valid()
      modifies input, blockInWorld
      ensures input.Valid()
      ensures r.Pass? <==> DecodeBlock(old(input.Remaining())).Some?
      ensures r.Pass? ==> blockInWorld.Value() == DecodeBlock(old(input.Remaining())).value
      ensures r.Pass? ==> input.Remaining() == old(input.Remaining())[12..]
      ensures r.Fail? ==> r.error == EndOfFile && input.Remaining() == []
      ensures r.Fail? ==> blockInWorld.Value() == old(blockInWorld.Value())
    {
      ghost var before := input.Remaining();
      var x := input.ReadInt();
      if x.Failure? {
        return Fail(x.error);
      }
      var y := input.ReadInt();
      if y.Failure? {
        return Fail(y.error);
      }
      var z := input.ReadInt();
      if z.Failure? {
        return Fail(z.error);
      }
      assert before[4..][..4] == before[4..8];
      assert before[4..][4..][..4] == before[8..12];
      assert before[4..][4..][4..] == before[12..];
      blockInWorld.Set(x.value, y.value, z.value);
      r := Pass;
    }

    /** `write(output)` appends the position as three `int`s. */
    method Write(output: DataOutput)
      modifies output
      ensures output.written == old(output.written) + EncodeBlock(blockInWorld.Value())
    {
      output.WriteInt(blockInWorld.x);
      output.WriteInt(blockInWorld.y);
      output.WriteInt(blockInWorld.z);
    }

    /** `getAffectedChunk(output)`: the chunk that holds the block. */
    method GetAffectedChunk(output: Vec3i)
      modifies output
      ensures output.Value() == Coordinates.ChunkOf(old(blockInWorld.Value()))
    {
      var _ := Coordinates.ConvertInWorldToChunkVec(blockInWorld, output);
    }
  }

  /**
   * A packet written by one side and read by the other carries the same
   * block: `write` followed by `read` on what was written copies the position.
   */
  method Transmit(sender: PacketAffectBlock, receiver: PacketAffectBlock) returns (r: Outcome<IOError>)
    modifies receiver.blockInWorld
    ensures r == Pass
    ensures receiver.blockInWorld.Value() == old(sender.blockInWorld.Value())
  {
    var output := new DataOutput();
    sender.Write(output);
    var input := new DataInput(output.written);
    BlockRoundTrip(sender.blockInWorld.Value(), []);
    assert output.written + [] == output.written;
    r := receiver.Read(input);
  }
}
