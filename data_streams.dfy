/**
 * The two halves of the binary encoding that packets use: `java.io.DataOutput`
 * and `java.io.DataInput`, reduced to the `writeInt` and `readInt` the packets
 * call. `writeInt` writes the four bytes of an `int` high byte first (two's
 * complement); `readInt` reads four bytes back and fails with an
 * end-of-file exception when fewer than four remain.
 */
module DataStreams {
  import opened JavaInt
  import opened Wrappers

  type byte = x: int | 0 <= x < 256

  datatype IOError = EndOfFile

  /** The bytes `writeInt(v)` writes, high byte first. */
  function IntToBytes(v: int32): (bytes: seq<byte>)
    ensures |bytes| == 4
  {
    var u := v % TWO_32;
    [u / 0x100_0000, (u / 0x1_0000) % 256, (u / 0x100) % 256, u % 256]
  }

  /** Four bytes, high byte first, read as an unsigned number. */
  function Unsigned(bytes: seq<byte>): (u: int)
    requires |bytes| == 4
  {
    (bytes[0] as int) * 0x100_0000 + (bytes[1] as int) * 0x1_0000 + (bytes[2] as int) * 0x100 + bytes[3] as int
  }

  /** The `int` that `readInt` assembles from four bytes. */
  function BytesToInt(bytes: seq<byte>): (v: int32)
    requires |bytes| == 4
  {
    Wrap(Unsigned(bytes))
  }

  /** Reading back what was written gives the same `int`. */
  lemma IntRoundTrip(v: int32)
    ensures BytesToInt(IntToBytes(v)) == v
  {
    var u := v % TWO_32;
    var bytes := IntToBytes(v);
    DigitsOfWord(u);
    assert Unsigned(bytes) == u;
    WrapCongruent(u, v, -(v / TWO_32));
  }

  /** A number below 2^32 is the sum of its four base-256 digits. */
  lemma DigitsOfWord(u: int)
    requires 0 <= u < TWO_32
    ensures u / 0x100_0000 < 256
    ensures (u / 0x100_0000) * 0x100_0000 + ((u / 0x1_0000) % 256) * 0x1_0000
            + ((u / 0x100) % 256) * 0x100 + u % 256 == u
  {
    var d3, r3 := u / 0x100_0000, u % 0x100_0000;
    var d2, r2 := r3 / 0x1_0000, r3 % 0x1_0000;
    var d1, d0 := r2 / 0x100, r2 % 0x100;
    assert u == d3 * 0x100_0000 + d2 * 0x1_0000 + d1 * 0x100 + d0;
    ModUnique(u, 0x1_0000, d3 * 0x100 + d2, d1 * 0x100 + d0);
    ModUnique(u / 0x1_0000, 256, d3, d2);
    ModUnique(u, 0x100, d3 * 0x1_0000 + d2 * 0x100 + d1, d0);
    ModUnique(u / 0x100, 256, d3 * 0x100 + d2, d1);
  }

  /** Every four bytes are what `writeInt` writes for the `int` `readInt` makes of them. */
  lemma BytesRoundTrip(bytes: seq<byte>)
    requires |bytes| == 4
    ensures IntToBytes(BytesToInt(bytes)) == bytes
  {
    var u := Unsigned(bytes);
    var b0, b1, b2, b3: int := bytes[0], bytes[1], bytes[2], bytes[3];
    var v := BytesToInt(bytes);
    assert 0 <= u < TWO_32;
    var k := (v - u) / TWO_32;
    assert v == u + TWO_32 * k;
    ModUnique(v, TWO_32, k, u);
    ModUnique(u, 0x100_0000, b0, b1 * 0x1_0000 + b2 * 0x100 + b3);
    ModUnique(u, 0x1_0000, b0 * 0x100 + b1, b2 * 0x100 + b3);
    ModUnique(u / 0x1_0000, 256, b0, b1);
    ModUnique(u, 0x100, b0 * 0x1_0000 + b1 * 0x100 + b2, b3);
    ModUnique(u / 0x100, 256, b0 * 0x100 + b1, b2);
  }

  /** An output stream: everything written so far. */
  class DataOutput {
    var written: seq<byte>

    constructor ()
      ensures written == []
    {
      written := [];
    }

    /** `writeInt(v)`. */
    method WriteInt(v: int32)
      modifies this
      ensures written == old(written) + IntToBytes(v)
    {
      written := written + IntToBytes(v);
    }
  }

  /** An input stream over `data`, of which the first `position` bytes have been read. */
  class DataInput {
    const data: seq<byte>
    var position: nat

    ghost predicate Valid()
      reads this
    {
      position <= |data|
    }

    constructor (data: seq<byte>)
      ensures Valid() && this.data == data && position == 0
    {
      this.data := data;
      position := 0;
    }

    /** The bytes not read yet. */
    function Remaining(): seq<byte>
      reads this
      requires Valid()
    {
      data[position..]
    }

    /**
     * `readInt()`: the next four bytes as an `int`. With fewer than four
     * left it consumes what is left and throws the end-of-file exception.
     */
    method ReadInt() returns (r: Result<int32, IOError>)
      requires Valid()
      modifies this
      ensures Valid()
      ensures r.Success? <==> |old(Remaining())| >= 4
      ensures r.Success? ==> r.value == BytesToInt(old(Remaining())[..4])
      ensures r.Success? ==> Remaining() == old(Remaining())[4..]
      ensures r.Failure? ==> r.error == EndOfFile && Remaining() == []
    {
      if |data| - position < 4 {
        position := |data|;
        return Failure(EndOfFile);
      }
      r := Success(BytesToInt(data[position..position + 4]));
      position := position + 4;
    }
  }
}
