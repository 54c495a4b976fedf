/** The mutable integer vector `glm.vec._3.i.Vec3i` that the world code fills in place. */
module Vectors {
  import opened JavaInt

  /** The three components of a vector, as a value. */
  datatype Triple = Triple(x: int32, y: int32, z: int32)

  class Vec3i {
    var x: int32
    var y: int32
    var z: int32

    /** `new Vec3i()`: every component is zero. */
    constructor ()
      ensures Value() == Triple(0, 0, 0)
    {
      x, y, z := 0, 0, 0;
    }

    function Value(): Triple
      reads this
    {
      Triple(x, y, z)
    }

    /** `set(x, y, z)`. */
    method Set(x': int32, y': int32, z': int32)
      modifies this
      ensures Value() == Triple(x', y', z')
    {
      x, y, z := x', y', z';
    }
  }
}
