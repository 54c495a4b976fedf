/**
 * A texture on the graphics card and the table of which texture is bound to
 * each of the 32 texture slots. A texture gets its handle the first time it
 * is bound (or loaded); binding records the handle in the slot's entry so
 * that binding the same texture to the same slot again does nothing.
 *
 * The handle a texture gets when it is uploaded comes from the texture's
 * pixel data, which is not part of this model: it is the `obtained`
 * parameter. The graphics calls themselves are left out; what remains is
 * the state the class keeps.
 */
module Textures {
  import opened JavaInt
  import opened Wrappers

  /** The handle of a texture that has not been uploaded, and of an empty slot. */
  const NOT_LOADED: int32 := -1
  /** The number of texture slots the bind table tracks. */
  const SLOTS: int := 32

  datatype TextureError =
    | LoadFailed(handle: int32)        // the upload produced a negative handle ("oops")
    | SlotOutOfBounds(slot: int32)     // the bind table has no entry for the slot

  /** What one texture keeps, together with the shared bind table. */
  datatype TextureState = TextureState(handle: int32, bound: seq<int32>)

  /**
   * `load()` on a texture whose handle is `handle`, where uploading would
   * produce `obtained`. A loaded texture is left alone. Otherwise the handle
   * becomes `obtained`, and that fails when it is negative; the handle then
   * keeps the negative value.
   */
  function LoadSpec(handle: int32, obtained: int32): (result: (Outcome<TextureError>, int32))
    ensures handle != NOT_LOADED ==> result == (Pass, handle)
    ensures handle == NOT_LOADED ==> result.1 == obtained
    ensures handle == NOT_LOADED ==> (result.0.Pass? <==> obtained >= 0)
    ensures result.0.Pass? ==> result.1 != NOT_LOADED
  {
    if handle != NOT_LOADED then (Pass, handle)
    else if obtained < 0 then (Fail(LoadFailed(obtained)), obtained)
    else (Pass, obtained)
  }

  /**
   * `bind(slot)`: load if need be, then record the handle in the slot's
   * entry unless it is already there. After a successful bind the texture
   * is loaded and its slot holds its handle; no other entry of the table
   * changes; and binding a loaded texture to a slot that already holds it
   * changes nothing.
   */
  function BindSpec(s: TextureState, slot: int32, obtained: int32): (result: (Outcome<TextureError>, TextureState))
    requires |s.bound| == SLOTS
    ensures |result.1.bound| == SLOTS
    ensures result.0.Pass? ==>
      0 <= slot < SLOTS && result.1.handle != NOT_LOADED && result.1.bound[slot] == result.1.handle
    ensures forall i :: 0 <= i < SLOTS && i != slot ==> result.1.bound[i] == s.bound[i]
    ensures s.handle != NOT_LOADED && 0 <= slot < SLOTS && s.bound[slot] == s.handle ==> result == (Pass, s)
  {
    var (loaded, handle) := LoadSpec(s.handle, obtained);
    if loaded.Fail? then (loaded, TextureState(handle, s.bound))
    else if !(0 <= slot < SLOTS) then (Fail(SlotOutOfBounds(slot)), TextureState(handle, s.bound))
    else if s.bound[slot] == handle then (Pass, TextureState(handle, s.bound))
    else (Pass, TextureState(handle, s.bound[slot := handle]))
  }

  /** The static initializer of the bind table: 32 entries, every one empty. */
  method NewBindTable() returns (table: array<int32>)
    ensures fresh(table) && table.Length == SLOTS
    ensures forall i :: 0 <= i < SLOTS ==> table[i] == NOT_LOADED
  {
    table := new int32[SLOTS](_ => 0);
    var i := 0;
    while i < table.Length
      invariant 0 <= i <= table.Length
      invariant forall j :: 0 <= j < i ==> table[j] == NOT_LOADED
    {
      table[i] := NOT_LOADED;
      i := i + 1;
    }
  }

  class TexturePrimitive {
    var handle: int32
    /** The bind table, shared by all textures. */
    const currentlyBound: array<int32>

    ghost predicate Valid()
      reads this
    {
      currentlyBound.Length == SLOTS
    }

    /** A new texture is not loaded. */
    constructor (currentlyBound: array<int32>)
      requires currentlyBound.Length == SLOTS
      ensures Valid() && this.currentlyBound == currentlyBound
      ensures handle == NOT_LOADED && !IsLoaded()
    {
      handle := NOT_LOADED;
      this.currentlyBound := currentlyBound;
    }

    /**
     * `isLoaded()`: the handle is not NOT_LOADED. That is exactly when
     * `load()` leaves the texture alone, whatever an upload would produce.
     */
    predicate IsLoaded(): (loaded: bool)
      reads this
      ensures loaded <==> handle != NOT_LOADED
      ensures forall obtained: int32 :: loaded <==> LoadSpec(handle, obtained) == (Pass, handle)
    {
      handle != NOT_LOADED
    }

    function State(): TextureState
      reads this, currentlyBound
    {
      TextureState(handle, currentlyBound[..])
    }

    /** `load()`, where uploading would produce the handle `obtained`. */
    method Load(obtained: int32) returns (r: Outcome<TextureError>)
      modifies this
      ensures (r, handle) == LoadSpec(old(handle), obtained)
    {
      if IsLoaded() {
        return Pass;
      }
      handle := obtained;
      if handle < 0 {
        return Fail(LoadFailed(handle));
      }
      r := Pass;
    }

    /** `bind(slot)`, where uploading, if it happens, would produce `obtained`. */
    method Bind(slot: int32, obtained: int32) returns (r: Outcome<TextureError>)
      requires Valid()
      modifies this, currentlyBound
      ensures Valid()
      ensures (r, State()) == BindSpec(old(State()), slot, obtained)
    {
      if !IsLoaded() {
        var loaded := Load(obtained);
        if loaded.Fail? {
          return loaded;
        }
      }
      if !(0 <= slot < currentlyBound.Length) {
        return Fail(SlotOutOfBounds(slot));
      }
      if currentlyBound[slot] == handle {
        return Pass;
      }
      currentlyBound[slot] := handle;
      r := Pass;
    }

    /** `delete()` releases the texture exactly when it is loaded, and does not reset the handle. */
    method Delete() returns (released: bool)
      ensures released == (handle != NOT_LOADED)
    {
      released := IsLoaded();
    }
  }

  // ---------------------------------------------------------------------
  // Laws of the bind table.
  // ---------------------------------------------------------------------

  /** A second bind to the same slot, after one that succeeded, changes nothing. */
  lemma BindIdempotent(s: TextureState, slot: int32, first: int32, second: int32)
    requires |s.bound| == SLOTS && BindSpec(s, slot, first).0.Pass?
    ensures var after := BindSpec(s, slot, first).1;
      BindSpec(after, slot, second) == (Pass, after)
  {
  }

  /**
   * The errors of a bind: the upload fails, or, once loaded, the slot has
   * no entry. A slot out of range is reported only after the texture has
   * been loaded, so the load stays done.
   */
  lemma BindErrors(s: TextureState, slot: int32, obtained: int32)
    requires |s.bound| == SLOTS
    ensures var (r, after) := BindSpec(s, slot, obtained);
      && after.handle == LoadSpec(s.handle, obtained).1
      && (r.Fail? <==> LoadSpec(s.handle, obtained).0.Fail? || !(0 <= slot < SLOTS))
      && (LoadSpec(s.handle, obtained).0.Fail? ==> r == LoadSpec(s.handle, obtained).0 && after.bound == s.bound)
      && (LoadSpec(s.handle, obtained).0.Pass? && !(0 <= slot < SLOTS) ==>
            r == Fail(SlotOutOfBounds(slot)) && after.bound == s.bound)
  {
  }

  /**
   * A failed upload keeps the negative handle. Any negative handle other
   * than -1 then counts as loaded, so the next bind does not try again and
   * records that handle in the slot.
   */
  lemma FailedLoadThenBind(bound: seq<int32>, slot: int32, obtained: int32)
    requires |bound| == SLOTS && 0 <= slot < SLOTS
    ensures LoadSpec(NOT_LOADED, -2) == (Fail(LoadFailed(-2)), -2)
    ensures var (r, after) := BindSpec(TextureState(-2, bound), slot, obtained);
      r == Pass && after.handle == -2 && after.bound[slot] == -2
  {
  }
}
