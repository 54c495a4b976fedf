/**
 * A packet that carries a change to one entity of the world: the entity's
 * id and a buffer of bytes holding the entity's new state. Applying the
 * packet looks the entity up by id and lets the entity read its state from
 * the buffer. How an entity decodes its state belongs to the entity, so it
 * is a parameter here (`read`), which may also fail.
 */
module EntityPackets {
  import opened JavaInt
  import opened Wrappers
  import opened DataStreams

  /**
   * What an entity's decoder leaves behind: the entity's state after reading,
   * and whether reading stopped on an I/O error. A failed read may already
   * have changed part of the state.
   */
  datatype ReadResult<S> = ReadResult(state: S, failed: bool)

  datatype ApplyError =
    | EntityNotFound(entityId: int64)   // "Entity with ID ... not found"
    | EntityCouldNotBeRead              // the decoder threw an I/O error

  /** The world's entities by id. */
  class World<S> {
    var entities: map<int64, S>

    constructor (entities: map<int64, S>)
      ensures this.entities == entities
    {
      this.entities := entities;
    }
  }

  /**
   * The outcome and the new entity map of applying a change to `entities`.
   * An unknown id fails with that id and leaves every entity as it was. For
   * a known id the set of ids stays the same, that entity gets the state it
   * read from the bytes and every other entity is unchanged; the outcome is
   * a success exactly when the read did not fail, and a failed read is
   * reported, never swallowed.
   */
  function ApplyChange<S>(entities: map<int64, S>, entityId: int64, bytes: seq<byte>,
                          read: (S, seq<byte>) -> ReadResult<S>): (result: (Outcome<ApplyError>, map<int64, S>))
    ensures entityId !in entities ==> result == (Fail(EntityNotFound(entityId)), entities)
    ensures entityId in entities ==>
      && result.1.Keys == entities.Keys
      && result.1[entityId] == read(entities[entityId], bytes).state
      && (forall other :: other in entities && other != entityId ==> result.1[other] == entities[other])
    ensures result.0.Pass? <==> entityId in entities && !read(entities[entityId], bytes).failed
    ensures entityId in entities && read(entities[entityId], bytes).failed ==>
      result.0 == Fail(EntityCouldNotBeRead)
  {
    if entityId !in entities then (Fail(EntityNotFound(entityId)), entities)
    else
      var after := read(entities[entityId], bytes);
      (if after.failed then Fail(EntityCouldNotBeRead) else Pass, entities[entityId := after.state])
  }

  class PacketEntityChange {
    const namespace: string
    const name: string
    var entityId: int64
    /** The packet's buffer: what has been written into it. */
    const buffer: DataOutput

    constructor ()
      ensures namespace == "Core" && name == "EntityChange"
      ensures entityId == 0
      ensures fresh(buffer) && buffer.written == []
    {
      namespace := "Core";
      name := "EntityChange";
      entityId := 0;
      buffer := new DataOutput();
    }

    /** `getEntityId()`: the id of the entity the packet changes, the one `apply` looks up. */
    function GetEntityId(): (id: int64)
      reads this
      ensures id == entityId
    {
      entityId
    }

    /** `setEntityId(id)`: afterwards `getEntityId()` is `id`; the buffer is untouched. */
    method SetEntityId(entityId: int64)
      modifies this
      ensures GetEntityId() == entityId
    {
      this.entityId := entityId;
    }

    /** `getWriter()`: writing goes into the packet's buffer. */
    function GetWriter(): (w: DataOutput)
      ensures w == buffer
    {
      buffer
    }

    /** `getReader()`: a fresh reader positioned at the start of the buffer's bytes. */
    method GetReader() returns (input: DataInput)
      ensures fresh(input) && input.Valid()
      ensures input.Remaining() == buffer.written
    {
      input := new DataInput(buffer.written);
    }

    /**
     * `apply(world)`: the entity with this packet's id reads its state from
     * the buffer. An unknown id is an error that leaves the world alone; a
     * failed read is an error too, after the entity has read what it could.
     */
    method Apply<S>(world: World<S>, read: (S, seq<byte>) -> ReadResult<S>) returns (r: Outcome<ApplyError>)
      modifies world
      ensures (r, world.entities) == ApplyChange(old(world.entities), entityId, buffer.written, read)
    {
      var id := GetEntityId();
      if id !in world.entities {
        return Fail(EntityNotFound(id));
      }
      var input := GetReader();
      var after := read(world.entities[id], input.Remaining());
      world.entities := world.entities[id := after.state];
      if after.failed {
        return Fail(EntityCouldNotBeRead);
      }
      r := Pass;
    }
  }
}
