/**
 * The registry of tile kinds: a map from a tile's id to its data. The
 * registry starts out holding the four test tiles; registering a tile puts
 * it under its id, replacing whatever was there.
 */
module TileRegistry {
  import opened Wrappers

  /**
   * The data of a kind of tile, identified by namespace and name. Its id is
   * the namespace and the name joined by a colon.
   */
  datatype TileData = TileData(namespace: string, name: string) {
    function GetId(): string {
      namespace + ":" + name
    }
  }

  /** `get(id)` on a registry map: the tile registered under `id`, none (`null`) when there is none. */
  function Lookup(registry: map<string, TileData>, id: string): (r: Option<TileData>)
    ensures r.None? <==> id !in registry
    ensures r.Some? ==> r.value == registry[id]
  {
    if id in registry then Some(registry[id]) else None
  }

  /** Every tile in the registry is filed under its own id. */
  ghost predicate KeyedById(registry: map<string, TileData>) {
    forall id :: id in registry ==> registry[id].GetId() == id
  }

  /**
   * `register(t)` on a registry map: afterwards `t` is found under its id,
   * and every other id finds what it found before.
   */
  function Put(registry: map<string, TileData>, t: TileData): (r: map<string, TileData>)
    ensures Lookup(r, t.GetId()) == Some(t)
    ensures forall id :: id != t.GetId() ==> Lookup(r, id) == Lookup(registry, id)
    ensures r.Keys == registry.Keys + {t.GetId()}
    ensures KeyedById(registry) ==> KeyedById(r)
  {
    registry[t.GetId() := t]
  }

  /** Registering a second tile under an id that is taken replaces the first. */
  lemma RegisterOverwrites(registry: map<string, TileData>, first: TileData, second: TileData)
    requires first.GetId() == second.GetId()
    ensures Lookup(Put(Put(registry, first), second), first.GetId()) == Some(second)
    ensures Put(Put(registry, first), second) == Put(registry, second)
  {
  }

  const GRASS := TileData("Test", "Grass")
  const STONES := TileData("Test", "Stones")
  const YELLOW_FLOWERS := TileData("Test", "YellowFlowers")
  const SAND := TileData("Test", "Sand")

  /** The registry map after the static initializer: the four test tiles, in the order it registers them. */
  function InitialRegistry(): (r: map<string, TileData>)
    ensures r.Keys == {"Test:Grass", "Test:Stones", "Test:YellowFlowers", "Test:Sand"}
    ensures Lookup(r, "Test:Grass") == Some(GRASS)
    ensures Lookup(r, "Test:Stones") == Some(STONES)
    ensures Lookup(r, "Test:YellowFlowers") == Some(YELLOW_FLOWERS)
    ensures Lookup(r, "Test:Sand") == Some(SAND)
    ensures KeyedById(r)
  {
    assert GRASS.GetId() == "Test:Grass" && STONES.GetId() == "Test:Stones";
    assert YELLOW_FLOWERS.GetId() == "Test:YellowFlowers" && SAND.GetId() == "Test:Sand";
    Put(Put(Put(Put(map[], GRASS), STONES), YELLOW_FLOWERS), SAND)
  }

  class TileDataRegistry {
    var registry: map<string, TileData>

    ghost predicate Valid()
      reads this
    {
      KeyedById(registry)
    }

    /** The static initializer: registers Grass, Stones, YellowFlowers and Sand of namespace Test. */
    constructor ()
      ensures Valid() && registry == InitialRegistry()
    {
      registry := map[];
      new;
      Register(GRASS);
      Register(STONES);
      Register(YELLOW_FLOWERS);
      Register(SAND);
    }

    /** `get(id)`: the tile registered under `id`, which has that id; none (`null`) when there is none. */
    function Get(id: string): (r: Option<TileData>)
      requires Valid()
      reads this
      ensures r.None? <==> id !in registry
      ensures r.Some? ==> r.value == registry[id] && r.value.GetId() == id
    {
      Lookup(registry, id)
    }

    /** `register(t)`. */
    method Register(t: TileData)
      requires Valid()
      modifies this
      ensures Valid() && registry == Put(old(registry), t)
    {
      registry := registry[t.GetId() := t];
    }
  }
}
