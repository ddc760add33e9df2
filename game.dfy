/**
  The game rules of game.py: a `Player` owns a hexagonal map of tiles, an
  energy counter, an environment bar and a catalog of building kinds. Tiles
  are bought, buildings are bought and upgraded, and every tick adds each
  building's production to the energy counter.

  The Python `Tile` and `Building` objects are held here as values inside
  `Player.tiles`; every write to `tile.status` or `building.lv` becomes a
  reassignment of that field (see README, "Left out").
*/
module Game {
  import opened Common
  import opened HexGrid

  datatype Terrain = Forest | Plain | Desert | Mountain | Sea | River

  /** A building on a tile: its catalog name, its level (0 when bought) and its durability. */
  datatype Building = Building(name: string, lv: nat, durability: int)

  /** game.py's `tile.status`: one of the strings "locked", "buyable", "empty", or a Building object. */
  datatype Status = Locked | Buyable | Empty | Occupied(building: Building)

  datatype Tile = Tile(id: int, q: int, r: int, terrain: Terrain, status: Status)

  /** One entry of `Player.buildings`: how many were bought, and the kind's fixed economics. */
  datatype CatalogEntry = CatalogEntry(
    nb: nat, eBuyCost: int, envBuildCost: real, envUseCost: real, eProd: int, durability: int)

  /** How an operation ended: normally, or by the exception Python raises part way through. */
  datatype Outcome = Completed | IndexError | KeyError

  /** Every field of a Player, as one value. */
  datatype PlayerState = PlayerState(
    energy: int, envBar: real, tiles: seq<Tile>, coordToId: map<Coord, int>,
    tilePrice: int, nbBoughtTiles: nat,
    buildingPref: map<string, seq<string>>, buildings: map<string, CatalogEntry>)

  /** The economics every kind of the shipped catalog has (nb = 0 at the start). */
  const Standard := CatalogEntry(0, 100, 1.0, 0.1, 1, 100)

  /** The sixteen building kinds of the shipped catalog. */
  const Kinds: set<string> := {
    "Coal", "Offshore oil", "Fracking gas", "Lithium extraction",
    "Hydro dam", "Geothermal", "Tidal", "Wood",
    "Solar", "Wind", "Nuclear", "Gravity",
    "Hydrogen", "Synthetic fuel", "Mirror plant", "Salinity gradient"}

  /** `Player.buildings` at the start: every kind with the same economics. */
  const Catalog: map<string, CatalogEntry> := map name | name in Kinds :: Standard

  const Preferences: map<string, seq<string>> := map[
    "desert" := ["Solar", "Mirror plant"],
    "plain" := ["Wind", "Fracking gas", "Hydrogen"],
    "forest" := ["Coal", "Wood", "Synthetic fuel"],
    "mountain" := ["Lithium extraction", "Geothermal", "Gravity"],
    "sea" := ["Offshore oil", "Tidal", "Salinity gradient"],
    "river" := ["Hydro dam", "Nuclear"]]

  /** Python's `round(n / 2)` for an integer n: the nearest integer, ties going to the even one. */
  function RoundHalf(n: int): (r: int)
    ensures -1 <= 2 * r - n <= 1
    ensures 2 * r != n ==> r % 2 == 0
  {
    if n % 2 == 0 || (n / 2) % 2 == 0 then n / 2 else n / 2 + 1
  }

  /** Rounding never reverses order: a larger amount never rounds lower. */
  lemma RoundHalfMonotone(a: int, b: int)
    requires a <= b
    ensures RoundHalf(a) <= RoundHalf(b)
  {
  }

  /** The number of rings `range(1, nb_rings + 1)` walks. */
  function Rings(nbRings: int): nat { if nbRings < 0 then 0 else nbRings }

  /** Which position Python's `xs[i]` reaches in a list of length n: negative indices count from the end. */
  function PyIndex(i: int, n: nat): (p: Option<nat>)
    ensures p.Some? <==> -(n as int) <= i < n
    ensures p.Some? ==> p.value < n && (p.value == i || p.value == i + n)
  {
    if 0 <= i < n then Some(i) else if -(n as int) <= i < 0 then Some(i + n) else None
  }

  /** round(E_buy_cost * (1 + nb / 2)): the price of the next building of a kind. */
  function BuildPrice(e: CatalogEntry): int { RoundHalf(e.eBuyCost * (2 + e.nb)) }

  /** round(durability * (1 + lv / 2)): a building's durability at level lv. */
  function LevelDurability(e: CatalogEntry, lv: nat): int { RoundHalf(e.durability * (2 + lv)) }

  /** With the shipped catalog the building price grows by 50 per building already bought. */
  lemma ShippedBuildPrice(e: CatalogEntry)
    requires e.eBuyCost == 100
    ensures BuildPrice(e) == 100 + 50 * e.nb
  {
    assert 100 * (2 + e.nb) == 2 * (100 + 50 * e.nb);
  }

  /** With the shipped catalog durability grows by 50 per level. */
  lemma ShippedDurability(e: CatalogEntry, lv: nat)
    requires e.durability == 100
    ensures LevelDurability(e, lv) == 100 + 50 * lv
  {
    assert 100 * (2 + lv) == 2 * (100 + 50 * lv);
  }

  function Coords(tiles: seq<Tile>): (cs: seq<Coord>)
    ensures |cs| == |tiles|
  {
    seq(|tiles|, i requires 0 <= i < |tiles| => (tiles[i].q, tiles[i].r))
  }

  lemma CoordsAppend(tiles: seq<Tile>, t: Tile)
    ensures Coords(tiles + [t]) == Coords(tiles) + [(t.q, t.r)]
  {
  }

  lemma IndexMapAppend(cs: seq<Coord>, c: Coord)
    ensures IndexMap(cs + [c]) == IndexMap(cs)[c := |cs|]
  {
    assert (cs + [c])[..|cs|] == cs;
  }

  /** Two tile lists with the same ids, coordinates and terrain in the same order (statuses may differ). */
  predicate SameLayout(a: seq<Tile>, b: seq<Tile>) {
    |a| == |b| &&
    forall i :: 0 <= i < |a| ==> a[i].id == b[i].id && a[i].q == b[i].q && a[i].r == b[i].r && a[i].terrain == b[i].terrain
  }

  lemma SameLayoutCoords(a: seq<Tile>, b: seq<Tile>)
    requires SameLayout(a, b)
    ensures Coords(a) == Coords(b)
  {
  }

  /** Python's `status not in ("locked", "buyable")`: the tile has been bought. */
  predicate Owned(s: Status) { s.Empty? || s.Occupied? }

  predicate IdsInRange(tiles: seq<Tile>, ids: map<Coord, int>) {
    forall c :: c in ids ==> 0 <= ids[c] < |tiles|
  }

  function Neighbour(t: Tile, d: nat): Coord
    requires d < 6
  {
    Add((t.q, t.r), Directions[d])
  }

  /** The neighbour of t in direction d is on the map and has been bought. */
  predicate NeighbourOwned(tiles: seq<Tile>, ids: map<Coord, int>, t: Tile, d: nat)
    requires IdsInRange(tiles, ids) && d < 6
  {
    Neighbour(t, d) in ids && Owned(tiles[ids[Neighbour(t, d)]].status)
  }

  /** Tile i is locked and has at least one bought neighbour on the map. */
  predicate Unlockable(tiles: seq<Tile>, ids: map<Coord, int>, i: nat)
    requires IdsInRange(tiles, ids) && i < |tiles|
  {
    tiles[i].status.Locked? && exists d :: 0 <= d < 6 && NeighbourOwned(tiles, ids, tiles[i], d)
  }

  /**
    What `update_locked_tiles` does to the tile list: every unlockable tile,
    judged on the statuses before the call, becomes buyable. Only statuses
    change, and only from locked to buyable.
  */
  function UnlockStep(tiles: seq<Tile>, ids: map<Coord, int>): (after: seq<Tile>)
    requires IdsInRange(tiles, ids)
    ensures SameLayout(after, tiles)
    ensures forall i :: 0 <= i < |tiles| ==>
              after[i] == tiles[i] || (tiles[i].status.Locked? && after[i] == tiles[i].(status := Buyable))
    ensures forall i :: 0 <= i < |tiles| ==> (after[i] != tiles[i] <==> Unlockable(tiles, ids, i))
  {
    seq(|tiles|, i requires 0 <= i < |tiles| =>
      if Unlockable(tiles, ids, i) then tiles[i].(status := Buyable) else tiles[i])
  }

  /** Unlocking twice is unlocking once: a tile left locked had no bought neighbour, and unlocking buys nothing. */
  lemma {:induction false} UnlockIdempotent(tiles: seq<Tile>, ids: map<Coord, int>)
    requires IdsInRange(tiles, ids)
    ensures UnlockStep(UnlockStep(tiles, ids), ids) == UnlockStep(tiles, ids)
  {
    var once := UnlockStep(tiles, ids);
    assert IdsInRange(once, ids);
    forall i | 0 <= i < |once|
      ensures !Unlockable(once, ids, i)
    {
      if once[i].status.Locked? {
        assert once[i] == tiles[i];
        forall d | 0 <= d < 6
          ensures !NeighbourOwned(once, ids, once[i], d)
        {
          assert !NeighbourOwned(tiles, ids, tiles[i], d);
          var c := Neighbour(tiles[i], d);
          if c in ids {
            assert Owned(once[ids[c]].status) == Owned(tiles[ids[c]].status);
          }
        }
      }
    }
    var twice := UnlockStep(once, ids);
    assert forall i :: 0 <= i < |once| ==> twice[i] == once[i];
  }

  /** Every building standing on a tile is a kind the catalog knows. */
  predicate BuildingsKnown(tiles: seq<Tile>, cat: map<string, CatalogEntry>) {
    forall i :: 0 <= i < |tiles| && tiles[i].status.Occupied? ==> tiles[i].status.building.name in cat
  }

  predicate NoBuildings(tiles: seq<Tile>) {
    forall i :: 0 <= i < |tiles| ==> !tiles[i].status.Occupied?
  }

  /** round(E_prod * (1 + lv / 2)) for a building tile, nothing for the others. */
  function Gain(t: Tile, cat: map<string, CatalogEntry>): int
    requires t.status.Occupied? ==> t.status.building.name in cat
  {
    if t.status.Occupied? then RoundHalf(cat[t.status.building.name].eProd * (2 + t.status.building.lv)) else 0
  }

  /** env_use_cost * (1 + lv / 5) for a building tile, nothing for the others. */
  function Usage(t: Tile, cat: map<string, CatalogEntry>): real
    requires t.status.Occupied? ==> t.status.building.name in cat
  {
    if t.status.Occupied? then cat[t.status.building.name].envUseCost * (1.0 + t.status.building.lv as real / 5.0)
    else 0.0
  }

  /** The energy one tick of `money_env_update` adds, summed over the tiles in order. */
  function Production(tiles: seq<Tile>, cat: map<string, CatalogEntry>): int
    requires BuildingsKnown(tiles, cat)
  {
    if tiles == [] then 0 else Production(tiles[..|tiles| - 1], cat) + Gain(tiles[|tiles| - 1], cat)
  }

  /** The environment cost one tick adds, summed over the tiles in order. */
  function EnvUse(tiles: seq<Tile>, cat: map<string, CatalogEntry>): real
    requires BuildingsKnown(tiles, cat)
  {
    if tiles == [] then 0.0 else EnvUse(tiles[..|tiles| - 1], cat) + Usage(tiles[|tiles| - 1], cat)
  }

  lemma ProductionStep(tiles: seq<Tile>, cat: map<string, CatalogEntry>, i: nat)
    requires BuildingsKnown(tiles, cat) && i < |tiles|
    ensures BuildingsKnown(tiles[..i], cat) && BuildingsKnown(tiles[..i + 1], cat)
    ensures Production(tiles[..i + 1], cat) == Production(tiles[..i], cat) + Gain(tiles[i], cat)
    ensures EnvUse(tiles[..i + 1], cat) == EnvUse(tiles[..i], cat) + Usage(tiles[i], cat)
  {
    assert tiles[..i + 1][..i] == tiles[..i];
  }

  /** With non-negative production rates a tick never takes energy away. */
  lemma {:induction false} ProductionNonNegative(tiles: seq<Tile>, cat: map<string, CatalogEntry>)
    requires BuildingsKnown(tiles, cat)
    requires forall name :: name in cat ==> cat[name].eProd >= 0
    ensures Production(tiles, cat) >= 0
  {
    if tiles != [] {
      ProductionNonNegative(tiles[..|tiles| - 1], cat);
    }
  }

  /** A map without buildings produces nothing and costs the environment nothing. */
  lemma {:induction false} NoBuildingsNoProduction(tiles: seq<Tile>, cat: map<string, CatalogEntry>)
    requires NoBuildings(tiles)
    ensures BuildingsKnown(tiles, cat)
    ensures Production(tiles, cat) == 0 && EnvUse(tiles, cat) == 0.0
  {
    if tiles != [] {
      NoBuildingsNoProduction(tiles[..|tiles| - 1], cat);
    }
  }

  /** Upgrading never lowers what a building produces per tick. */
  lemma UpgradeKeepsGain(t: Tile, cat: map<string, CatalogEntry>)
    requires t.status.Occupied? && t.status.building.name in cat
    requires cat[t.status.building.name].eProd >= 0
    ensures var b := t.status.building;
            Gain(t, cat) <= Gain(t.(status := Occupied(b.(lv := b.lv + 1))), cat)
  {
    var b := t.status.building;
    var e := cat[b.name].eProd;
    assert e * (2 + b.lv) <= e * (2 + b.lv + 1);
    RoundHalfMonotone(e * (2 + b.lv), e * (2 + b.lv + 1));
  }

  /** Where every tile sits, for a map of n rings: in spiral order, each tile's id its list index. */
  predicate Layout(tiles: seq<Tile>, n: nat) {
    Coords(tiles) == Spiral(n) && forall i :: 0 <= i < |tiles| ==> tiles[i].id == i
  }

  /** The tiles `init_tiles` creates: terrain drawn per tile, the centre buyable and every other tile locked. */
  predicate Fresh(tiles: seq<Tile>, terrainOf: int -> Terrain) {
    forall i :: 0 <= i < |tiles| ==>
      tiles[i].id == i && tiles[i].terrain == terrainOf(i) &&
      tiles[i].status == (if i == 0 then Buyable else Locked)
  }

  /** The state `init_tiles` keeps while it appends: the tiles so far lie at cs, and the dictionary is built from cs. */
  predicate Built(tiles: seq<Tile>, coordToId: map<Coord, int>, terrainOf: int -> Terrain, cs: seq<Coord>) {
    |tiles| >= 1 && Coords(tiles) == cs && Fresh(tiles, terrainOf) && coordToId == IndexMap(cs)
  }

  /** Appending a freshly created locked tile at (q, r), and recording it in the dictionary, extends cs by (q, r). */
  lemma AppendLocked(tiles: seq<Tile>, coordToId: map<Coord, int>, terrainOf: int -> Terrain, cs: seq<Coord>, q: int, r: int)
    requires Built(tiles, coordToId, terrainOf, cs)
    ensures Built(tiles + [Tile(|tiles|, q, r, terrainOf(|tiles|), Locked)], coordToId[(q, r) := |tiles|],
                  terrainOf, cs + [(q, r)])
  {
    var t := Tile(|tiles|, q, r, terrainOf(|tiles|), Locked);
    CoordsAppend(tiles, t);
    IndexMapAppend(Coords(tiles), (q, r));
  }

  lemma SidePrefixStep(start: seq<Coord>, k: nat, d: nat, step: nat)
    requires d < 6 && step < k
    ensures start + Side(k, d)[..step] + [Cell(k, d, step)] == start + Side(k, d)[..step + 1]
  {
    assert Side(k, d)[..step + 1] == Side(k, d)[..step] + [Cell(k, d, step)];
  }

  lemma SideDone(k: nat, d: nat)
    requires 1 <= k && d < 6
    ensures Spiral(k - 1) + RingPrefix(k, d) + Side(k, d) == Spiral(k - 1) + RingPrefix(k, d + 1)
    ensures d == 5 ==> Spiral(k - 1) + RingPrefix(k, d + 1) == Spiral(k)
  {
  }

  /**
    The map `init_tiles` builds for n rings: 1 + 3n(n+1) fresh tiles in spiral
    order, the centre first, all coordinates distinct and each tile inside
    its own ring's block of ids, with the dictionary mapping every tile's
    coordinates to its id and nothing else.
  */
  predicate InitialMap(tiles: seq<Tile>, coordToId: map<Coord, int>, n: nat, terrainOf: int -> Terrain) {
    && Fresh(tiles, terrainOf) && Layout(tiles, n)
    && |tiles| == 1 + 3 * n * (n + 1)
    && tiles[0].q == 0 && tiles[0].r == 0
    && Distinct(Coords(tiles))
    && (forall i :: 0 <= i < |tiles| ==> Distance((tiles[i].q, tiles[i].r)) <= n)
    && (forall i :: 0 <= i < |tiles| ==>
          RingStart(Distance((tiles[i].q, tiles[i].r))) <= i < RingStart(Distance((tiles[i].q, tiles[i].r)) + 1))
    && coordToId == IndexMap(Coords(tiles))
    && (forall i :: 0 <= i < |tiles| ==> (tiles[i].q, tiles[i].r) in coordToId && coordToId[(tiles[i].q, tiles[i].r)] == i)
    && (forall c :: c in coordToId ==> 0 <= coordToId[c] < |tiles| && (tiles[coordToId[c]].q, tiles[coordToId[c]].r) == c)
  }

  /** A tile list built as the spiral of n rings is the initial map, read off the spiral's facts. */
  lemma SpiralTiles(tiles: seq<Tile>, coordToId: map<Coord, int>, n: nat, terrainOf: int -> Terrain)
    requires Built(tiles, coordToId, terrainOf, Spiral(n))
    ensures InitialMap(tiles, coordToId, n, terrainOf)
  {
    SpiralFacts(n);
    var cs := Coords(tiles);
    forall i | 0 <= i < |tiles|
      ensures Distance((tiles[i].q, tiles[i].r)) <= n
      ensures RingStart(Distance((tiles[i].q, tiles[i].r))) <= i < RingStart(Distance((tiles[i].q, tiles[i].r)) + 1)
    {
      assert (tiles[i].q, tiles[i].r) == cs[i] == Spiral(n)[i];
    }
    assert forall i :: 0 <= i < |tiles| ==> cs[i] == (tiles[i].q, tiles[i].r);
    IndexMapSound(cs);
    IndexMapInverts(cs);
  }

  class Player {
    var energy: int
    var envBar: real
    var tiles: seq<Tile>
    var coordToId: map<Coord, int>
    var tilePrice: int
    var nbBoughtTiles: nat
    var buildingPref: map<string, seq<string>>
    var buildings: map<string, CatalogEntry>
    /** round(E_buy_cost * (lv + 1) ** 1.5), taken as a given function of the current level. */
    const upgradePrice: nat -> nat
    ghost const rings: nat

    ghost function State(): PlayerState
      reads this
    {
      PlayerState(energy, envBar, tiles, coordToId, tilePrice, nbBoughtTiles, buildingPref, buildings)
    }

    /**
      The invariant every operation keeps: the map keeps the layout it was
      built with, the dictionary inverts it, every catalog entry keeps the
      shipped economics (only the counters move), and every building
      standing on the map is a kind of the catalog.
    */
    ghost predicate Valid()
      reads this`tiles, this`coordToId, this`buildings
    {
      && Layout(tiles, rings)
      && coordToId == IndexMap(Coords(tiles))
      && IdsInRange(tiles, coordToId)
      && (forall name :: name in buildings ==> buildings[name].(nb := 0) == Standard)
      && BuildingsKnown(tiles, buildings)
    }

    /**
      The innermost loop of `init_tiles`: `radius` steps along side d of ring
      `radius`, appending a locked tile and recording its id at each cell.
    */
    static method AppendSide(tiles0: seq<Tile>, coordToId0: map<Coord, int>, tileId0: int, q0: int, r0: int,
                             radius: nat, d: nat, terrainOf: int -> Terrain, ghost before: seq<Coord>)
      returns (tiles: seq<Tile>, coordToId: map<Coord, int>, tileId: int, q: int, r: int)
      requires 1 <= radius && d < 6 && tileId0 == |tiles0| && (q0, r0) == Cell(radius, d, 0)
      requires Built(tiles0, coordToId0, terrainOf, before)
      ensures tileId == |tiles| && (q, r) == Cell(radius, d, radius)
      ensures Built(tiles, coordToId, terrainOf, before + Side(radius, d))
    {
      tiles, coordToId, tileId, q, r := tiles0, coordToId0, tileId0, q0, r0;
      var dq, dr := Directions[d].0, Directions[d].1;
      for step := 0 to radius
        invariant tileId == |tiles|
        invariant q == Cell(radius, d, step).0 && r == Cell(radius, d, step).1
        invariant Built(tiles, coordToId, terrainOf, before + Side(radius, d)[..step])
      {
        AppendLocked(tiles, coordToId, terrainOf, before + Side(radius, d)[..step], q, r);
        SidePrefixStep(before, radius, d, step);
        tiles := tiles + [Tile(tileId, q, r, terrainOf(tileId), Locked)];
        coordToId := coordToId[(q, r) := tileId];
        tileId := tileId + 1;
        CellStep(radius, d, step, q, r);
        q, r := q + dq, r + dr;
      }
      assert Side(radius, d)[..radius] == Side(radius, d);
    }

    /** The body of the outer loop of `init_tiles`: ring `radius`, walked from (-radius, radius) in the six directions. */
    static method AppendRing(tiles0: seq<Tile>, coordToId0: map<Coord, int>, tileId0: int,
                             radius: nat, terrainOf: int -> Terrain)
      returns (tiles: seq<Tile>, coordToId: map<Coord, int>, tileId: int)
      requires 1 <= radius && tileId0 == |tiles0|
      requires Built(tiles0, coordToId0, terrainOf, Spiral(radius - 1))
      ensures tileId == |tiles|
      ensures Built(tiles, coordToId, terrainOf, Spiral(radius))
    {
      tiles, coordToId, tileId := tiles0, coordToId0, tileId0;
      var q, r := -(radius as int), radius as int;
      for d := 0 to 6
        invariant tileId == |tiles|
        invariant d < 6 ==> (q, r) == Cell(radius, d, 0)
        invariant Built(tiles, coordToId, terrainOf, Spiral(radius - 1) + RingPrefix(radius, d))
      {
        tiles, coordToId, tileId, q, r :=
          AppendSide(tiles, coordToId, tileId, q, r, radius, d, terrainOf, Spiral(radius - 1) + RingPrefix(radius, d));
        SideDone(radius, d);
        if d < 5 {
          CellCorner(radius, d);
        }
      }
    }

    /**
      `init_tiles`: the centre, then ring after ring, each ring walked from
      (-radius, radius) in the six directions, radius steps each.
    */
    static method InitTiles(nbRings: int, terrainOf: int -> Terrain) returns (tiles: seq<Tile>, coordToId: map<Coord, int>)
      ensures InitialMap(tiles, coordToId, Rings(nbRings), terrainOf)
    {
      var n := Rings(nbRings);
      tiles := [Tile(0, 0, 0, terrainOf(0), Buyable)];
      coordToId := map[(0, 0) := 0];
      var tileId := 1;
      assert Built(tiles, coordToId, terrainOf, Spiral(0)) by {
        assert Coords(tiles) == Spiral(0);
        assert IndexMap(Spiral(0)) == map[(0, 0) := 0] by {
          assert Spiral(0)[..0] == [];
        }
      }
      for radius := 1 to n + 1
        invariant tileId == |tiles|
        invariant Built(tiles, coordToId, terrainOf, Spiral(radius - 1))
      {
        tiles, coordToId, tileId := AppendRing(tiles, coordToId, tileId, radius, terrainOf);
      }
      SpiralTiles(tiles, coordToId, n, terrainOf);
    }

    constructor (energy: int, envBar: real, tilePrice: int, nbRings: int,
                 terrainOf: int -> Terrain, upgradePrice: nat -> nat)
      ensures Valid()
      ensures InitialMap(tiles, coordToId, Rings(nbRings), terrainOf)
      ensures this.energy == energy && this.envBar == envBar && this.tilePrice == tilePrice
      ensures nbBoughtTiles == 0 && buildings == Catalog && buildingPref == Preferences
      ensures this.upgradePrice == upgradePrice
    {
      this.energy := energy;
      this.envBar := envBar;
      var t, ids := InitTiles(nbRings, terrainOf);
      tiles, coordToId := t, ids;
      rings := Rings(nbRings);
      this.tilePrice := tilePrice;
      nbBoughtTiles := 0;
      buildingPref := Preferences;
      buildings := Catalog;
      this.upgradePrice := upgradePrice;
    }

    /** `get_tile`: the tile with the given id, or None outside the map (no negative indexing here). */
    function GetTile(tileId: int): (t: Option<Tile>)
      reads this
      ensures t.Some? <==> 0 <= tileId < |tiles|
      ensures t.Some? ==> t.value == tiles[tileId]
      ensures Valid() && t.Some? ==> t.value.id == tileId
    {
      if 0 <= tileId < |tiles| then Some(tiles[tileId]) else None
    }

    /** `update_locked_tiles`: collect the unlockable tiles first, then make them buyable. */
    method UpdateLockedTiles()
      requires Valid()
      modifies this`tiles
      ensures Valid()
      ensures State() == old(State()).(tiles := UnlockStep(old(tiles), coordToId))
    {
      var toUnlock: seq<nat> := [];
      var ts, ids := tiles, coordToId;
      for i := 0 to |ts|
        invariant forall j :: j in toUnlock <==> 0 <= j < i && Unlockable(ts, ids, j)
      {
        var tile := ts[i];
        if !tile.status.Locked? {
          continue;
        }
        for d := 0 to 6
          invariant forall e :: 0 <= e < d ==> !NeighbourOwned(ts, ids, tile, e)
          invariant forall j :: j in toUnlock <==> 0 <= j < i && Unlockable(ts, ids, j)
        {
          var coord := Add((tile.q, tile.r), Directions[d]);
          if coord !in ids {
            continue;
          }
          var neighbour := ts[ids[coord]];
          if Owned(neighbour.status) {
            assert NeighbourOwned(ts, ids, tile, d);
            toUnlock := toUnlock + [i];
            break;
          }
        }
      }
      ghost var before := tiles;
      ghost var applied: set<nat> := {};
      for p := 0 to |toUnlock|
        invariant |tiles| == |before|
        invariant forall j :: j in applied <==> exists m :: 0 <= m < p && toUnlock[m] == j
        invariant forall j :: 0 <= j < |tiles| ==>
                    tiles[j] == if j in applied then before[j].(status := Buyable) else before[j]
      {
        assert toUnlock[p] in toUnlock;
        tiles := tiles[toUnlock[p] := tiles[toUnlock[p]].(status := Buyable)];
        applied := applied + {toUnlock[p]};
      }
      assert forall j :: j in applied <==> j in toUnlock;
      assert tiles == UnlockStep(before, coordToId);
      SameLayoutCoords(tiles, before);
    }

    /**
      `buy_tile`: the price is tile_price times the tiles bought so far (the
      first tile is free) and must be strictly below the energy. The tile's
      current status is not checked. An id outside the list raises IndexError
      after the energy and the counter have already moved.
    */
    method BuyTile(id: int) returns (outcome: Outcome)
      requires Valid()
      modifies this
      ensures Valid()
      ensures var price := old(tilePrice * nbBoughtTiles);
              var paid := old(State()).(energy := old(energy) - price, nbBoughtTiles := old(nbBoughtTiles) + 1);
              if old(energy) > price then
                if PyIndex(id, |old(tiles)|).None? then outcome == IndexError && State() == paid
                else
                  var i := PyIndex(id, |old(tiles)|).value;
                  outcome == Completed &&
                  State() == paid.(tiles := UnlockStep(old(tiles)[i := old(tiles)[i].(status := Empty)], coordToId))
              else outcome == Completed && State() == old(State())
      ensures old(energy) >= 0 ==> energy >= 0
    {
      var price := tilePrice * nbBoughtTiles;
      outcome := Completed;
      if energy > price {
        energy := energy - price;
        nbBoughtTiles := nbBoughtTiles + 1;
        var i := PyIndex(id, |tiles|);
        if i.None? {
          return IndexError;
        }
        SameLayoutCoords(tiles[i.value := tiles[i.value].(status := Empty)], tiles);
        tiles := tiles[i.value := tiles[i.value].(status := Empty)];
        UpdateLockedTiles();
      }
    }

    /**
      `buy_building`: the price is round(E_buy_cost * (1 + nb / 2)) and may
      equal the energy. On purchase the kind's counter grows, the environment
      bar takes the build cost and the tile holds a new level-0 building with
      the kind's base durability. The tile's current status is not checked.
      An unknown kind raises KeyError before anything changes; an id outside
      the list raises IndexError after everything but the tile has changed.
    */
    method BuyBuilding(tileId: int, name: string) returns (outcome: Outcome)
      requires Valid()
      modifies this
      ensures Valid()
      ensures name !in old(buildings) ==> outcome == KeyError && State() == old(State())
      ensures name in old(buildings) ==>
                var base := old(buildings)[name];
                var price := BuildPrice(base);
                var paid := old(State()).(energy := old(energy) - price, envBar := old(envBar) + base.envBuildCost,
                                          buildings := old(buildings)[name := base.(nb := base.nb + 1)]);
                price == 100 + 50 * base.nb &&
                if old(energy) >= price then
                  if PyIndex(tileId, |old(tiles)|).None? then outcome == IndexError && State() == paid
                  else
                    var i := PyIndex(tileId, |old(tiles)|).value;
                    outcome == Completed &&
                    State() == paid.(tiles := old(tiles)[i := old(tiles)[i].(status := Occupied(Building(name, 0, base.durability)))])
                else outcome == Completed && State() == old(State())
      ensures old(energy) >= 0 ==> energy >= 0
    {
      if name !in buildings {
        return KeyError;
      }
      var base := buildings[name];
      ShippedBuildPrice(base);
      var buildPrice := BuildPrice(base);
      outcome := Completed;
      if energy >= buildPrice {
        energy := energy - buildPrice;
        envBar := envBar + base.envBuildCost;
        buildings := buildings[name := base.(nb := base.nb + 1)];
        var i := PyIndex(tileId, |tiles|);
        if i.None? {
          return IndexError;
        }
        var after := tiles[i.value := tiles[i.value].(status := Occupied(Building(name, 0, base.durability)))];
        SameLayoutCoords(after, tiles);
        tiles := after;
      }
    }

    /**
      `upgrade_building`: nothing happens for an id outside 0 <= id < len or a
      tile without a building. Otherwise, if the energy covers the upgrade
      price, the level goes up by one, the durability is recomputed for the
      new level (100 + 50 * lv with the shipped catalog), the energy pays and
      the environment bar takes env_use_cost * lv.
    */
    method UpgradeBuilding(tileId: int)
      requires Valid()
      modifies this
      ensures Valid()
      ensures old(GetTile(tileId)).None? || !old(GetTile(tileId)).value.status.Occupied? ==> State() == old(State())
      ensures old(GetTile(tileId)).Some? && old(GetTile(tileId)).value.status.Occupied? ==>
                var b := old(tiles[tileId]).status.building;
                var base := old(buildings)[b.name];
                var price := upgradePrice(b.lv);
                var upgraded := b.(lv := b.lv + 1, durability := LevelDurability(base, b.lv + 1));
                upgraded.durability == 100 + 50 * upgraded.lv &&
                if old(energy) >= price then
                  State() == old(State()).(energy := old(energy) - price,
                                           envBar := old(envBar) + base.envUseCost * (b.lv + 1) as real,
                                           tiles := old(tiles)[tileId := old(tiles[tileId]).(status := Occupied(upgraded))])
                else State() == old(State())
      ensures old(energy) >= 0 ==> energy >= 0
    {
      var tile := GetTile(tileId);
      if tile.None? || !tile.value.status.Occupied? {
        return;
      }
      var building := tile.value.status.building;
      var base := buildings[building.name];
      ShippedDurability(base, building.lv + 1);
      var price := upgradePrice(building.lv);
      if energy >= price {
        energy := energy - price;
        var lv := building.lv + 1;
        building := building.(lv := lv, durability := LevelDurability(base, lv));
        var after := tiles[tileId := tile.value.(status := Occupied(building))];
        SameLayoutCoords(after, tiles);
        tiles := after;
        envBar := envBar + base.envUseCost * lv as real;
      }
    }

    /**
      `money_env_update`: every building adds its production to the energy and
      its usage to the environment bar. Tiles and catalog are untouched, the
      energy never goes down, and without buildings nothing changes.
    */
    method MoneyEnvUpdate()
      requires Valid()
      modifies this`energy, this`envBar
      ensures Valid()
      ensures State() == old(State()).(energy := old(energy) + Production(tiles, buildings),
                                       envBar := old(envBar) + EnvUse(tiles, buildings))
      ensures energy >= old(energy)
      ensures NoBuildings(tiles) ==> energy == old(energy) && envBar == old(envBar)
    {
      ghost var e0, v0 := energy, envBar;
      var ts, cat := tiles, buildings;
      for i := 0 to |ts|
        invariant energy == e0 + Production(ts[..i], cat)
        invariant envBar == v0 + EnvUse(ts[..i], cat)
      {
        ProductionStep(ts, cat, i);
        var tile := ts[i];
        if tile.status.Occupied? {
          var b := tile.status.building;
          var base := cat[b.name];
          var energyGain := RoundHalf(base.eProd * (2 + b.lv));
          energy := energy + energyGain;
          var envCost := base.envUseCost * (1.0 + b.lv as real / 5.0);
          envBar := envBar + envCost;
        }
      }
      assert ts[..|ts|] == ts;
      ProductionNonNegative(tiles, buildings);
      if NoBuildings(tiles) {
        NoBuildingsNoProduction(tiles, buildings);
      }
    }
  }
}
