/**
 * The road information gathered for one overmap tile: which of the four
 * neighbouring tiles a road leaves towards, and the overmap terrain the
 * four flags select, read through a 4-bit mask.
 */
module OvermapRoads {
  import opened Wrappers
  import opened Terrain

  /**
   * `OvermapRoad`: the four direction flags. A fresh road info has all four
   * cleared.
   */
  datatype OvermapRoad = OvermapRoad(hasNorth: bool, hasSouth: bool, hasEast: bool, hasWest: bool)

  const NO_DIRECTIONS := OvermapRoad(false, false, false, false)

  /** `GetHash`: north is bit 0, south bit 1, east bit 2 and west bit 3. */
  function GetHash(r: OvermapRoad): (h: int)
    ensures 0 <= h <= 15
    ensures h == 0 <==> r == NO_DIRECTIONS
  {
    (if r.hasNorth then 1 else 0)
    + (if r.hasSouth then 2 else 0)
    + (if r.hasEast then 4 else 0)
    + (if r.hasWest then 8 else 0)
  }

  /** The flags a mask in `[0, 15]` stands for. */
  function FlagsOfHash(h: int): OvermapRoad
  {
    OvermapRoad(h % 2 == 1, (h / 2) % 2 == 1, (h / 4) % 2 == 1, (h / 8) % 2 == 1)
  }

  /** The mask and the four flags determine each other. */
  lemma HashRoundTrip(r: OvermapRoad, h: int)
    requires 0 <= h <= 15
    ensures FlagsOfHash(GetHash(r)) == r
    ensures GetHash(FlagsOfHash(h)) == h
  {
  }

  /** The mask bits of the four directions, as `GetHash` weighs them. */
  const NORTH := 1
  const SOUTH := 2
  const EAST := 4
  const WEST := 8

  /** The mask a road variant's name spells out; 0 for every other terrain. */
  function RoadNameMask(t: OvermapTerrainType): int
  {
    match t
    case RoadNorth => NORTH
    case RoadSouth => SOUTH
    case RoadNorthSouth => NORTH + SOUTH
    case RoadEast => EAST
    case RoadNorthEast => NORTH + EAST
    case RoadEastSouth => EAST + SOUTH
    case RoadNorthEastSouth => NORTH + EAST + SOUTH
    case RoadWest => WEST
    case RoadWestNorth => WEST + NORTH
    case RoadSouthWest => SOUTH + WEST
    case RoadNorthSouthWest => NORTH + SOUTH + WEST
    case RoadEastWest => EAST + WEST
    case RoadNorthEastWest => NORTH + EAST + WEST
    case RoadEastSouthWest => EAST + SOUTH + WEST
    case RoadNorthEastSouthWest => NORTH + EAST + SOUTH + WEST
    case _ => 0
  }

  /** The mask a forest-trail variant's name spells out; 0 for every other terrain. */
  function ForestTrailNameMask(t: OvermapTerrainType): int
  {
    match t
    case ForestTrailNorth => NORTH
    case ForestTrailSouth => SOUTH
    case ForestTrailNorthSouth => NORTH + SOUTH
    case ForestTrailEast => EAST
    case ForestTrailNorthEast => NORTH + EAST
    case ForestTrailEastSouth => EAST + SOUTH
    case ForestTrailNorthEastSouth => NORTH + EAST + SOUTH
    case ForestTrailWest => WEST
    case ForestTrailWestNorth => WEST + NORTH
    case ForestTrailSouthWest => SOUTH + WEST
    case ForestTrailNorthSouthWest => NORTH + SOUTH + WEST
    case ForestTrailEastWest => EAST + WEST
    case ForestTrailNorthEastWest => NORTH + EAST + WEST
    case ForestTrailEastSouthWest => EAST + SOUTH + WEST
    case ForestTrailNorthEastSouthWest => NORTH + EAST + SOUTH + WEST
    case _ => 0
  }

  /** The road column of the mask table; only masks 1 to 15 have an entry. */
  function RoadOfMask(h: int): (t: Option<OvermapTerrainType>)
    ensures t.None? <==> !(1 <= h <= 15)
  {
    match h
    case 0 => None
    case 1 => Some(RoadNorth)
    case 2 => Some(RoadSouth)
    case 3 => Some(RoadNorthSouth)
    case 4 => Some(RoadEast)
    case 5 => Some(RoadNorthEast)
    case 6 => Some(RoadEastSouth)
    case 7 => Some(RoadNorthEastSouth)
    case 8 => Some(RoadWest)
    case 9 => Some(RoadWestNorth)
    case 10 => Some(RoadSouthWest)
    case 11 => Some(RoadNorthSouthWest)
    case 12 => Some(RoadEastWest)
    case 13 => Some(RoadNorthEastWest)
    case 14 => Some(RoadEastSouthWest)
    case 15 => Some(RoadNorthEastSouthWest)
    case _ => None
  }

  /**
   * `GetOvermapRoadTerrainType`: the road variant for the mask; mask 0 gives
   * no terrain, which leaves the overmap cell as it is.
   */
  function GetOvermapRoadTerrainType(r: OvermapRoad): (t: Option<OvermapTerrainType>)
    ensures t.None? <==> r == NO_DIRECTIONS
  {
    RoadOfMask(GetHash(r))
  }

  /** The forest-trail column of the mask table. */
  function ForestTrailOfMask(h: int): (t: Option<OvermapTerrainType>)
    ensures t.None? <==> !(1 <= h <= 15)
  {
    match h
    case 0 => None
    case 1 => Some(ForestTrailNorth)
    case 2 => Some(ForestTrailSouth)
    case 3 => Some(ForestTrailNorthSouth)
    case 4 => Some(ForestTrailEast)
    case 5 => Some(ForestTrailNorthEast)
    case 6 => Some(ForestTrailEastSouth)
    case 7 => Some(ForestTrailNorthEastSouth)
    case 8 => Some(ForestTrailWest)
    case 9 => Some(ForestTrailWestNorth)
    case 10 => Some(ForestTrailSouthWest)
    case 11 => Some(ForestTrailNorthSouthWest)
    case 12 => Some(ForestTrailEastWest)
    case 13 => Some(ForestTrailNorthEastWest)
    case 14 => Some(ForestTrailEastSouthWest)
    case 15 => Some(ForestTrailNorthEastSouthWest)
    case _ => None
  }

  /** `GetOvermapForestTrailTerrainType`: the same lookup over the forest-trail variants. */
  function GetOvermapForestTrailTerrainType(r: OvermapRoad): (t: Option<OvermapTerrainType>)
    ensures t.None? <==> r == NO_DIRECTIONS
  {
    ForestTrailOfMask(GetHash(r))
  }

  /**
   * For masks 1 to 15 each table answers a road (a forest trail) whose name
   * spells exactly the directions that are set.
   */
  lemma TablesNameTheDirections(r: OvermapRoad)
    ensures GetOvermapRoadTerrainType(r).Some? ==>
      var t := GetOvermapRoadTerrainType(r).value; IsRoadTerrain(t) && FlagsOfHash(RoadNameMask(t)) == r
    ensures GetOvermapForestTrailTerrainType(r).Some? ==>
      var t := GetOvermapForestTrailTerrainType(r).value;
      IsForestTrailTerrain(t) && FlagsOfHash(ForestTrailNameMask(t)) == r
  {
    HashRoundTrip(r, 0);
    MaskTablesNameTheDirections(GetHash(r));
  }

  /** The two tables, entry by entry: the name of the entry at mask `h` spells `h`. */
  lemma MaskTablesNameTheDirections(h: int)
    requires 0 <= h <= 15
    ensures RoadOfMask(h).Some? ==> IsRoadTerrain(RoadOfMask(h).value) && RoadNameMask(RoadOfMask(h).value) == h
    ensures ForestTrailOfMask(h).Some? ==>
      IsForestTrailTerrain(ForestTrailOfMask(h).value) && ForestTrailNameMask(ForestTrailOfMask(h).value) == h
  {
    RoadEntriesSpellTheirMask(h);
    ForestTrailEntriesSpellTheirMask(h);
  }

  lemma RoadEntriesSpellTheirMask(h: int)
    requires 0 <= h <= 15
    ensures RoadOfMask(h).Some? ==> IsRoadTerrain(RoadOfMask(h).value) && RoadNameMask(RoadOfMask(h).value) == h
  {
  }

  lemma ForestTrailEntriesSpellTheirMask(h: int)
    requires 0 <= h <= 15
    ensures ForestTrailOfMask(h).Some? ==>
      IsForestTrailTerrain(ForestTrailOfMask(h).value) && ForestTrailNameMask(ForestTrailOfMask(h).value) == h
  {
  }

  /**
   * Every road and every forest-trail variant is its table's entry at the
   * mask its name spells.
   */
  lemma TablesAreOnto(t: OvermapTerrainType)
    ensures IsRoadTerrain(t) ==> RoadOfMask(RoadNameMask(t)) == Some(t)
    ensures IsForestTrailTerrain(t) ==> ForestTrailOfMask(ForestTrailNameMask(t)) == Some(t)
  {
  }

  /** The fifteen non-empty masks give fifteen different variants in each table. */
  lemma TablesAreInjective(r1: OvermapRoad, r2: OvermapRoad)
    ensures GetOvermapRoadTerrainType(r1) == GetOvermapRoadTerrainType(r2) ==> r1 == r2
    ensures GetOvermapForestTrailTerrainType(r1) == GetOvermapForestTrailTerrainType(r2) ==> r1 == r2
  {
    TablesNameTheDirections(r1);
    TablesNameTheDirections(r2);
    var a, b := GetOvermapRoadTerrainType(r1), GetOvermapRoadTerrainType(r2);
    if a == b && a.Some? {
      assert r1 == FlagsOfHash(RoadNameMask(a.value)) == r2;
    }
    var c, d := GetOvermapForestTrailTerrainType(r1), GetOvermapForestTrailTerrainType(r2);
    if c == d && c.Some? {
      assert r1 == FlagsOfHash(ForestTrailNameMask(c.value)) == r2;
    }
  }

  /** The forest-trail variant with the same directions as a road variant. */
  function TrailOfRoad(t: OvermapTerrainType): OvermapTerrainType
  {
    match t
    case RoadNorth => ForestTrailNorth
    case RoadSouth => ForestTrailSouth
    case RoadEast => ForestTrailEast
    case RoadWest => ForestTrailWest
    case RoadNorthSouth => ForestTrailNorthSouth
    case RoadNorthEast => ForestTrailNorthEast
    case RoadEastSouth => ForestTrailEastSouth
    case RoadWestNorth => ForestTrailWestNorth
    case RoadSouthWest => ForestTrailSouthWest
    case RoadEastWest => ForestTrailEastWest
    case RoadNorthEastSouth => ForestTrailNorthEastSouth
    case RoadNorthSouthWest => ForestTrailNorthSouthWest
    case RoadNorthEastWest => ForestTrailNorthEastWest
    case RoadEastSouthWest => ForestTrailEastSouthWest
    case RoadNorthEastSouthWest => ForestTrailNorthEastSouthWest
    case _ => t
  }

  /** The forest-trail table is the road table entry for entry, with each road renamed to its trail. */
  lemma ForestTrailMirrorsRoad(r: OvermapRoad)
    ensures GetOvermapForestTrailTerrainType(r) ==
      match GetOvermapRoadTerrainType(r)
      case None => None
      case Some(t) => Some(TrailOfRoad(t))
  {
  }

  /** Mask 9, north and west, is `RoadWestNorth`. */
  lemma MaskNineIsWestNorth()
    ensures GetHash(OvermapRoad(true, false, false, true)) == 9
    ensures GetOvermapRoadTerrainType(OvermapRoad(true, false, false, true)) == Some(RoadWestNorth)
    ensures GetOvermapForestTrailTerrainType(OvermapRoad(true, false, false, true)) == Some(ForestTrailWestNorth)
  {
  }
}
