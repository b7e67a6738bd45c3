/**
 * The classifications the generator works with: raster colours, the
 * terrain of a map tile and the terrain of an overmap tile.
 */
module Terrain {
  import opened Wrappers

  /** Terrain of one map tile. */
  datatype TerrainType =
    | Default | DeepMovWater | Pavement | Wall | HouseFloor
    | ConcreteFloor | DirtFloor | Grass | GrassLong | Sidewalk

  /** Terrain of one overmap tile. */
  datatype OvermapTerrainType =
    | Default | Water100Percent | Water
    | HouseDefault
    | RoadNorth | RoadSouth | RoadWest | RoadEast
    | RoadNorthEast | RoadNorthSouth | RoadSouthWest | RoadEastSouth | RoadEastWest | RoadWestNorth
    | RoadNorthEastSouth | RoadNorthEastWest | RoadNorthSouthWest | RoadEastSouthWest
    | RoadNorthEastSouthWest
    | ForestTrailNorth | ForestTrailSouth | ForestTrailWest | ForestTrailEast
    | ForestTrailNorthEast | ForestTrailNorthSouth | ForestTrailSouthWest | ForestTrailEastSouth
    | ForestTrailEastWest | ForestTrailWestNorth
    | ForestTrailNorthEastSouth | ForestTrailNorthEastWest | ForestTrailNorthSouthWest
    | ForestTrailEastSouthWest
    | ForestTrailNorthEastSouthWest

  /** The fifteen road variants of the overmap. */
  predicate IsRoadTerrain(t: OvermapTerrainType)
  {
    t.RoadNorth? || t.RoadSouth? || t.RoadWest? || t.RoadEast? || t.RoadNorthEast? ||
    t.RoadNorthSouth? || t.RoadSouthWest? || t.RoadEastSouth? || t.RoadEastWest? ||
    t.RoadWestNorth? || t.RoadNorthEastSouth? || t.RoadNorthEastWest? || t.RoadNorthSouthWest? ||
    t.RoadEastSouthWest? || t.RoadNorthEastSouthWest?
  }

  /** The fifteen forest-trail variants of the overmap. */
  predicate IsForestTrailTerrain(t: OvermapTerrainType)
  {
    t.ForestTrailNorth? || t.ForestTrailSouth? || t.ForestTrailWest? || t.ForestTrailEast? ||
    t.ForestTrailNorthEast? || t.ForestTrailNorthSouth? || t.ForestTrailSouthWest? ||
    t.ForestTrailEastSouth? || t.ForestTrailEastWest? || t.ForestTrailWestNorth? ||
    t.ForestTrailNorthEastSouth? || t.ForestTrailNorthEastWest? || t.ForestTrailNorthSouthWest? ||
    t.ForestTrailEastSouthWest? || t.ForestTrailNorthEastSouthWest?
  }

  /**
   * A raster colour. The named colours are those the generator paints or
   * recognises (`Color.White` is the empty background, `Color.Red` the
   * coastline border); every other colour is `OtherColor`.
   */
  datatype Color =
    | WhiteColor | RedColor
    | DeepWaterColor | PavementColor | SidewalkColor | DirtFloorColor | ConcreteFloorColor
    | FloorColor | WallColor | GrassColor | GrassLongColor
    | OtherColor(argb: int)

  /** `TERRAIN_TYPES_BY_COLOR.TryGetValue`: the colour key table of the raster. */
  function TerrainTypeByColor(c: Color): Option<TerrainType>
  {
    match c
    case DeepWaterColor => Some(TerrainType.DeepMovWater)
    case PavementColor => Some(TerrainType.Pavement)
    case SidewalkColor => Some(TerrainType.Sidewalk)
    case DirtFloorColor => Some(TerrainType.DirtFloor)
    case ConcreteFloorColor => Some(TerrainType.ConcreteFloor)
    case FloorColor => Some(TerrainType.HouseFloor)
    case WallColor => Some(TerrainType.Wall)
    case GrassColor => Some(TerrainType.Grass)
    case GrassLongColor => Some(TerrainType.GrassLong)
    case _ => None
  }

  /**
   * Every terrain type except `Default` has exactly one colour, and no two
   * colours share a terrain type: the table can be read backwards.
   */
  lemma TerrainColorsAreAKey(c1: Color, c2: Color)
    ensures TerrainTypeByColor(c1).Some? && TerrainTypeByColor(c1) == TerrainTypeByColor(c2) ==> c1 == c2
    ensures TerrainTypeByColor(c1) != Some(TerrainType.Default)
  {
  }
}
