/**
 * The raster-side generator: it owns the classified raster and the overmap
 * grid, sized to whole overmap tiles, and answers terrain lookups for the
 * save writer.
 */
module MapGen {
  import opened CddaMap
  import opened Terrain
  import opened TileCoords
  import opened Wrappers

  datatype Size = Size(width: int, height: int)

  /** The four orthogonal neighbour offsets, in the order the flood fill tries them. */
  const ADJACENT_COORDS: seq<Point> := [Point(1, 0), Point(-1, 0), Point(0, 1), Point(0, -1)]

  /** Orthogonal neighbours: one step along exactly one axis. */
  predicate Adjacent(p: Point, q: Point)
  {
    (p.x == q.x && (p.y - q.y == 1 || q.y - p.y == 1)) || (p.y == q.y && (p.x - q.x == 1 || q.x - p.x == 1))
  }

  /** The offsets are exactly the four unit steps, each once. */
  lemma AdjacentCoordsAreTheUnitSteps(p: Point, q: Point)
    ensures |ADJACENT_COORDS| == 4
    ensures forall i, j :: 0 <= i < j < 4 ==> ADJACENT_COORDS[i] != ADJACENT_COORDS[j]
    ensures Adjacent(p, q) <==> exists k :: 0 <= k < 4 && q == Point(p.x + ADJACENT_COORDS[k].x, p.y + ADJACENT_COORDS[k].y)
  {
    if Adjacent(p, q) {
      var k := if q.x == p.x + 1 then 0 else if q.x == p.x - 1 then 1 else if q.y == p.y + 1 then 2 else 3;
      assert q == Point(p.x + ADJACENT_COORDS[k].x, p.y + ADJACENT_COORDS[k].y);
    }
  }

  /**
   * The overmap grid size: the provider's map cut down to whole overmap
   * tiles (`Math.Floor` of the size over 24).
   */
  function ToOvermapSize(providerSize: Size): (s: Size)
    requires providerSize.width >= 0 && providerSize.height >= 0
    ensures 0 <= OVERMAP_TILE_SIZE * s.width <= providerSize.width < OVERMAP_TILE_SIZE * s.width + OVERMAP_TILE_SIZE
    ensures 0 <= OVERMAP_TILE_SIZE * s.height <= providerSize.height < OVERMAP_TILE_SIZE * s.height + OVERMAP_TILE_SIZE
  {
    Size(FloorDiv(providerSize.width, OVERMAP_TILE_SIZE), FloorDiv(providerSize.height, OVERMAP_TILE_SIZE))
  }

  class MapGenerator {
    const overmapSize: Size
    const mapSize: Size
    /** `Overmap[x, y]`, x below the overmap width. */
    const overmap: array2<OvermapTerrainType>
    /** The classified raster: pixel (x, y) is `mapImage[x, y]`. */
    const mapImage: array2<Color>
    /** The building raster at overmap resolution, read by the house pass. */
    const overmapImage: array2<Color>

    ghost predicate Valid()
    {
      && overmap.Length0 == overmapSize.width && overmap.Length1 == overmapSize.height
      && mapImage.Length0 == mapSize.width && mapImage.Length1 == mapSize.height
      && overmapImage.Length0 == overmapSize.width && overmapImage.Length1 == overmapSize.height
      && mapSize == Size(overmapSize.width * OVERMAP_TILE_SIZE, overmapSize.height * OVERMAP_TILE_SIZE)
    }

    /**
     * Sizes the grids from the provider's map size; the overmap starts all
     * `Default` and both rasters start empty (white), as `Generate` creates
     * them before drawing.
     */
    constructor (providerSize: Size)
      requires providerSize.width >= 0 && providerSize.height >= 0
      ensures Valid()
      ensures overmapSize == ToOvermapSize(providerSize)
      ensures mapSize.width % OVERMAP_TILE_SIZE == 0 && mapSize.height % OVERMAP_TILE_SIZE == 0
      ensures 0 <= mapSize.width <= providerSize.width && 0 <= mapSize.height <= providerSize.height
      ensures fresh(overmap) && fresh(mapImage) && fresh(overmapImage)
      ensures forall x, y :: 0 <= x < overmapSize.width && 0 <= y < overmapSize.height ==>
        overmap[x, y] == OvermapTerrainType.Default && overmapImage[x, y] == WhiteColor
      ensures forall x, y :: 0 <= x < mapSize.width && 0 <= y < mapSize.height ==> mapImage[x, y] == WhiteColor
    {
      var s := ToOvermapSize(providerSize);
      overmapSize := s;
      mapSize := Size(s.width * OVERMAP_TILE_SIZE, s.height * OVERMAP_TILE_SIZE);
      overmap := new OvermapTerrainType[s.width, s.height]((_, _) => OvermapTerrainType.Default);
      mapImage := new Color[s.width * OVERMAP_TILE_SIZE, s.height * OVERMAP_TILE_SIZE]((_, _) => WhiteColor);
      overmapImage := new Color[s.width, s.height]((_, _) => WhiteColor);
    }

    predicate InMap(p: Point)
    {
      0 <= p.x < mapSize.width && 0 <= p.y < mapSize.height
    }

    /**
     * `GetTerrain`: the terrain of a map tile, looked up by the colour of its
     * pixel; outside the raster, or for an unlisted colour, `Default`.
     */
    function GetTerrain(tilePos: Point): (t: TerrainType)
      requires Valid()
      reads mapImage
      ensures !InMap(tilePos) ==> t == TerrainType.Default
      ensures InMap(tilePos) && TerrainTypeByColor(mapImage[tilePos.x, tilePos.y]).Some? ==>
        t == TerrainTypeByColor(mapImage[tilePos.x, tilePos.y]).value
      ensures t != TerrainType.Default ==> InMap(tilePos) && TerrainTypeByColor(mapImage[tilePos.x, tilePos.y]) == Some(t)
    {
      if !InMap(tilePos) then TerrainType.Default
      else
        match TerrainTypeByColor(mapImage[tilePos.x, tilePos.y])
        case Some(t) => t
        case None => TerrainType.Default
    }

    /**
     * `GetOvermapTerrain`: reads the overmap with the coordinates swapped,
     * `Overmap[p.Y, p.X]`; out of bounds, `Default`.
     */
    function GetOvermapTerrain(overmapTilePos: Point): (t: OvermapTerrainType)
      requires Valid()
      reads overmap
      ensures 0 <= overmapTilePos.y < overmapSize.width && 0 <= overmapTilePos.x < overmapSize.height ==>
        t == overmap[overmapTilePos.y, overmapTilePos.x]
      ensures !(0 <= overmapTilePos.y < overmapSize.width && 0 <= overmapTilePos.x < overmapSize.height) ==>
        t == OvermapTerrainType.Default
    {
      var overmapX := overmapTilePos.y;
      var overmapY := overmapTilePos.x;
      if 0 <= overmapX < overmapSize.width && 0 <= overmapY < overmapSize.height
      then overmap[overmapX, overmapY]
      else OvermapTerrainType.Default
    }
  }
}
