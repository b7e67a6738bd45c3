/**
 * The fixed sizes of Cataclysm DDA's world grid, in map tiles.
 * A submap is 12x12 tiles, an overmap tile 2x2 submaps, a map segment
 * directory 32x32 overmap tiles and an overmap region 180x180 overmap tiles.
 */
module CddaMap {
  const SUBMAP_SIZE: int := 12
  const OVERMAP_TILE_SIZE: int := SUBMAP_SIZE * 2
  const OVERMAP_TILES_PER_SEGMENT: int := 32
  const SEGMENT_SIZE: int := OVERMAP_TILES_PER_SEGMENT * OVERMAP_TILE_SIZE

  const OVERMAP_TILES_PER_REGION: int := 180
  const OVERMAP_REGION_SIZE: int := OVERMAP_TILES_PER_REGION * OVERMAP_TILE_SIZE
  const SUBMAP_TILES_PER_REGION: int := OVERMAP_TILES_PER_REGION * 2

  const REALITY_BUBBLE_RADIUS: int := 60

  /** Names used by the newer writer for the same two counts. */
  const SEGMENT_SIZE_IN_OVERMAP_TILES: int := OVERMAP_TILES_PER_SEGMENT
  const OVERMAP_REGION_SIZE_IN_OVERMAP_TILES: int := OVERMAP_TILES_PER_REGION

  /** The sizes nest: every coarser unit is a whole number of finer ones. */
  lemma SizeHierarchy()
    ensures OVERMAP_TILE_SIZE == 2 * SUBMAP_SIZE == 24
    ensures SEGMENT_SIZE == 32 * OVERMAP_TILE_SIZE == 768
    ensures OVERMAP_REGION_SIZE == 180 * OVERMAP_TILE_SIZE == 4320
    ensures SUBMAP_TILES_PER_REGION == 360
    ensures OVERMAP_REGION_SIZE == SUBMAP_TILES_PER_REGION * SUBMAP_SIZE
    ensures REALITY_BUBBLE_RADIUS == 5 * SUBMAP_SIZE
  {
  }
}
