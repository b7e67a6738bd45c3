/**
 * The house pass over the overmap: once the buildings are drawn onto the
 * overmap-resolution raster, every overmap tile that nothing else claimed
 * and whose pixel is house floor becomes a house.
 */
module Buildings {
  import opened Terrain
  import MapGen

  /**
   * The terrain of one overmap tile after the house pass: only a `Default`
   * tile whose building pixel is the floor colour changes.
   */
  function HouseTerrain(current: OvermapTerrainType, pixel: Color): (t: OvermapTerrainType)
    ensures t != current ==> t == OvermapTerrainType.HouseDefault
    ensures current != OvermapTerrainType.Default ==> t == current
    ensures t == OvermapTerrainType.HouseDefault <==>
      (current == OvermapTerrainType.Default && pixel == FloorColor) || current == OvermapTerrainType.HouseDefault
  {
    if current == OvermapTerrainType.Default && pixel == FloorColor then OvermapTerrainType.HouseDefault else current
  }

  /** The inner loop of `GenerateBuildings`: column `x`, top to bottom. */
  method GenerateBuildingsColumn(mapGen: MapGen.MapGenerator, x: int)
    requires mapGen.Valid()
    requires 0 <= x < mapGen.overmapSize.width
    modifies mapGen.overmap
    ensures forall i, j :: 0 <= i < mapGen.overmapSize.width && 0 <= j < mapGen.overmapSize.height ==>
      mapGen.overmap[i, j] ==
        if i == x then HouseTerrain(old(mapGen.overmap[i, j]), mapGen.overmapImage[i, j])
        else old(mapGen.overmap[i, j])
  {
    for y := 0 to mapGen.overmapSize.height
      invariant forall i, j :: 0 <= i < mapGen.overmapSize.width && 0 <= j < mapGen.overmapSize.height ==>
        mapGen.overmap[i, j] ==
          if i == x && j < y then HouseTerrain(old(mapGen.overmap[i, j]), mapGen.overmapImage[i, j])
          else old(mapGen.overmap[i, j])
    {
      if mapGen.overmap[x, y] != OvermapTerrainType.Default {
        continue;
      }
      var pixelColor := mapGen.overmapImage[x, y];
      if pixelColor == FloorColor {
        mapGen.overmap[x, y] := OvermapTerrainType.HouseDefault;
      }
    }
  }

  /**
   * `GenerateBuildings`, after the buildings are drawn onto the overmap
   * raster: every overmap tile gets its `HouseTerrain`.
   */
  method GenerateBuildings(mapGen: MapGen.MapGenerator)
    requires mapGen.Valid()
    modifies mapGen.overmap
    ensures forall i, j :: 0 <= i < mapGen.overmapSize.width && 0 <= j < mapGen.overmapSize.height ==>
      mapGen.overmap[i, j] == HouseTerrain(old(mapGen.overmap[i, j]), mapGen.overmapImage[i, j])
  {
    for x := 0 to mapGen.overmapSize.width
      invariant forall i, j :: 0 <= i < mapGen.overmapSize.width && 0 <= j < mapGen.overmapSize.height ==>
        mapGen.overmap[i, j] ==
          if i < x then HouseTerrain(old(mapGen.overmap[i, j]), mapGen.overmapImage[i, j])
          else old(mapGen.overmap[i, j])
    {
      GenerateBuildingsColumn(mapGen, x);
    }
  }
}
