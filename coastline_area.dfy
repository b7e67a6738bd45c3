/** A region of empty pixels found by the coastline flood fill. */
module Coastline {
  class CoastlineArea {
    /** The pixel the fill started from. */
    const initialPoint: (int, int)
    /** Border (red) pixels first reached from this region. */
    var adjacentLandBorderPixels: int
    /** Water-side pixels first reached from this region. */
    var adjacentWaterBorderPixels: int

    constructor (x: int, y: int)
      ensures initialPoint == (x, y)
      ensures adjacentLandBorderPixels == 0 && adjacentWaterBorderPixels == 0
      ensures !IsWater()
    {
      initialPoint := (x, y);
      adjacentLandBorderPixels := 0;
      adjacentWaterBorderPixels := 0;
    }

    /**
     * A region is water when it touches strictly more water-side pixels
     * than border pixels; a tie is land.
     */
    predicate IsWater()
      reads this
      ensures IsWater() ==> adjacentWaterBorderPixels >= adjacentLandBorderPixels + 1
      ensures adjacentWaterBorderPixels == adjacentLandBorderPixels ==> !IsWater()
    {
      adjacentWaterBorderPixels > adjacentLandBorderPixels
    }
  }
}
