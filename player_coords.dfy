/**
 * Where the save file puts the player: the overmap region (`om_x`, `om_y`),
 * the submap of the reality bubble's top-left corner inside that region
 * (`levx`, `levy`) and the player's tile inside the bubble (`posx`, `posy`).
 * The bubble reaches 60 tiles (5 submaps) to the left and above the player.
 */
module PlayerCoords {
  import opened CddaMap
  import opened MathExt
  import opened TileCoords

  datatype PlayerCoords = PlayerCoords(
    abspos: Point,
    overmapRegion: Point,
    savegameLev: Point,
    savegamePos: Point)

  /** The three save-file numbers of one axis. */
  datatype AxisPlacement = AxisPlacement(overmapRegion: int, savegameLev: int, savegamePos: int)

  /**
   * What the save format requires of the numbers: the offset stays in the
   * bubble's central submap (60..71), the submap index inside the region
   * is 0..359, and together with the region they give back the position.
   */
  ghost predicate Places(a: int, p: AxisPlacement)
  {
    && REALITY_BUBBLE_RADIUS <= p.savegamePos < REALITY_BUBBLE_RADIUS + SUBMAP_SIZE
    && 0 <= p.savegameLev < SUBMAP_TILES_PER_REGION
    && a == SUBMAP_SIZE * (SUBMAP_TILES_PER_REGION * p.overmapRegion + p.savegameLev) + p.savegamePos
  }

  /**
   * The top-left tile of the reality bubble: 60 tiles back, then down to the
   * start of its submap.
   */
  function BubbleTopLeft(a: int): (corner: int)
    ensures AxisOf(corner).relPosInSubmap == 0
    ensures a - REALITY_BUBBLE_RADIUS - SUBMAP_SIZE < corner <= a - REALITY_BUBBLE_RADIUS
  {
    var minusBubble := AxisOf(a - REALITY_BUBBLE_RADIUS);
    var corner := a - REALITY_BUBBLE_RADIUS - minusBubble.relPosInSubmap;
    DecompositionIsUnique(a - REALITY_BUBBLE_RADIUS, minusBubble);
    DecompositionIsUnique(corner, AxisOf(corner));
    ModShift((a - REALITY_BUBBLE_RADIUS) / SUBMAP_SIZE, 0, SUBMAP_SIZE);
    corner
  }

  function ToSavegameLev(overmapTile: int, submapIdx: int): int
  {
    MathMod(overmapTile * 2, SUBMAP_TILES_PER_REGION) + submapIdx
  }

  /** One axis of the constructor. */
  function AxisPlacementOf(a: int): (p: AxisPlacement)
    ensures Places(a, p)
    ensures p.overmapRegion == AxisOf(BubbleTopLeft(a)).overmapRegion
  {
    var minusBubble := AxisOf(a - REALITY_BUBBLE_RADIUS);
    var corner := AxisOf(BubbleTopLeft(a));
    assert a == BubbleTopLeft(a) + REALITY_BUBBLE_RADIUS + minusBubble.relPosInSubmap;
    PlacementArithmetic(a, minusBubble.relPosInSubmap, BubbleTopLeft(a), corner);
    AxisPlacement(
      corner.overmapRegion,
      ToSavegameLev(corner.overmapTile, corner.submapIdx),
      REALITY_BUBBLE_RADIUS + minusBubble.relPosInSubmap)
  }

  /** The corner's region and level, with the offset behind the corner, place the position. */
  lemma PlacementArithmetic(a: int, offset: int, cornerPos: int, corner: AxisCoords)
    requires Decomposes(cornerPos, corner) && corner.relPosInSubmap == 0
    requires 0 <= offset < SUBMAP_SIZE && a == cornerPos + REALITY_BUBBLE_RADIUS + offset
    ensures Places(a, AxisPlacement(corner.overmapRegion, ToSavegameLev(corner.overmapTile, corner.submapIdx),
                                    REALITY_BUBBLE_RADIUS + offset))
  {
    var t := corner.overmapTile;
    var q := (2 * t) / SUBMAP_TILES_PER_REGION;
    var lev := ToSavegameLev(t, corner.submapIdx);
    LevelInRegion(t, corner.submapIdx);
    assert cornerPos == SUBMAP_SIZE * (SUBMAP_TILES_PER_REGION * q + lev);
    DivModUnique(cornerPos, OVERMAP_REGION_SIZE, q, SUBMAP_SIZE * lev);
    DecompositionIsUnique(cornerPos, corner);
  }

  /** Twice an overmap tile is even, so adding the submap index stays below 360. */
  lemma LevelInRegion(t: int, submapIdx: int)
    requires submapIdx == 0 || submapIdx == 1
    ensures 0 <= ToSavegameLev(t, submapIdx) < SUBMAP_TILES_PER_REGION
    ensures 2 * t + submapIdx == SUBMAP_TILES_PER_REGION * ((2 * t) / SUBMAP_TILES_PER_REGION) + ToSavegameLev(t, submapIdx)
  {
    var q := (2 * t) / SUBMAP_TILES_PER_REGION;
    var r := (2 * t) % SUBMAP_TILES_PER_REGION;
    assert 2 * t == SUBMAP_TILES_PER_REGION * q + r;
    assert r == 2 * (t - 180 * q);
    assert MathMod(t * 2, SUBMAP_TILES_PER_REGION) == r;
  }

  /** `CddaPlayerCoords(abspos)`, on both axes. */
  function NewPlayerCoords(abspos: Point): (p: PlayerCoords)
    ensures p.abspos == abspos
    ensures Places(abspos.x, AxisPlacement(p.overmapRegion.x, p.savegameLev.x, p.savegamePos.x))
    ensures Places(abspos.y, AxisPlacement(p.overmapRegion.y, p.savegameLev.y, p.savegamePos.y))
  {
    var px, py := AxisPlacementOf(abspos.x), AxisPlacementOf(abspos.y);
    PlayerCoords(
      abspos,
      Point(px.overmapRegion, py.overmapRegion),
      Point(px.savegameLev, py.savegameLev),
      Point(px.savegamePos, py.savegamePos))
  }

  /** The save-file numbers are the only ones that place the player at `a`. */
  lemma {:induction false} PlacementIsUnique(a: int, p: AxisPlacement)
    requires Places(a, p)
    ensures p == AxisPlacementOf(a)
  {
    var q := AxisPlacementOf(a);
    var k1 := SUBMAP_TILES_PER_REGION * p.overmapRegion + p.savegameLev;
    var k2 := SUBMAP_TILES_PER_REGION * q.overmapRegion + q.savegameLev;
    DivModUnique(a - REALITY_BUBBLE_RADIUS, SUBMAP_SIZE, k1, p.savegamePos - REALITY_BUBBLE_RADIUS);
    DivModUnique(a - REALITY_BUBBLE_RADIUS, SUBMAP_SIZE, k2, q.savegamePos - REALITY_BUBBLE_RADIUS);
    DivModUnique(k1, SUBMAP_TILES_PER_REGION, p.overmapRegion, p.savegameLev);
    DivModUnique(k2, SUBMAP_TILES_PER_REGION, q.overmapRegion, q.savegameLev);
  }

  /** The private `Equals`: field by field, which is exactly value equality. */
  predicate Equals(left: PlayerCoords, right: PlayerCoords)
    ensures Equals(left, right) <==> left == right
  {
    && right.abspos == left.abspos
    && right.overmapRegion == left.overmapRegion
    && right.savegameLev == left.savegameLev
    && right.savegamePos == left.savegamePos
  }

  /** The six expected placements of the unit tests. */
  lemma TestVectors()
    ensures NewPlayerCoords(Point(0, 0)) == PlayerCoords(Point(0, 0), Point(-1, -1), Point(355, 355), Point(60, 60))
    ensures NewPlayerCoords(Point(60, 60)) == PlayerCoords(Point(60, 60), Point(0, 0), Point(0, 0), Point(60, 60))
    ensures NewPlayerCoords(Point(59, 59)) == PlayerCoords(Point(59, 59), Point(-1, -1), Point(359, 359), Point(71, 71))
    ensures NewPlayerCoords(Point(4320, 4320)) == PlayerCoords(Point(4320, 4320), Point(0, 0), Point(355, 355), Point(60, 60))
    ensures NewPlayerCoords(Point(4380, 4380)) == PlayerCoords(Point(4380, 4380), Point(1, 1), Point(0, 0), Point(60, 60))
    ensures NewPlayerCoords(Point(0, 4319)) == PlayerCoords(Point(0, 4319), Point(-1, 0), Point(355, 354), Point(60, 71))
  {
    PlacementIsUnique(0, AxisPlacement(-1, 355, 60));
    PlacementIsUnique(60, AxisPlacement(0, 0, 60));
    PlacementIsUnique(59, AxisPlacement(-1, 359, 71));
    PlacementIsUnique(4320, AxisPlacement(0, 355, 60));
    PlacementIsUnique(4380, AxisPlacement(1, 0, 60));
    PlacementIsUnique(4319, AxisPlacement(0, 354, 71));
  }
}
