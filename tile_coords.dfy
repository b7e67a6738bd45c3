/**
 * Addressing of one absolute map tile position in the Cataclysm DDA world:
 * the overmap region, the map segment directory, the overmap tile file, the
 * submap inside that file and the offset inside the submap. Positions may be
 * negative; all divisions are floored.
 */
module TileCoords {
  import opened CddaMap
  import opened MathExt

  /** A grid position; the source's third coordinate is always 0 and is omitted. */
  datatype Point = Point(x: int, y: int)

  /** The coordinates of one absolute position. */
  datatype TileCoords = TileCoords(
    abspos: Point,
    overmapRegion: Point,
    segment: Point,
    overmapTile: Point,
    submapIdx: Point,
    relPosInSubmap: Point)

  /** The coordinates of one axis. */
  datatype AxisCoords = AxisCoords(
    overmapRegion: int,
    segment: int,
    overmapTile: int,
    submapIdx: int,
    relPosInSubmap: int)

  /**
   * `(int)Math.Floor((double)a / n)`: the quotient rounded down. The double
   * division is exact enough for every 32-bit `a` and the small `n` used here.
   */
  function FloorDiv(a: int, n: int): (q: int)
    requires n > 0
    ensures n * q <= a < n * q + n
  {
    assert a == n * (a / n) + a % n;
    a / n
  }

  function ToOvermapRegion(abspos: int): int { FloorDiv(abspos, OVERMAP_REGION_SIZE) }

  function ToSegment(abspos: int): int { FloorDiv(abspos, SEGMENT_SIZE) }

  function ToPosInSegment(abspos: int): int { MathMod(abspos, SEGMENT_SIZE) }

  function ToOvermapTileInSegment(relposInSegment: int): int
  {
    FloorDiv(relposInSegment, OVERMAP_TILE_SIZE)
  }

  function ToOvermapTileFile(relOvermapTile: int, segment: int): int
  {
    relOvermapTile + segment * OVERMAP_TILES_PER_SEGMENT
  }

  function ToSubmapIdxInOvermapTile(relposInSegment: int, overmapTile: int): int
  {
    FloorDiv(relposInSegment, SUBMAP_SIZE) - 2 * MathMod(overmapTile, OVERMAP_TILES_PER_SEGMENT)
  }

  function ToRelposSubmap(abspos: int): int { MathMod(abspos, SUBMAP_SIZE) }

  /**
   * The decomposition of position `a` that the addressing is meant to compute:
   * the region, segment and overmap tile that contain `a`, the half of that
   * overmap tile and the offset in the submap, which add back up to `a`.
   */
  ghost predicate Decomposes(a: int, c: AxisCoords)
  {
    && OVERMAP_REGION_SIZE * c.overmapRegion <= a < OVERMAP_REGION_SIZE * c.overmapRegion + OVERMAP_REGION_SIZE
    && SEGMENT_SIZE * c.segment <= a < SEGMENT_SIZE * c.segment + SEGMENT_SIZE
    && OVERMAP_TILE_SIZE * c.overmapTile <= a < OVERMAP_TILE_SIZE * c.overmapTile + OVERMAP_TILE_SIZE
    && (c.submapIdx == 0 || c.submapIdx == 1)
    && 0 <= c.relPosInSubmap < SUBMAP_SIZE
    && a == c.relPosInSubmap + c.overmapTile * OVERMAP_TILE_SIZE + c.submapIdx * SUBMAP_SIZE
  }

  /** One axis of the constructor's computation. */
  function AxisOf(a: int): (c: AxisCoords)
    ensures Decomposes(a, c)
  {
    var segment := ToSegment(a);
    var posInSegment := ToPosInSegment(a);
    var overmapTileInSegment := ToOvermapTileInSegment(posInSegment);
    var overmapTile := ToOvermapTileFile(overmapTileInSegment, segment);
    var submapIdx := ToSubmapIdxInOvermapTile(posInSegment, overmapTile);
    var relPos := ToRelposSubmap(a);
    AxisStepsAgree(a, segment, posInSegment, overmapTileInSegment, overmapTile);
    AxisCoords(ToOvermapRegion(a), segment, overmapTile, submapIdx, relPos)
  }

  /** The intermediate steps of one axis, shown to give the decomposition. */
  lemma AxisStepsAgree(a: int, segment: int, pos: int, tileInSegment: int, overmapTile: int)
    requires segment == ToSegment(a) && pos == ToPosInSegment(a)
    requires tileInSegment == ToOvermapTileInSegment(pos)
    requires overmapTile == ToOvermapTileFile(tileInSegment, segment)
    ensures 0 <= tileInSegment < OVERMAP_TILES_PER_SEGMENT
    ensures OVERMAP_TILE_SIZE * overmapTile <= a < OVERMAP_TILE_SIZE * overmapTile + OVERMAP_TILE_SIZE
    ensures var i := ToSubmapIdxInOvermapTile(pos, overmapTile);
      && (i == 0 || i == 1)
      && a == ToRelposSubmap(a) + overmapTile * OVERMAP_TILE_SIZE + i * SUBMAP_SIZE
  {
    TileBracket(a, segment, pos, tileInSegment, overmapTile);
    IdxAndOffset(a, segment, pos, tileInSegment, overmapTile);
  }

  lemma TileBracket(a: int, segment: int, pos: int, tileInSegment: int, overmapTile: int)
    requires segment == ToSegment(a) && pos == ToPosInSegment(a)
    requires tileInSegment == ToOvermapTileInSegment(pos)
    requires overmapTile == ToOvermapTileFile(tileInSegment, segment)
    ensures 0 <= tileInSegment < OVERMAP_TILES_PER_SEGMENT
    ensures OVERMAP_TILE_SIZE * overmapTile <= a < OVERMAP_TILE_SIZE * overmapTile + OVERMAP_TILE_SIZE
  {
    SegmentSplit(a, segment, pos);
  }

  lemma IdxAndOffset(a: int, segment: int, pos: int, tileInSegment: int, overmapTile: int)
    requires segment == ToSegment(a) && pos == ToPosInSegment(a)
    requires tileInSegment == ToOvermapTileInSegment(pos)
    requires overmapTile == ToOvermapTileFile(tileInSegment, segment)
    ensures var i := ToSubmapIdxInOvermapTile(pos, overmapTile);
      && (i == 0 || i == 1)
      && a == ToRelposSubmap(a) + overmapTile * OVERMAP_TILE_SIZE + i * SUBMAP_SIZE
  {
    SegmentSplit(a, segment, pos);
    TileInSegment(overmapTile, tileInSegment, segment);
    HalfAndOffset(a, segment, pos, tileInSegment);
  }

  lemma SegmentSplit(a: int, segment: int, pos: int)
    requires segment == ToSegment(a) && pos == ToPosInSegment(a)
    ensures pos == a - SEGMENT_SIZE * segment
  {
    FloorOfBracket(a, SEGMENT_SIZE, segment);
  }

  lemma TileInSegment(overmapTile: int, tileInSegment: int, segment: int)
    requires 0 <= tileInSegment < OVERMAP_TILES_PER_SEGMENT
    requires overmapTile == ToOvermapTileFile(tileInSegment, segment)
    ensures MathMod(overmapTile, OVERMAP_TILES_PER_SEGMENT) == tileInSegment
  {
    FloorOfBracket(overmapTile, OVERMAP_TILES_PER_SEGMENT, segment);
  }

  lemma HalfAndOffset(a: int, segment: int, pos: int, tileInSegment: int)
    requires 0 <= pos < SEGMENT_SIZE && pos == a - SEGMENT_SIZE * segment
    requires tileInSegment == ToOvermapTileInSegment(pos)
    ensures var half := FloorDiv(pos, SUBMAP_SIZE);
      && (half == 2 * tileInSegment || half == 2 * tileInSegment + 1)
      && ToRelposSubmap(a) == pos - SUBMAP_SIZE * half
  {
    var half := FloorDiv(pos, SUBMAP_SIZE);
    FloorOfBracket(a, SUBMAP_SIZE, 64 * segment + half);
  }

  /** `CddaTileCoords(abspos)`: every field, on both axes. */
  function NewTileCoords(abspos: Point): (c: TileCoords)
    ensures c.abspos == abspos
    ensures Decomposes(abspos.x, AxisCoords(c.overmapRegion.x, c.segment.x, c.overmapTile.x, c.submapIdx.x, c.relPosInSubmap.x))
    ensures Decomposes(abspos.y, AxisCoords(c.overmapRegion.y, c.segment.y, c.overmapTile.y, c.submapIdx.y, c.relPosInSubmap.y))
  {
    var cx, cy := AxisOf(abspos.x), AxisOf(abspos.y);
    TileCoords(
      abspos,
      Point(cx.overmapRegion, cy.overmapRegion),
      Point(cx.segment, cy.segment),
      Point(cx.overmapTile, cy.overmapTile),
      Point(cx.submapIdx, cy.submapIdx),
      Point(cx.relPosInSubmap, cy.relPosInSubmap))
  }

  /**
   * The decomposition is unique, so it pins down every coordinate: region,
   * segment and overmap tile are the floored quotients of the position by
   * 4320, 768 and 24, the offset is its floored remainder by 12.
   */
  lemma DecompositionIsUnique(a: int, c: AxisCoords)
    requires Decomposes(a, c)
    ensures c == AxisOf(a)
    ensures c.overmapRegion == a / OVERMAP_REGION_SIZE
    ensures c.segment == a / SEGMENT_SIZE
    ensures c.overmapTile == a / OVERMAP_TILE_SIZE
    ensures c.relPosInSubmap == a % SUBMAP_SIZE
    ensures c.submapIdx == (a % OVERMAP_TILE_SIZE) / SUBMAP_SIZE
  {
    var d := AxisOf(a);
    CoarseParts(a, c);
    CoarseParts(a, d);
    FineParts(a, c);
    FineParts(a, d);
  }

  /** Region, segment and overmap tile of a decomposition are floored quotients. */
  lemma CoarseParts(a: int, c: AxisCoords)
    requires Decomposes(a, c)
    ensures c.overmapRegion == a / OVERMAP_REGION_SIZE
    ensures c.segment == a / SEGMENT_SIZE
    ensures c.overmapTile == a / OVERMAP_TILE_SIZE
    ensures a % OVERMAP_TILE_SIZE == c.submapIdx * SUBMAP_SIZE + c.relPosInSubmap
  {
    FloorOfBracket(a, OVERMAP_REGION_SIZE, c.overmapRegion);
    FloorOfBracket(a, SEGMENT_SIZE, c.segment);
    FloorOfBracket(a, OVERMAP_TILE_SIZE, c.overmapTile);
  }

  /** The half and the offset of a decomposition are floored remainders. */
  lemma FineParts(a: int, c: AxisCoords)
    requires Decomposes(a, c)
    ensures c.relPosInSubmap == a % SUBMAP_SIZE
    ensures c.submapIdx == (a % OVERMAP_TILE_SIZE) / SUBMAP_SIZE
  {
    CoarseParts(a, c);
    FloorOfBracket(a % OVERMAP_TILE_SIZE, SUBMAP_SIZE, c.submapIdx);
    FloorOfBracket(a, SUBMAP_SIZE, 2 * c.overmapTile + c.submapIdx);
  }

  /** A bracket `n * q <= a < n * q + n` pins down the floored quotient and remainder. */
  lemma FloorOfBracket(a: int, n: int, q: int)
    requires n > 0 && n * q <= a < n * q + n
    ensures a / n == q && a % n == a - n * q
  {
    DivModUnique(a, n, q, a - n * q);
  }

  /** Positions on a submap or overmap-tile boundary have offset 0 inside it. */
  lemma AlignedPositions(a: int)
    ensures a % SUBMAP_SIZE == 0 ==> AxisOf(a).relPosInSubmap == 0
    ensures a % OVERMAP_TILE_SIZE == 0 ==> AxisOf(a).relPosInSubmap == 0 && AxisOf(a).submapIdx == 0
  {
    DecompositionIsUnique(a, AxisOf(a));
  }

  /** Concrete values: the first tile left of the origin is in region, segment and tile -1. */
  lemma NegativePositions()
    ensures AxisOf(-1) == AxisCoords(-1, -1, -1, 1, 11)
    ensures AxisOf(0) == AxisCoords(0, 0, 0, 0, 0)
    ensures AxisOf(3078) == AxisCoords(0, 4, 128, 0, 6)
  {
    DecompositionIsUnique(-1, AxisCoords(-1, -1, -1, 1, 11));
    DecompositionIsUnique(0, AxisCoords(0, 0, 0, 0, 0));
    DecompositionIsUnique(3078, AxisCoords(0, 4, 128, 0, 6));
  }
}
