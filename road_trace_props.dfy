/**
 * Properties of the road-tracing model: what truncation and the tile
 * conversion promise, the shape of a trace, and how a cell's road
 * information depends on the calls made.
 */
module RoadTraceProps {
  import opened Wrappers
  import opened TileCoords
  import opened MathExt
  import opened OvermapRoads
  import opened MapRoads
  import opened CddaMap
  import Terrain

  /** `(int)r` is the integer between 0 and `r` that is nearest to `r`. */
  lemma TruncToIntBounds(r: real)
    ensures r >= 0.0 ==> TruncToInt(r) as real <= r < TruncToInt(r) as real + 1.0
    ensures r < 0.0 ==> TruncToInt(r) as real - 1.0 < r <= TruncToInt(r) as real
    ensures TruncToInt(r) >= 0 <==> r > -1.0
  {
  }

  /** A pixel at a non-negative position lies inside the 24-pixel overmap tile it is given. */
  lemma RoadOvermapTileBounds(p: RealPoint)
    ensures p.x >= 0.0 ==>
      (OVERMAP_TILE_SIZE * RoadOvermapTile(p).x) as real <= p.x < (OVERMAP_TILE_SIZE * RoadOvermapTile(p).x + OVERMAP_TILE_SIZE) as real
    ensures p.y >= 0.0 ==>
      (OVERMAP_TILE_SIZE * RoadOvermapTile(p).y) as real <= p.y < (OVERMAP_TILE_SIZE * RoadOvermapTile(p).y + OVERMAP_TILE_SIZE) as real
  {
    TruncToIntBounds(p.x / OVERMAP_TILE_SIZE as real);
    TruncToIntBounds(p.y / OVERMAP_TILE_SIZE as real);
  }

  /** The tile path has the tile of each polygon point, in order. */
  lemma {:induction false} TilePathElements(polygon: seq<RealPoint>)
    ensures forall i :: 0 <= i < |polygon| ==> TilePath(polygon)[i] == RoadOvermapTile(polygon[i])
    decreases |polygon|
  {
    if polygon != [] {
      TilePathElements(polygon[..|polygon| - 1]);
    }
  }

  /** The flip that `GenerateOvermapRoadSegment` applies is one to one, and undone by its inverse. */
  lemma FlipIsInjective(p: Point, q: Point, overmapHeight: int)
    ensures Flip(p, overmapHeight) == Flip(q, overmapHeight) <==> p == q
    ensures var f := Flip(p, overmapHeight); Point(overmapHeight - f.y - 1, f.x) == p
  {
  }

  /** On the majority axis the minor coordinate moves by at most one per step. */
  lemma SlopeIsAtMostOne(rise: int, run: int)
    requires run > 0 && Abs(rise) <= run
    ensures -1.0 <= Slope(rise, run) <= 1.0
  {
  }

  /** Adding a step of at most one to a coordinate changes its truncation by at most one. */
  lemma TruncMovesByAtMostOne(a: real, step: real)
    requires -1.0 <= step <= 1.0
    ensures Abs(TruncToInt(a + step) - TruncToInt(a)) <= 1
  {
    TruncToIntBounds(a);
    TruncToIntBounds(a + step);
  }

  /**
   * A step along x marks the main cell (x, intY) last; when the row changed
   * by one it first marks the corner cell (x, prevY) of the row it left.
   */
  lemma XStepTurnsInPreviousRow(x: int, prevY: int, intY: int)
    requires Abs(intY - prevY) <= 1
    ensures var m := XStep(x, prevY, intY);
      && |m| == (if prevY == intY then 1 else 2)
      && m[|m| - 1].x == x && m[|m| - 1].y == intY
      && (prevY != intY ==> m[0].x == x && m[0].y == prevY)
  {
  }

  /**
   * A step along y marks the main cell (intX, y) last; when the column
   * changed by one it first marks the corner cell (prevX, y) of the column it left.
   */
  lemma YStepTurnsInPreviousColumn(y: int, prevX: int, intX: int)
    requires Abs(intX - prevX) <= 1
    ensures var m := YStep(y, prevX, intX);
      && |m| == (if prevX == intX then 1 else 2)
      && m[|m| - 1].x == intX && m[|m| - 1].y == y
      && (prevX != intX ==> m[0].x == prevX && m[0].y == y)
  {
  }

  /** The steps of a trace along x stay in columns `x` to `to.x` and end on `to`. */
  lemma {:induction false} XStepsShape(x: int, target: Point, floatY: real, prevY: int, yStep: real)
    requires x <= target.x
    decreases target.x - x
    ensures var m := XStepsFrom(x, target, floatY, prevY, yStep);
      && |m| > 0 && m[|m| - 1].x == target.x && m[|m| - 1].y == target.y
      && forall k :: 0 <= k < |m| ==> x <= m[k].x <= target.x
  {
    if x < target.x {
      var nextY := floatY + yStep;
      XStepsShape(x + 1, target, nextY, TruncToInt(nextY), yStep);
      var step, rest := XStep(x, prevY, TruncToInt(nextY)), XStepsFrom(x + 1, target, nextY, TruncToInt(nextY), yStep);
      var m := XStepsFrom(x, target, floatY, prevY, yStep);
      assert m == step + rest;
      forall k | 0 <= k < |m|
        ensures x <= m[k].x <= target.x
      {
        if k >= |step| {
          assert m[k] == rest[k - |step|];
        }
      }
    }
  }

  /** The steps of a trace along y stay in rows `y` to `to.y` and end on `to`. */
  lemma {:induction false} YStepsShape(y: int, target: Point, floatX: real, prevX: int, xStep: real)
    requires y <= target.y
    decreases target.y - y
    ensures var m := YStepsFrom(y, target, floatX, prevX, xStep);
      && |m| > 0 && m[|m| - 1].x == target.x && m[|m| - 1].y == target.y
      && forall k :: 0 <= k < |m| ==> y <= m[k].y <= target.y
  {
    if y < target.y {
      var nextX := floatX + xStep;
      YStepsShape(y + 1, target, nextX, TruncToInt(nextX), xStep);
      var step, rest := YStep(y, prevX, TruncToInt(nextX)), YStepsFrom(y + 1, target, nextX, TruncToInt(nextX), xStep);
      var m := YStepsFrom(y, target, floatX, prevX, xStep);
      assert m == step + rest;
      forall k | 0 <= k < |m|
        ensures y <= m[k].y <= target.y
      {
        if k >= |step| {
          assert m[k] == rest[k - |step|];
        }
      }
    }
  }

  /** A first mark in column `lo` before marks in columns `lo + 1` to `target.x` that end on `target`. */
  lemma ConsInColumns(head: RoadMark, rest: seq<RoadMark>, lo: int, target: Point)
    requires head.x == lo <= target.x
    requires |rest| > 0 && rest[|rest| - 1].x == target.x && rest[|rest| - 1].y == target.y
    requires forall k :: 0 <= k < |rest| ==> lo + 1 <= rest[k].x <= target.x
    ensures var m := [head] + rest;
      && m[0] == head && m[|m| - 1].x == target.x && m[|m| - 1].y == target.y
      && forall k :: 0 <= k < |m| ==> lo <= m[k].x <= target.x
  {
    var m := [head] + rest;
    assert forall k :: 1 <= k < |m| ==> m[k] == rest[k - 1];
  }

  /** A first mark in row `lo` before marks in rows `lo + 1` to `target.y` that end on `target`. */
  lemma ConsInRows(head: RoadMark, rest: seq<RoadMark>, lo: int, target: Point)
    requires head.y == lo <= target.y
    requires |rest| > 0 && rest[|rest| - 1].x == target.x && rest[|rest| - 1].y == target.y
    requires forall k :: 0 <= k < |rest| ==> lo + 1 <= rest[k].y <= target.y
    ensures var m := [head] + rest;
      && m[0] == head && m[|m| - 1].x == target.x && m[|m| - 1].y == target.y
      && forall k :: 0 <= k < |m| ==> lo <= m[k].y <= target.y
  {
    var m := [head] + rest;
    assert forall k :: 1 <= k < |m| ==> m[k] == rest[k - 1];
  }

  /**
   * A trace along x starts on `from`, opening east, ends on `to`, and
   * never leaves the columns between them.
   */
  lemma MarksAlongXConnectEndpoints(from: Point, to: Point)
    requires from.x < to.x && Abs(to.y - from.y) <= to.x - from.x
    ensures var m := MarksAlongX(from, to);
      && m[0] == RoadMark(from.x, from.y, TO_EAST)
      && m[|m| - 1].x == to.x && m[|m| - 1].y == to.y
      && forall k :: 0 <= k < |m| ==> from.x <= m[k].x <= to.x
  {
    var yStep := Slope(to.y - from.y, to.x - from.x);
    XStepsShape(from.x + 1, to, 0.5 + from.y as real, from.y, yStep);
    ConsInColumns(RoadMark(from.x, from.y, TO_EAST), XStepsFrom(from.x + 1, to, 0.5 + from.y as real, from.y, yStep),
                  from.x, to);
  }

  /**
   * A trace along y starts on `from`, opening south, ends on `to`, and
   * never leaves the rows between them.
   */
  lemma MarksAlongYConnectEndpoints(from: Point, to: Point)
    requires from.y < to.y && Abs(to.x - from.x) < to.y - from.y
    ensures var m := MarksAlongY(from, to);
      && m[0] == RoadMark(from.x, from.y, TO_SOUTH)
      && m[|m| - 1].x == to.x && m[|m| - 1].y == to.y
      && forall k :: 0 <= k < |m| ==> from.y <= m[k].y <= to.y
  {
    var xStep := Slope(to.x - from.x, to.y - from.y);
    YStepsShape(from.y + 1, to, 0.5 + from.x as real, from.x, xStep);
    ConsInRows(RoadMark(from.x, from.y, TO_SOUTH), YStepsFrom(from.y + 1, to, 0.5 + from.x as real, from.x, xStep),
               from.y, to);
  }

  /** A segment makes no call exactly when its two endpoints are the same tile. */
  lemma SegmentIsEmptyIff(from: Point, to: Point, overmapHeight: int)
    ensures SegmentMarks(from, to, overmapHeight) == [] <==> from == to
  {
    FlipIsInjective(from, to, overmapHeight);
  }

  /** A segment makes the same calls whichever endpoint comes first. */
  lemma SegmentIsSymmetric(from: Point, to: Point, overmapHeight: int)
    ensures SegmentMarks(from, to, overmapHeight) == SegmentMarks(to, from, overmapHeight)
  {
  }

  /** The first call addresses tile `p`. */
  predicate StartsOn(m: seq<RoadMark>, p: Point)
  {
    |m| > 0 && m[0].x == p.x && m[0].y == p.y
  }

  /** The last call addresses tile `p`. */
  predicate EndsOn(m: seq<RoadMark>, p: Point)
  {
    |m| > 0 && m[|m| - 1].x == p.x && m[|m| - 1].y == p.y
  }

  /**
   * A segment between two different tiles starts on one flipped endpoint
   * and ends on the other.
   */
  lemma SegmentConnectsEndpoints(from: Point, to: Point, overmapHeight: int)
    requires from != to
    ensures var m, a, b := SegmentMarks(from, to, overmapHeight), Flip(from, overmapHeight), Flip(to, overmapHeight);
      (StartsOn(m, a) && EndsOn(m, b)) || (StartsOn(m, b) && EndsOn(m, a))
  {
    var a, b := Flip(from, overmapHeight), Flip(to, overmapHeight);
    FlipIsInjective(from, to, overmapHeight);
    if Abs(a.x - b.x) >= Abs(a.y - b.y) {
      if a.x > b.x { MarksAlongXConnectEndpoints(b, a); } else { MarksAlongXConnectEndpoints(a, b); }
    } else {
      if a.y > b.y { MarksAlongYConnectEndpoints(b, a); } else { MarksAlongYConnectEndpoints(a, b); }
    }
  }

  /** The effect of two batches of calls is the effect of the second on the result of the first. */
  lemma {:induction false} CellAfterAppend(w: int, h: int, x: int, y: int, c: Option<OvermapRoad>,
                                           first: seq<RoadMark>, second: seq<RoadMark>)
    ensures CellAfter(w, h, x, y, c, first + second) == CellAfter(w, h, x, y, CellAfter(w, h, x, y, c, first), second)
    decreases |second|
  {
    if second == [] {
      assert first + second == first;
    } else {
      var n := |second|;
      assert (first + second)[..|first + second| - 1] == first + second[..n - 1];
      CellAfterAppend(w, h, x, y, c, first, second[..n - 1]);
    }
  }

  /** The call `m` addresses cell (x, y). */
  predicate Addresses(m: RoadMark, x: int, y: int)
  {
    m.x == x && m.y == y
  }

  /**
   * A cell has road information after the calls exactly when it had some
   * before, or it is an interior cell that one of the calls addresses.
   */
  lemma {:induction false} CellHasInfoIff(w: int, h: int, x: int, y: int, c: Option<OvermapRoad>, marks: seq<RoadMark>)
    ensures CellAfter(w, h, x, y, c, marks).Some? <==>
      c.Some? || (IsInterior(w, h, x, y) && exists k :: 0 <= k < |marks| && Addresses(marks[k], x, y))
    decreases |marks|
  {
    if marks != [] {
      var n := |marks|;
      var prefix := marks[..n - 1];
      CellHasInfoIff(w, h, x, y, c, prefix);
      if exists k :: 0 <= k < |prefix| && Addresses(prefix[k], x, y) {
        var k :| 0 <= k < |prefix| && Addresses(prefix[k], x, y);
        assert marks[k] == prefix[k];
      }
      if exists k :: 0 <= k < n && Addresses(marks[k], x, y) {
        var k :| 0 <= k < n && Addresses(marks[k], x, y);
        if k < n - 1 {
          assert prefix[k] == marks[k];
        }
      }
    }
  }

  /** The flag of direction `dir`, given by its mask bit (`NORTH`, `SOUTH`, `EAST` or `WEST`). */
  predicate HasDirection(r: OvermapRoad, dir: int)
  {
    if dir == NORTH then r.hasNorth
    else if dir == SOUTH then r.hasSouth
    else if dir == EAST then r.hasEast
    else dir == WEST && r.hasWest
  }

  /**
   * Each direction flag of a cell is set after the calls exactly when it was
   * set before, or the cell is interior and one of the calls addressing it
   * sets that flag.
   */
  lemma {:induction false} CellFlagIff(w: int, h: int, x: int, y: int, c: Option<OvermapRoad>, marks: seq<RoadMark>,
                                       dir: int)
    ensures HasDirection(FlagsOf(CellAfter(w, h, x, y, c, marks)), dir) <==>
      HasDirection(FlagsOf(c), dir)
      || (IsInterior(w, h, x, y) && exists k :: 0 <= k < |marks| && Addresses(marks[k], x, y) && HasDirection(marks[k].flags, dir))
    decreases |marks|
  {
    if marks != [] {
      var n := |marks|;
      var prefix := marks[..n - 1];
      CellFlagIff(w, h, x, y, c, prefix, dir);
      if exists k :: 0 <= k < |prefix| && Addresses(prefix[k], x, y) && HasDirection(prefix[k].flags, dir) {
        var k :| 0 <= k < |prefix| && Addresses(prefix[k], x, y) && HasDirection(prefix[k].flags, dir);
        assert marks[k] == prefix[k];
      }
      if exists k :: 0 <= k < n && Addresses(marks[k], x, y) && HasDirection(marks[k].flags, dir) {
        var k :| 0 <= k < n && Addresses(marks[k], x, y) && HasDirection(marks[k].flags, dir);
        if k < n - 1 {
          assert prefix[k] == marks[k];
        }
      }
    }
  }

  /** An overmap cell that no road call addresses keeps its terrain through the merge. */
  lemma UntouchedCellKeepsTerrain(w: int, h: int, x: int, y: int, current: Terrain.OvermapTerrainType,
                                  roadMarks: seq<RoadMark>, trailMarks: seq<RoadMark>)
    requires forall k :: 0 <= k < |roadMarks| ==> !Addresses(roadMarks[k], x, y)
    requires forall k :: 0 <= k < |trailMarks| ==> !Addresses(trailMarks[k], x, y)
    ensures MergedTerrain(current, CellAfter(w, h, x, y, None, roadMarks), CellAfter(w, h, x, y, None, trailMarks)) == current
  {
    CellHasInfoIff(w, h, x, y, None, roadMarks);
    CellHasInfoIff(w, h, x, y, None, trailMarks);
  }
}
