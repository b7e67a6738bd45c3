/**
 * The overmap pass of road generation: every road polyline is traced over
 * a grid of road information, one overmap tile per cell, and the grids of
 * roads and of forest trails are then merged into the overmap.
 *
 * A call of `SetOvermapRoadInfo` is recorded as a `RoadMark`: the cell it
 * addresses and the flags its action sets. The effect of a sequence of
 * calls on one cell is `CellAfter`, and each tracing method promises the
 * exact sequence of calls it makes, as a function of its inputs.
 */
module MapRoads {
  import opened Wrappers
  import opened Terrain
  import opened TileCoords
  import opened MathExt
  import opened OvermapRoads
  import opened CddaMap
  import MapGen

  /** One `SetOvermapRoadInfo(x, y, action)` call; the action sets `flags`. */
  datatype RoadMark = RoadMark(x: int, y: int, flags: OvermapRoad)

  /** A point of a road polygon, in raster pixels (a `Vector2`). */
  datatype RealPoint = RealPoint(x: real, y: real)

  /** A road of the map element list: its polylines and its OSM `highway` type. */
  datatype Road = Road(polygons: seq<seq<RealPoint>>, roadType: string)

  /** `Road.ROAD_TYPES_FOR_OVERMAP`. */
  const ROAD_TYPES_FOR_OVERMAP: seq<string> := [
    "motorway", "motorway_link",
    "trunk", "trunk_link",
    "primary", "secondary", "tertiary",
    "residential", "living_street"
  ]

  /** `Road.FOREST_TRAIL_TYPES_FOR_OVERMAP`. */
  const FOREST_TRAIL_TYPES_FOR_OVERMAP: seq<string> := ["track", "path", "cycleway", "construction"]

  const TO_NORTH := OvermapRoad(true, false, false, false)
  const TO_SOUTH := OvermapRoad(false, true, false, false)
  const TO_EAST := OvermapRoad(false, false, true, false)
  const TO_WEST := OvermapRoad(false, false, false, true)

  /** The flags of `r` with those of `f` set as well. */
  function SetFlags(r: OvermapRoad, f: OvermapRoad): OvermapRoad
  {
    OvermapRoad(r.hasNorth || f.hasNorth, r.hasSouth || f.hasSouth, r.hasEast || f.hasEast, r.hasWest || f.hasWest)
  }

  /** Every flag set in `a` is set in `b`. */
  predicate FlagsIncluded(a: OvermapRoad, b: OvermapRoad)
  {
    (a.hasNorth ==> b.hasNorth) && (a.hasSouth ==> b.hasSouth) && (a.hasEast ==> b.hasEast) && (a.hasWest ==> b.hasWest)
  }

  /** The flags of a cell; a cell without road info has none. */
  function FlagsOf(c: Option<OvermapRoad>): OvermapRoad
  {
    if c.Some? then c.value else NO_DIRECTIONS
  }

  /** The cells `SetOvermapRoadInfo` accepts: none on the outer border of the w × h grid. */
  predicate IsInterior(w: int, h: int, x: int, y: int)
  {
    0 < x < w - 1 && 0 < y < h - 1
  }

  /** Cell (x, y) of a w × h grid that held `c`, after the calls `marks`. */
  function CellAfter(w: int, h: int, x: int, y: int, c: Option<OvermapRoad>, marks: seq<RoadMark>): Option<OvermapRoad>
    decreases |marks|
  {
    if marks == [] then c
    else
      var before := CellAfter(w, h, x, y, c, marks[..|marks| - 1]);
      var m := marks[|marks| - 1];
      if m.x == x && m.y == y && IsInterior(w, h, x, y) then Some(SetFlags(FlagsOf(before), m.flags))
      else before
  }

  /** The grid `info` is the grid `start` after the calls `done`, cell by cell. */
  ghost predicate Traced(info: array2<Option<OvermapRoad>>, start: seq<seq<Option<OvermapRoad>>>, done: seq<RoadMark>)
    reads info
  {
    && |start| == info.Length0
    && (forall i :: 0 <= i < |start| ==> |start[i]| == info.Length1)
    && forall i, j :: 0 <= i < info.Length0 && 0 <= j < info.Length1 ==>
      info[i, j] == CellAfter(info.Length0, info.Length1, i, j, start[i][j], done)
  }

  /**
   * `SetOvermapRoadInfo`: outside the interior nothing happens; otherwise
   * the cell gets road info if it had none, and the action's flags are set.
   */
  method SetOvermapRoadInfo(info: array2<Option<OvermapRoad>>, x: int, y: int, action: OvermapRoad,
                            ghost start: seq<seq<Option<OvermapRoad>>>, ghost done: seq<RoadMark>)
    returns (ghost traced: seq<RoadMark>)
    requires Traced(info, start, done)
    modifies info
    ensures traced == done + [RoadMark(x, y, action)]
    ensures Traced(info, start, traced)
  {
    traced := done + [RoadMark(x, y, action)];
    assert traced[..|traced| - 1] == done;
    var isInBounds := 0 < x && x < info.Length0 - 1 && 0 < y && y < info.Length1 - 1;
    if !isInBounds {
      return;
    }
    if info[x, y].None? {
      info[x, y] := Some(NO_DIRECTIONS);
    }
    info[x, y] := Some(SetFlags(info[x, y].value, action));
  }

  /** A call never clears a flag: every flag a cell had survives any sequence of calls. */
  lemma {:induction false} FlagsAreOnlySet(w: int, h: int, x: int, y: int, c: Option<OvermapRoad>, marks: seq<RoadMark>)
    ensures FlagsIncluded(FlagsOf(c), FlagsOf(CellAfter(w, h, x, y, c, marks)))
    ensures c.Some? ==> CellAfter(w, h, x, y, c, marks).Some?
    decreases |marks|
  {
    if marks != [] {
      FlagsAreOnlySet(w, h, x, y, c, marks[..|marks| - 1]);
    }
  }

  /** A cell on the border of the grid never receives road info. */
  lemma {:induction false} BorderCellsAreNeverSet(w: int, h: int, x: int, y: int, c: Option<OvermapRoad>, marks: seq<RoadMark>)
    requires !IsInterior(w, h, x, y)
    ensures CellAfter(w, h, x, y, c, marks) == c
    decreases |marks|
  {
    if marks != [] {
      BorderCellsAreNeverSet(w, h, x, y, c, marks[..|marks| - 1]);
    }
  }

  /** C#'s `(int)` cast of a floating-point value: truncation toward zero. */
  function TruncToInt(r: real): int
  {
    if r >= 0.0 then r.Floor else -((-r).Floor)
  }

  /** The endpoint transform of `GenerateOvermapRoadSegment`: x and y swapped, then flipped vertically. */
  function Flip(p: Point, overmapHeight: int): Point
  {
    Point(p.y, overmapHeight - p.x - 1)
  }

  /**
   * The calls `GenerateOvermapRoadSegment` makes for the endpoints `from`,
   * `to` in overmap tiles: none if the flipped endpoints coincide;
   * otherwise a trace along the axis of the larger difference, from the
   * endpoint lower on that axis.
   */
  function SegmentMarks(from: Point, to: Point, overmapHeight: int): seq<RoadMark>
  {
    var a, b := Flip(from, overmapHeight), Flip(to, overmapHeight);
    if a == b then []
    else if Abs(a.x - b.x) >= Abs(a.y - b.y) then
      if a.x > b.x then MarksAlongX(b, a) else MarksAlongX(a, b)
    else
      if a.y > b.y then MarksAlongY(b, a) else MarksAlongY(a, b)
  }

  /** The step of the minor coordinate per unit of the major one. */
  function Slope(rise: int, run: int): real
    requires run != 0
  {
    rise as real / run as real
  }

  /** A trace along x: the start cell opens east, then one step per column, then the end cell. */
  function MarksAlongX(from: Point, to: Point): seq<RoadMark>
    requires from.x < to.x && Abs(to.y - from.y) <= to.x - from.x
  {
    [RoadMark(from.x, from.y, TO_EAST)]
    + XStepsFrom(from.x + 1, to, 0.5 + from.y as real, from.y, Slope(to.y - from.y, to.x - from.x))
  }

  /** The columns `x` up to `to.x - 1`, the minor coordinate at `floatY` so far, then the end. */
  function XStepsFrom(x: int, to: Point, floatY: real, prevY: int, yStep: real): seq<RoadMark>
    decreases to.x - x
  {
    if x < to.x then
      var nextY := floatY + yStep;
      XStep(x, prevY, TruncToInt(nextY)) + XStepsFrom(x + 1, to, nextY, TruncToInt(nextY), yStep)
    else
      XEnd(to, prevY)
  }

  /**
   * One column of a trace along x: the main cell at row `intY`, and a
   * corner cell one row back when the row changed.
   */
  function XStep(x: int, prevY: int, intY: int): seq<RoadMark>
  {
    if prevY == intY then [RoadMark(x, intY, SetFlags(TO_EAST, TO_WEST))]
    else if prevY < intY then [RoadMark(x, intY - 1, SetFlags(TO_WEST, TO_SOUTH)), RoadMark(x, intY, SetFlags(TO_EAST, TO_NORTH))]
    else [RoadMark(x, intY + 1, SetFlags(TO_WEST, TO_NORTH)), RoadMark(x, intY, SetFlags(TO_EAST, TO_SOUTH))]
  }

  /** The end of a trace along x: the end cell opens west, with a corner if the row still changes. */
  function XEnd(to: Point, prevY: int): seq<RoadMark>
  {
    if prevY == to.y then [RoadMark(to.x, to.y, TO_WEST)]
    else if prevY < to.y then [RoadMark(to.x, to.y - 1, SetFlags(TO_WEST, TO_SOUTH)), RoadMark(to.x, to.y, TO_NORTH)]
    else [RoadMark(to.x, to.y + 1, SetFlags(TO_WEST, TO_NORTH)), RoadMark(to.x, to.y, TO_SOUTH)]
  }

  /** A trace along y: the start cell opens south, then one step per row, then the end cell. */
  function MarksAlongY(from: Point, to: Point): seq<RoadMark>
    requires from.y < to.y && Abs(to.x - from.x) < to.y - from.y
  {
    [RoadMark(from.x, from.y, TO_SOUTH)]
    + YStepsFrom(from.y + 1, to, 0.5 + from.x as real, from.x, Slope(to.x - from.x, to.y - from.y))
  }

  /** The rows `y` up to `to.y - 1`, the minor coordinate at `floatX` so far, then the end. */
  function YStepsFrom(y: int, to: Point, floatX: real, prevX: int, xStep: real): seq<RoadMark>
    decreases to.y - y
  {
    if y < to.y then
      var nextX := floatX + xStep;
      YStep(y, prevX, TruncToInt(nextX)) + YStepsFrom(y + 1, to, nextX, TruncToInt(nextX), xStep)
    else
      YEnd(to, prevX)
  }

  /** One row of a trace along y: the main cell at column `intX`, and a corner cell when the column changed. */
  function YStep(y: int, prevX: int, intX: int): seq<RoadMark>
  {
    if prevX == intX then [RoadMark(intX, y, SetFlags(TO_SOUTH, TO_NORTH))]
    else if prevX < intX then [RoadMark(intX - 1, y, SetFlags(TO_NORTH, TO_EAST)), RoadMark(intX, y, SetFlags(TO_SOUTH, TO_WEST))]
    else [RoadMark(intX + 1, y, SetFlags(TO_NORTH, TO_WEST)), RoadMark(intX, y, SetFlags(TO_SOUTH, TO_EAST))]
  }

  /** The end of a trace along y: the end cell opens north, with a corner if the column still changes. */
  function YEnd(to: Point, prevX: int): seq<RoadMark>
  {
    if prevX == to.x then [RoadMark(to.x, to.y, TO_NORTH)]
    else if prevX < to.x then [RoadMark(to.x - 1, to.y, SetFlags(TO_NORTH, TO_EAST)), RoadMark(to.x, to.y, TO_WEST)]
    else [RoadMark(to.x + 1, to.y, SetFlags(TO_NORTH, TO_WEST)), RoadMark(to.x, to.y, TO_EAST)]
  }

  /** The calls for one column of a trace along x. */
  method SetXStep(info: array2<Option<OvermapRoad>>, x: int, prevY: int, intY: int,
                   ghost start: seq<seq<Option<OvermapRoad>>>, ghost done: seq<RoadMark>)
    returns (ghost traced: seq<RoadMark>)
    requires Traced(info, start, done)
    modifies info
    ensures traced == done + XStep(x, prevY, intY)
    ensures Traced(info, start, traced)
  {
    traced := done;
    if prevY == intY {
      traced := SetOvermapRoadInfo(info, x, intY, SetFlags(TO_EAST, TO_WEST), start, traced);
    } else if prevY < intY {
      traced := SetOvermapRoadInfo(info, x, intY - 1, SetFlags(TO_WEST, TO_SOUTH), start, traced);
      traced := SetOvermapRoadInfo(info, x, intY, SetFlags(TO_EAST, TO_NORTH), start, traced);
    } else {
      traced := SetOvermapRoadInfo(info, x, intY + 1, SetFlags(TO_WEST, TO_NORTH), start, traced);
      traced := SetOvermapRoadInfo(info, x, intY, SetFlags(TO_EAST, TO_SOUTH), start, traced);
    }
  }

  /** The calls for the end cell of a trace along x. */
  method SetXEnd(info: array2<Option<OvermapRoad>>, to: Point, prevY: int,
                  ghost start: seq<seq<Option<OvermapRoad>>>, ghost done: seq<RoadMark>)
    returns (ghost traced: seq<RoadMark>)
    requires Traced(info, start, done)
    modifies info
    ensures traced == done + XEnd(to, prevY)
    ensures Traced(info, start, traced)
  {
    traced := done;
    if prevY == to.y {
      traced := SetOvermapRoadInfo(info, to.x, to.y, TO_WEST, start, traced);
    } else if prevY < to.y {
      traced := SetOvermapRoadInfo(info, to.x, to.y - 1, SetFlags(TO_WEST, TO_SOUTH), start, traced);
      traced := SetOvermapRoadInfo(info, to.x, to.y, TO_NORTH, start, traced);
    } else {
      traced := SetOvermapRoadInfo(info, to.x, to.y + 1, SetFlags(TO_WEST, TO_NORTH), start, traced);
      traced := SetOvermapRoadInfo(info, to.x, to.y, TO_SOUTH, start, traced);
    }
  }

  /** The calls for one row of a trace along y. */
  method SetYStep(info: array2<Option<OvermapRoad>>, y: int, prevX: int, intX: int,
                   ghost start: seq<seq<Option<OvermapRoad>>>, ghost done: seq<RoadMark>)
    returns (ghost traced: seq<RoadMark>)
    requires Traced(info, start, done)
    modifies info
    ensures traced == done + YStep(y, prevX, intX)
    ensures Traced(info, start, traced)
  {
    traced := done;
    if prevX == intX {
      traced := SetOvermapRoadInfo(info, intX, y, SetFlags(TO_SOUTH, TO_NORTH), start, traced);
    } else if prevX < intX {
      traced := SetOvermapRoadInfo(info, intX - 1, y, SetFlags(TO_NORTH, TO_EAST), start, traced);
      traced := SetOvermapRoadInfo(info, intX, y, SetFlags(TO_SOUTH, TO_WEST), start, traced);
    } else {
      traced := SetOvermapRoadInfo(info, intX + 1, y, SetFlags(TO_NORTH, TO_WEST), start, traced);
      traced := SetOvermapRoadInfo(info, intX, y, SetFlags(TO_SOUTH, TO_EAST), start, traced);
    }
  }

  /** The calls for the end cell of a trace along y. */
  method SetYEnd(info: array2<Option<OvermapRoad>>, to: Point, prevX: int,
                  ghost start: seq<seq<Option<OvermapRoad>>>, ghost done: seq<RoadMark>)
    returns (ghost traced: seq<RoadMark>)
    requires Traced(info, start, done)
    modifies info
    ensures traced == done + YEnd(to, prevX)
    ensures Traced(info, start, traced)
  {
    traced := done;
    if prevX == to.x {
      traced := SetOvermapRoadInfo(info, to.x, to.y, TO_NORTH, start, traced);
    } else if prevX < to.x {
      traced := SetOvermapRoadInfo(info, to.x - 1, to.y, SetFlags(TO_NORTH, TO_EAST), start, traced);
      traced := SetOvermapRoadInfo(info, to.x, to.y, TO_WEST, start, traced);
    } else {
      traced := SetOvermapRoadInfo(info, to.x + 1, to.y, SetFlags(TO_NORTH, TO_WEST), start, traced);
      traced := SetOvermapRoadInfo(info, to.x, to.y, TO_EAST, start, traced);
    }
  }

  /** One pass of the loop of a trace along x: the minor coordinate advances and column `x` is set. */
  method TraceXColumn(info: array2<Option<OvermapRoad>>, x: int, to: Point, floatY: real, prevY: int, yStep: real,
                      ghost start: seq<seq<Option<OvermapRoad>>>, ghost done: seq<RoadMark>)
    returns (nextY: real, intY: int, ghost traced: seq<RoadMark>)
    requires x < to.x
    requires Traced(info, start, done)
    modifies info
    ensures nextY == floatY + yStep && intY == TruncToInt(nextY)
    ensures traced + XStepsFrom(x + 1, to, nextY, intY, yStep) == done + XStepsFrom(x, to, floatY, prevY, yStep)
    ensures Traced(info, start, traced)
  {
    nextY := floatY + yStep;
    intY := TruncToInt(nextY);
    traced := SetXStep(info, x, prevY, intY, start, done);
  }

  /** The first half of `GenerateOvermapRoadSegment`, for a segment at most as steep as the diagonal. */
  method TraceAlongX(info: array2<Option<OvermapRoad>>, from: Point, to: Point,
                     ghost start: seq<seq<Option<OvermapRoad>>>, ghost done: seq<RoadMark>)
    returns (ghost traced: seq<RoadMark>)
    requires from.x < to.x && Abs(to.y - from.y) <= to.x - from.x
    requires Traced(info, start, done)
    modifies info
    ensures traced == done + MarksAlongX(from, to)
    ensures Traced(info, start, traced)
  {
    var floatY := 0.5 + from.y as real;
    var prevY := from.y;
    var yStep := Slope(to.y - from.y, to.x - from.x);
    traced := SetOvermapRoadInfo(info, from.x, from.y, TO_EAST, start, done);
    for x := from.x + 1 to to.x
      invariant Traced(info, start, traced)
      invariant traced + XStepsFrom(x, to, floatY, prevY, yStep) == done + MarksAlongX(from, to)
    {
      floatY, prevY, traced := TraceXColumn(info, x, to, floatY, prevY, yStep, start, traced);
    }
    traced := SetXEnd(info, to, prevY, start, traced);
  }

  /** One pass of the loop of a trace along y: the minor coordinate advances and row `y` is set. */
  method TraceYRow(info: array2<Option<OvermapRoad>>, y: int, to: Point, floatX: real, prevX: int, xStep: real,
                   ghost start: seq<seq<Option<OvermapRoad>>>, ghost done: seq<RoadMark>)
    returns (nextX: real, intX: int, ghost traced: seq<RoadMark>)
    requires y < to.y
    requires Traced(info, start, done)
    modifies info
    ensures nextX == floatX + xStep && intX == TruncToInt(nextX)
    ensures traced + YStepsFrom(y + 1, to, nextX, intX, xStep) == done + YStepsFrom(y, to, floatX, prevX, xStep)
    ensures Traced(info, start, traced)
  {
    nextX := floatX + xStep;
    intX := TruncToInt(nextX);
    traced := SetYStep(info, y, prevX, intX, start, done);
  }

  /** The second half of `GenerateOvermapRoadSegment`, for a segment steeper than the diagonal. */
  method TraceAlongY(info: array2<Option<OvermapRoad>>, from: Point, to: Point,
                     ghost start: seq<seq<Option<OvermapRoad>>>, ghost done: seq<RoadMark>)
    returns (ghost traced: seq<RoadMark>)
    requires from.y < to.y && Abs(to.x - from.x) < to.y - from.y
    requires Traced(info, start, done)
    modifies info
    ensures traced == done + MarksAlongY(from, to)
    ensures Traced(info, start, traced)
  {
    var floatX := 0.5 + from.x as real;
    var prevX := from.x;
    var xStep := Slope(to.x - from.x, to.y - from.y);
    traced := SetOvermapRoadInfo(info, from.x, from.y, TO_SOUTH, start, done);
    for y := from.y + 1 to to.y
      invariant Traced(info, start, traced)
      invariant traced + YStepsFrom(y, to, floatX, prevX, xStep) == done + MarksAlongY(from, to)
    {
      floatX, prevX, traced := TraceYRow(info, y, to, floatX, prevX, xStep, start, traced);
    }
    traced := SetYEnd(info, to, prevX, start, traced);
  }

  /** One call of `GenerateOvermapRoadSegment`, with the endpoints it is given. */
  datatype Segment = Segment(from: Point, to: Point)

  /** The `SetOvermapRoadInfo` calls that a sequence of segment calls makes, in order. */
  function SegmentsMarks(segments: seq<Segment>, overmapHeight: int): seq<RoadMark>
    decreases |segments|
  {
    if segments == [] then []
    else
      var last := segments[|segments| - 1];
      SegmentsMarks(segments[..|segments| - 1], overmapHeight) + SegmentMarks(last.from, last.to, overmapHeight)
  }

  /** The grid `info` is the grid `start` after the segment calls `done`. */
  ghost predicate TracedSegments(info: array2<Option<OvermapRoad>>, start: seq<seq<Option<OvermapRoad>>>, done: seq<Segment>)
    reads info
  {
    Traced(info, start, SegmentsMarks(done, info.Length1))
  }

  /**
   * `GenerateOvermapRoadSegment`: flips both endpoints, does nothing if they
   * coincide, and otherwise traces along the majority axis in increasing
   * order of that axis.
   */
  method GenerateOvermapRoadSegment(info: array2<Option<OvermapRoad>>, from: Point, to: Point,
                                    ghost start: seq<seq<Option<OvermapRoad>>>, ghost done: seq<Segment>)
    returns (ghost traced: seq<Segment>)
    requires TracedSegments(info, start, done)
    modifies info
    ensures traced == done + [Segment(from, to)]
    ensures TracedSegments(info, start, traced)
  {
    traced := done + [Segment(from, to)];
    assert traced[..|traced| - 1] == done;
    ghost var marks := SegmentsMarks(done, info.Length1);
    assert SegmentsMarks(traced, info.Length1) == marks + SegmentMarks(from, to, info.Length1);
    var a := Flip(from, info.Length1);
    var b := Flip(to, info.Length1);
    if a == b {
      assert SegmentMarks(from, to, info.Length1) == [];
      assert SegmentsMarks(traced, info.Length1) == marks;
      return;
    }
    var xDiff := Abs(a.x - b.x);
    var yDiff := Abs(a.y - b.y);
    if xDiff >= yDiff {
      if a.x > b.x {
        a, b := b, a;
      }
      marks := TraceAlongX(info, a, b, start, marks);
    } else {
      if a.y > b.y {
        a, b := b, a;
      }
      marks := TraceAlongY(info, a, b, start, marks);
    }
  }

  /** The segment calls for a polyline: between each point and the next, in order. */
  function PathSegments(path: seq<Point>): (segments: seq<Segment>)
    decreases |path|
  {
    if |path| < 2 then []
    else PathSegments(path[..|path| - 1]) + [Segment(path[|path| - 2], path[|path| - 1])]
  }

  /** The segment calls for a prefix of a polyline grow by the segment after it. */
  lemma PathSegmentsStep(path: seq<Point>, idx: int)
    requires 0 <= idx < |path| - 1
    ensures PathSegments(path[..idx + 2]) == PathSegments(path[..idx + 1]) + [Segment(path[idx], path[idx + 1])]
  {
    assert path[..idx + 2][..idx + 1] == path[..idx + 1];
  }

  /**
   * `GenerateOvermapRoad(info, roadPath)`: the segments between consecutive
   * points. An empty path makes `Enumerable.Range(0, -1)` throw, so one
   * point at least is required.
   */
  method GenerateOvermapRoadPath(info: array2<Option<OvermapRoad>>, roadPath: seq<Point>,
                                 ghost start: seq<seq<Option<OvermapRoad>>>, ghost done: seq<Segment>)
    returns (ghost traced: seq<Segment>)
    requires |roadPath| >= 1
    requires TracedSegments(info, start, done)
    modifies info
    ensures traced == done + PathSegments(roadPath)
    ensures TracedSegments(info, start, traced)
  {
    traced := done;
    for idx := 0 to |roadPath| - 1
      invariant TracedSegments(info, start, traced)
      invariant traced == done + PathSegments(roadPath[..idx + 1])
    {
      PathSegmentsStep(roadPath, idx);
      traced := GenerateOvermapRoadSegment(info, roadPath[idx], roadPath[idx + 1], start, traced);
    }
    assert roadPath[..|roadPath|] == roadPath;
  }

  /** `GetOvermapTile(Vector2)`: the overmap tile of a pixel position, truncating after dividing by 24. */
  function RoadOvermapTile(p: RealPoint): Point
  {
    Point(TruncToInt(p.x / OVERMAP_TILE_SIZE as real), TruncToInt(p.y / OVERMAP_TILE_SIZE as real))
  }

  /** A polygon's points in overmap tiles, one tile per point. */
  function TilePath(polygon: seq<RealPoint>): (path: seq<Point>)
    ensures |path| == |polygon|
    decreases |polygon|
  {
    if polygon == [] then [] else TilePath(polygon[..|polygon| - 1]) + [RoadOvermapTile(polygon[|polygon| - 1])]
  }

  /** The segment calls for a road: those of its polylines, in order. */
  function RoadSegments(polygons: seq<seq<RealPoint>>): seq<Segment>
    decreases |polygons|
  {
    if polygons == [] then []
    else RoadSegments(polygons[..|polygons| - 1]) + PathSegments(TilePath(polygons[|polygons| - 1]))
  }

  /** The segment calls for the first polylines of a road grow by the next polyline's. */
  lemma RoadSegmentsStep(polygons: seq<seq<RealPoint>>, k: int)
    requires 0 <= k < |polygons|
    ensures RoadSegments(polygons[..k + 1]) == RoadSegments(polygons[..k]) + PathSegments(TilePath(polygons[k]))
  {
    assert polygons[..k + 1][..k] == polygons[..k];
  }

  /** The segment calls for the roads whose type is listed in `types`, in list order. */
  function RoadsSegments(roads: seq<Road>, types: seq<string>): seq<Segment>
    decreases |roads|
  {
    if roads == [] then []
    else
      var last := roads[|roads| - 1];
      RoadsSegments(roads[..|roads| - 1], types) + if last.roadType in types then RoadSegments(last.polygons) else []
  }

  /** The segment calls for the first roads grow by the next road's, if its type is listed. */
  lemma RoadsSegmentsStep(roads: seq<Road>, types: seq<string>, i: int)
    requires 0 <= i < |roads|
    ensures RoadsSegments(roads[..i + 1], types)
      == RoadsSegments(roads[..i], types) + if roads[i].roadType in types then RoadSegments(roads[i].polygons) else []
  {
    assert roads[..i + 1][..i] == roads[..i];
  }

  /** Every polyline of the roads has a point at least. */
  predicate PolygonsAreNonEmpty(roads: seq<Road>)
  {
    forall i, k :: 0 <= i < |roads| && 0 <= k < |roads[i].polygons| ==> |roads[i].polygons[k]| >= 1
  }

  /** The body of the `ForEach` over a road's polylines: polyline `k` in overmap tiles. */
  method GenerateOvermapRoadPolygon(info: array2<Option<OvermapRoad>>, polygons: seq<seq<RealPoint>>, k: int,
                                    ghost start: seq<seq<Option<OvermapRoad>>>, ghost done: seq<Segment>, ghost before: seq<Segment>)
    returns (ghost traced: seq<Segment>)
    requires 0 <= k < |polygons| && |polygons[k]| >= 1
    requires TracedSegments(info, start, before)
    requires before == done + RoadSegments(polygons[..k])
    modifies info
    ensures traced == done + RoadSegments(polygons[..k + 1])
    ensures TracedSegments(info, start, traced)
  {
    RoadSegmentsStep(polygons, k);
    traced := GenerateOvermapRoadPath(info, TilePath(polygons[k]), start, before);
  }

  /** `GenerateOvermapRoad(info, road)`: every polyline of the road, in overmap tiles. */
  method GenerateOvermapRoad(info: array2<Option<OvermapRoad>>, road: Road,
                             ghost start: seq<seq<Option<OvermapRoad>>>, ghost done: seq<Segment>)
    returns (ghost traced: seq<Segment>)
    requires forall k :: 0 <= k < |road.polygons| ==> |road.polygons[k]| >= 1
    requires TracedSegments(info, start, done)
    modifies info
    ensures traced == done + RoadSegments(road.polygons)
    ensures TracedSegments(info, start, traced)
  {
    traced := done;
    for k := 0 to |road.polygons|
      invariant TracedSegments(info, start, traced)
      invariant traced == done + RoadSegments(road.polygons[..k])
    {
      traced := GenerateOvermapRoadPolygon(info, road.polygons, k, start, done, traced);
    }
    assert road.polygons[..|road.polygons|] == road.polygons;
  }

  /** The `Where(r => types.Contains(r.Type)).ForEach(GenerateOvermapRoad)` of `GenerateOvermapRoads`. */
  method GenerateOvermapRoadsOfTypes(info: array2<Option<OvermapRoad>>, roads: seq<Road>, types: seq<string>,
                                     ghost start: seq<seq<Option<OvermapRoad>>>)
    requires PolygonsAreNonEmpty(roads)
    requires TracedSegments(info, start, [])
    modifies info
    ensures TracedSegments(info, start, RoadsSegments(roads, types))
  {
    ghost var traced: seq<Segment> := [];
    for i := 0 to |roads|
      invariant TracedSegments(info, start, traced)
      invariant traced == RoadsSegments(roads[..i], types)
    {
      RoadsSegmentsStep(roads, types, i);
      if roads[i].roadType in types {
        traced := GenerateOvermapRoad(info, roads[i], start, traced);
      }
    }
    assert roads[..|roads|] == roads;
  }

  /**
   * One overmap cell after the merge: a road variant if the road
   * information has a flag, otherwise a forest-trail variant if the trail
   * information has one, otherwise the cell as it was.
   */
  function MergedTerrain(current: OvermapTerrainType, roadInfo: Option<OvermapRoad>, trailInfo: Option<OvermapRoad>): OvermapTerrainType
  {
    var roadTerrain := if roadInfo.Some? then GetOvermapRoadTerrainType(roadInfo.value) else None;
    if roadTerrain.Some? then roadTerrain.value
    else
      var trailTerrain := if trailInfo.Some? then GetOvermapForestTrailTerrainType(trailInfo.value) else None;
      if trailTerrain.Some? then trailTerrain.value else current
  }

  /** The cell has road information with at least one flag set. */
  predicate HasFlags(c: Option<OvermapRoad>)
  {
    c.Some? && c.value != NO_DIRECTIONS
  }

  /**
   * Roads take priority over forest trails, and a cell in neither grid
   * keeps its terrain; the variant written names the cell's directions.
   */
  lemma MergePriority(current: OvermapTerrainType, roadInfo: Option<OvermapRoad>, trailInfo: Option<OvermapRoad>)
    ensures HasFlags(roadInfo) ==>
      var t := MergedTerrain(current, roadInfo, trailInfo); IsRoadTerrain(t) && RoadNameMask(t) == GetHash(roadInfo.value)
    ensures !HasFlags(roadInfo) && HasFlags(trailInfo) ==>
      var t := MergedTerrain(current, roadInfo, trailInfo);
      IsForestTrailTerrain(t) && ForestTrailNameMask(t) == GetHash(trailInfo.value)
    ensures !HasFlags(roadInfo) && !HasFlags(trailInfo) ==> MergedTerrain(current, roadInfo, trailInfo) == current
  {
    if roadInfo.Some? {
      MaskTablesNameTheDirections(GetHash(roadInfo.value));
    }
    if trailInfo.Some? {
      MaskTablesNameTheDirections(GetHash(trailInfo.value));
    }
  }

  /** Overmap cells on the border never become roads or trails. */
  lemma BorderTerrainIsKept(w: int, h: int, x: int, y: int, current: OvermapTerrainType,
                            roadMarks: seq<RoadMark>, trailMarks: seq<RoadMark>)
    requires !IsInterior(w, h, x, y)
    ensures MergedTerrain(current, CellAfter(w, h, x, y, None, roadMarks), CellAfter(w, h, x, y, None, trailMarks)) == current
  {
    BorderCellsAreNeverSet(w, h, x, y, None, roadMarks);
    BorderCellsAreNeverSet(w, h, x, y, None, trailMarks);
  }

  /** The merge loop for one overmap column x. */
  method MergeOvermapColumn(mapGen: MapGen.MapGenerator, roadsInfo: array2<Option<OvermapRoad>>,
                            trailsInfo: array2<Option<OvermapRoad>>, x: int)
    requires mapGen.Valid()
    requires 0 <= x < mapGen.overmapSize.width
    requires roadsInfo.Length0 == trailsInfo.Length0 == mapGen.overmapSize.width
    requires roadsInfo.Length1 == trailsInfo.Length1 == mapGen.overmapSize.height
    modifies mapGen.overmap
    ensures forall i, j :: 0 <= i < mapGen.overmapSize.width && 0 <= j < mapGen.overmapSize.height ==>
      mapGen.overmap[i, j] ==
        if i == x then MergedTerrain(old(mapGen.overmap[i, j]), old(roadsInfo[i, j]), old(trailsInfo[i, j]))
        else old(mapGen.overmap[i, j])
  {
    for y := 0 to mapGen.overmapSize.height
      invariant forall i, j :: 0 <= i < mapGen.overmapSize.width && 0 <= j < mapGen.overmapSize.height ==>
        mapGen.overmap[i, j] ==
          if i == x && j < y then MergedTerrain(old(mapGen.overmap[i, j]), old(roadsInfo[i, j]), old(trailsInfo[i, j]))
          else old(mapGen.overmap[i, j])
      invariant forall i, j :: 0 <= i < mapGen.overmapSize.width && 0 <= j < mapGen.overmapSize.height ==>
        roadsInfo[i, j] == old(roadsInfo[i, j]) && trailsInfo[i, j] == old(trailsInfo[i, j])
    {
      var roadTerrainType := if roadsInfo[x, y].Some? then GetOvermapRoadTerrainType(roadsInfo[x, y].value) else None;
      if roadTerrainType.Some? {
        mapGen.overmap[x, y] := roadTerrainType.value;
      } else {
        var forestTrailTerrainType :=
          if trailsInfo[x, y].Some? then GetOvermapForestTrailTerrainType(trailsInfo[x, y].value) else None;
        if forestTrailTerrainType.Some? {
          mapGen.overmap[x, y] := forestTrailTerrainType.value;
        }
      }
    }
  }

  /** The merge loop of `GenerateOvermapRoads`, column by column. */
  method MergeOvermap(mapGen: MapGen.MapGenerator, roadsInfo: array2<Option<OvermapRoad>>,
                      trailsInfo: array2<Option<OvermapRoad>>)
    requires mapGen.Valid()
    requires roadsInfo.Length0 == trailsInfo.Length0 == mapGen.overmapSize.width
    requires roadsInfo.Length1 == trailsInfo.Length1 == mapGen.overmapSize.height
    modifies mapGen.overmap
    ensures forall i, j :: 0 <= i < mapGen.overmapSize.width && 0 <= j < mapGen.overmapSize.height ==>
      mapGen.overmap[i, j] == MergedTerrain(old(mapGen.overmap[i, j]), old(roadsInfo[i, j]), old(trailsInfo[i, j]))
  {
    for x := 0 to mapGen.overmapSize.width
      invariant forall i, j :: 0 <= i < mapGen.overmapSize.width && 0 <= j < mapGen.overmapSize.height ==>
        mapGen.overmap[i, j] ==
          if i < x then MergedTerrain(old(mapGen.overmap[i, j]), old(roadsInfo[i, j]), old(trailsInfo[i, j]))
          else old(mapGen.overmap[i, j])
      invariant forall i, j :: 0 <= i < mapGen.overmapSize.width && 0 <= j < mapGen.overmapSize.height ==>
        roadsInfo[i, j] == old(roadsInfo[i, j]) && trailsInfo[i, j] == old(trailsInfo[i, j])
    {
      MergeOvermapColumn(mapGen, roadsInfo, trailsInfo, x);
    }
  }

  /** A w × h grid with no road information. */
  function EmptyGrid(w: nat, h: nat): (g: seq<seq<Option<OvermapRoad>>>)
    ensures |g| == w && forall i :: 0 <= i < w ==> |g[i]| == h && forall j :: 0 <= j < h ==> g[i][j] == None
  {
    seq(w, _ => seq(h, _ => None))
  }

  /**
   * `GenerateOvermapRoads`: traces the overmap roads and the forest trails
   * on two fresh grids, then merges them into the overmap.
   */
  method GenerateOvermapRoads(mapGen: MapGen.MapGenerator, roads: seq<Road>)
    requires mapGen.Valid()
    requires mapGen.overmapSize.width >= 0 && mapGen.overmapSize.height >= 0
    requires PolygonsAreNonEmpty(roads)
    modifies mapGen.overmap
    ensures forall x, y :: 0 <= x < mapGen.overmapSize.width && 0 <= y < mapGen.overmapSize.height ==>
      var w, h := mapGen.overmapSize.width, mapGen.overmapSize.height;
      mapGen.overmap[x, y] == MergedTerrain(old(mapGen.overmap[x, y]),
        CellAfter(w, h, x, y, None, SegmentsMarks(RoadsSegments(roads, ROAD_TYPES_FOR_OVERMAP), h)),
        CellAfter(w, h, x, y, None, SegmentsMarks(RoadsSegments(roads, FOREST_TRAIL_TYPES_FOR_OVERMAP), h)))
  {
    var w, h := mapGen.overmapSize.width, mapGen.overmapSize.height;
    ghost var empty := EmptyGrid(w, h);
    var overmapRoadsInfo := new Option<OvermapRoad>[w, h]((_, _) => None);
    GenerateOvermapRoadsOfTypes(overmapRoadsInfo, roads, ROAD_TYPES_FOR_OVERMAP, empty);
    var overmapForestTrailsInfo := new Option<OvermapRoad>[w, h]((_, _) => None);
    GenerateOvermapRoadsOfTypes(overmapForestTrailsInfo, roads, FOREST_TRAIL_TYPES_FOR_OVERMAP, empty);
    MergeOvermap(mapGen, overmapRoadsInfo, overmapForestTrailsInfo);
  }
}
