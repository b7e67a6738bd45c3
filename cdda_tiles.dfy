/**
 * The map segment files of a save: the segment directories the map
 * overlaps, the overmap tile files in each, the four submaps of a tile
 * file and the 144 tile names of a submap. Directories and files are
 * returned as values.
 */
module CddaTiles {
  import opened Wrappers
  import opened CddaMap
  import opened TileCoords
  import opened EnumExt
  import opened MapGen
  import opened RunLength
  import opened DecimalString
  import opened CddaSave

  /**
   * The name written for the map tile at `tileAbsPos`: the terrain of the
   * map pixel at that position relative to the map's top-left tile.
   */
  function TileNameAt(mapGen: MapGenerator, mapTopLeftAbsPos: Point, tileAbsPos: Point): string
    requires mapGen.Valid()
    reads mapGen.mapImage
  {
    TilePerTerrain(mapGen.GetTerrain(Point(tileAbsPos.x - mapTopLeftAbsPos.x, tileAbsPos.y - mapTopLeftAbsPos.y)))
  }

  /**
   * A tile inside the map is written with its pixel's terrain; a tile
   * outside the map is written as grass.
   */
  lemma TileNameOfMapPixel(mapGen: MapGenerator, mapTopLeftAbsPos: Point, pixel: Point)
    requires mapGen.Valid()
    ensures TileNameAt(mapGen, mapTopLeftAbsPos, Point(pixel.x + mapTopLeftAbsPos.x, pixel.y + mapTopLeftAbsPos.y))
            == TilePerTerrain(mapGen.GetTerrain(pixel))
    ensures !mapGen.InMap(pixel) ==>
      TileNameAt(mapGen, mapTopLeftAbsPos, Point(pixel.x + mapTopLeftAbsPos.x, pixel.y + mapTopLeftAbsPos.y)) == "t_grass"
  {
    assert Point(pixel.x + mapTopLeftAbsPos.x - mapTopLeftAbsPos.x, pixel.y + mapTopLeftAbsPos.y - mapTopLeftAbsPos.y) == pixel;
  }

  /**
   * The tile list of a submap before compression: 144 names, entry
   * `12 * y + x` for in-submap position (x, y), so Y is the major index.
   */
  predicate ListsSubmapTiles(names: seq<string>, mapGen: MapGenerator, mapTopLeftAbsPos: Point,
                             overmapTileFile: Point, submapIdx: Point)
    requires mapGen.Valid()
    reads mapGen.mapImage
  {
    && |names| == SUBMAP_SIZE * SUBMAP_SIZE
    && forall x, y :: 0 <= x < SUBMAP_SIZE && 0 <= y < SUBMAP_SIZE ==>
         names[SUBMAP_SIZE * y + x] == TileNameAt(mapGen, mapTopLeftAbsPos, GetAbsPos(overmapTileFile, submapIdx, Point(x, y)))
  }

  /**
   * `GetSubmapTerrain`: the submap's tiles, the outer loop over the
   * submap-tile X and the inner one over Y, with the two swapped when the
   * position is built; the list is then run-length compressed.
   */
  method GetSubmapTerrain(mapGen: MapGenerator, mapTopLeftCoords: TileCoords, overmapTileFile: Point, submapIdx: Point)
    returns (terrain: seq<Run<string>>)
    requires mapGen.Valid()
    ensures ListsSubmapTiles(Decode(terrain), mapGen, mapTopLeftCoords.abspos, overmapTileFile, submapIdx)
    ensures Canonical(terrain, false)
  {
    var tl := mapTopLeftCoords.abspos;
    var names: seq<string> := [];
    for submapTileX := 0 to SUBMAP_SIZE
      invariant |names| == SUBMAP_SIZE * submapTileX
      invariant forall k :: 0 <= k < |names| ==>
        names[k] == TileNameAt(mapGen, tl, GetAbsPos(overmapTileFile, submapIdx, Point(k % SUBMAP_SIZE, k / SUBMAP_SIZE)))
    {
      for submapTileY := 0 to SUBMAP_SIZE
        invariant |names| == SUBMAP_SIZE * submapTileX + submapTileY
        invariant forall k :: 0 <= k < |names| ==>
          names[k] == TileNameAt(mapGen, tl, GetAbsPos(overmapTileFile, submapIdx, Point(k % SUBMAP_SIZE, k / SUBMAP_SIZE)))
      {
        // reversed X <-> Y
        var tileAbsPos := GetAbsPos(overmapTileFile, submapIdx, Point(submapTileY, submapTileX));
        var pixelPos := Point(tileAbsPos.x - tl.x, tileAbsPos.y - tl.y);
        var tileType := TilePerTerrain(mapGen.GetTerrain(pixelPos));
        names := names + [tileType];
      }
    }
    forall x, y | 0 <= x < SUBMAP_SIZE && 0 <= y < SUBMAP_SIZE
      ensures names[SUBMAP_SIZE * y + x] == TileNameAt(mapGen, tl, GetAbsPos(overmapTileFile, submapIdx, Point(x, y)))
    {
      var k := SUBMAP_SIZE * y + x;
      assert k % SUBMAP_SIZE == x && k / SUBMAP_SIZE == y;
    }
    terrain := SimplifyTerrain(names);
  }

  /** The fields of submap `submapIdx` of tile file `overmapTileFile`, as `GetSubmap` builds them. */
  predicate IsSubmapOf(s: Submap, mapGen: MapGenerator, mapTopLeftAbsPos: Point, overmapTileFile: Point, submapIdx: Point)
    requires mapGen.Valid()
    reads mapGen.mapImage
  {
    && s.version == SAVE_VERSION
    && s.coordinates == [ToSubmapCoord(overmapTileFile.x, submapIdx.x), ToSubmapCoord(overmapTileFile.y, submapIdx.y), 0]
    && s.turnLastTouched == 1 && s.temperature == 0
    && s.radiation == [0, 144]
    && s.emptyLists == SUBMAP_EMPTY_LISTS
    && ListsSubmapTiles(Decode(s.terrain), mapGen, mapTopLeftAbsPos, overmapTileFile, submapIdx)
    && Canonical(s.terrain, false)
  }

  /** `GetSubmap`. */
  method GetSubmap(mapGen: MapGenerator, mapTopLeftCoords: TileCoords, overmapTileFile: Point, submapIdx: Point)
    returns (submap: Submap)
    requires mapGen.Valid()
    ensures IsSubmapOf(submap, mapGen, mapTopLeftCoords.abspos, overmapTileFile, submapIdx)
  {
    var submapCoord := [ToSubmapCoord(overmapTileFile.x, submapIdx.x), ToSubmapCoord(overmapTileFile.y, submapIdx.y), 0];
    var terrain := GetSubmapTerrain(mapGen, mapTopLeftCoords, overmapTileFile, submapIdx);
    submap := Submap(SAVE_VERSION, submapCoord, 1, 0, terrain, [0, 144], SUBMAP_EMPTY_LISTS);
  }

  /** One overmap tile file `{x}.{y}.0.map` and its submaps. */
  datatype TileFile = TileFile(overmapTileFile: Point, name: string, submaps: seq<Submap>)

  function TileFileName(overmapTileFile: Point): string
  {
    IntToString(overmapTileFile.x) + "." + IntToString(overmapTileFile.y) + ".0.map"
  }

  /**
   * A tile file holds its four submaps in the order (0,0), (0,1), (1,0),
   * (1,1): submap `2 * i + j` is the one with index (i, j).
   */
  predicate IsTileFileOf(f: TileFile, mapGen: MapGenerator, mapTopLeftAbsPos: Point)
    requires mapGen.Valid()
    reads mapGen.mapImage
  {
    && f.name == TileFileName(f.overmapTileFile)
    && |f.submaps| == 4
    && forall i, j :: 0 <= i < 2 && 0 <= j < 2 ==>
         IsSubmapOf(f.submaps[2 * i + j], mapGen, mapTopLeftAbsPos, f.overmapTileFile, Point(i, j))
  }

  /** `WriteOvermapTileFile`. */
  method WriteOvermapTileFile(mapGen: MapGenerator, mapTopLeftCoords: TileCoords, overmapTileFile: Point)
    returns (f: TileFile)
    requires mapGen.Valid()
    ensures f.overmapTileFile == overmapTileFile
    ensures IsTileFileOf(f, mapGen, mapTopLeftCoords.abspos)
  {
    var tl := mapTopLeftCoords.abspos;
    var overmapTileData: seq<Submap> := [];
    for submapIdxX := 0 to 2
      invariant |overmapTileData| == 2 * submapIdxX
      invariant forall i, j :: 0 <= i < submapIdxX && 0 <= j < 2 ==>
        IsSubmapOf(overmapTileData[2 * i + j], mapGen, tl, overmapTileFile, Point(i, j))
    {
      var column := WriteSubmapColumn(mapGen, mapTopLeftCoords, overmapTileFile, submapIdxX);
      ghost var before := overmapTileData;
      overmapTileData := overmapTileData + column;
      forall i, j | 0 <= i <= submapIdxX && 0 <= j < 2
        ensures IsSubmapOf(overmapTileData[2 * i + j], mapGen, tl, overmapTileFile, Point(i, j))
      {
        if i < submapIdxX {
          assert overmapTileData[2 * i + j] == before[2 * i + j];
        } else {
          assert overmapTileData[2 * i + j] == column[j];
        }
      }
    }
    f := TileFile(overmapTileFile, TileFileName(overmapTileFile), overmapTileData);
  }

  /** The inner loop of `WriteOvermapTileFile`: the two submaps of X index `submapIdxX`, Y increasing. */
  method WriteSubmapColumn(mapGen: MapGenerator, mapTopLeftCoords: TileCoords, overmapTileFile: Point, submapIdxX: int)
    returns (column: seq<Submap>)
    requires mapGen.Valid()
    ensures |column| == 2
    ensures forall j :: 0 <= j < 2 ==>
      IsSubmapOf(column[j], mapGen, mapTopLeftCoords.abspos, overmapTileFile, Point(submapIdxX, j))
  {
    column := [];
    for submapIdxY := 0 to 2
      invariant |column| == submapIdxY
      invariant forall j :: 0 <= j < submapIdxY ==>
        IsSubmapOf(column[j], mapGen, mapTopLeftCoords.abspos, overmapTileFile, Point(submapIdxX, j))
    {
      var submap := GetSubmap(mapGen, mapTopLeftCoords, overmapTileFile, Point(submapIdxX, submapIdxY));
      column := column + [submap];
    }
  }

  /** One segment directory `{x}.{y}.0` and the tile files written into it. */
  datatype SegmentDir = SegmentDir(segment: Point, name: string, files: seq<TileFile>)

  /**
   * The first tile file of a segment on one axis: the segment's first for
   * every segment after the map's first, else the map's top-left tile file,
   * or the next one when the top-left is not at offset 0 of its submap.
   */
  function TileFileRangeFrom(segment: int, segmentFrom: int, topLeft: AxisCoords): int
  {
    if segment > segmentFrom then segment * OVERMAP_TILES_PER_SEGMENT
    else topLeft.overmapTile + (if topLeft.relPosInSubmap == 0 then 0 else 1)
  }

  /**
   * The last tile file of a segment on one axis: the first of the next
   * segment for every segment before the map's last, else the bottom-right
   * tile file, or the one before when the TOP-LEFT offset is not the last
   * of its submap (as written; the bottom-right offset is not consulted).
   */
  function TileFileRangeTo(segment: int, segmentTo: int, topLeft: AxisCoords, botRght: AxisCoords): int
  {
    if segment < segmentTo then (segment + 1) * OVERMAP_TILES_PER_SEGMENT
    else botRght.overmapTile - (if topLeft.relPosInSubmap == SUBMAP_SIZE - 1 then 0 else 1)
  }

  function AxisX(c: TileCoords): AxisCoords
  {
    AxisCoords(c.overmapRegion.x, c.segment.x, c.overmapTile.x, c.submapIdx.x, c.relPosInSubmap.x)
  }

  function AxisY(c: TileCoords): AxisCoords
  {
    AxisCoords(c.overmapRegion.y, c.segment.y, c.overmapTile.y, c.submapIdx.y, c.relPosInSubmap.y)
  }

  /** Whether both tile-file ranges of `segment` are well formed (`Enumerable.Range` throws otherwise). */
  predicate SegmentRangesDefined(tl: TileCoords, br: TileCoords, segmentFrom: Point, segmentTo: Point, segment: Point)
  {
    && TileFileRangeTo(segment.x, segmentTo.x, AxisX(tl), AxisX(br)) >= TileFileRangeFrom(segment.x, segmentFrom.x, AxisX(tl)) - 1
    && TileFileRangeTo(segment.y, segmentTo.y, AxisY(tl), AxisY(br)) >= TileFileRangeFrom(segment.y, segmentFrom.y, AxisY(tl)) - 1
  }

  /** The tile files of `segment` in writing order: X in the outer loop, Y in the inner one, both ends included. */
  function SegmentTileFiles(tl: TileCoords, br: TileCoords, segmentFrom: Point, segmentTo: Point, segment: Point): seq<(int, int)>
    requires SegmentRangesDefined(tl, br, segmentFrom, segmentTo, segment)
  {
    Product(RangeCount(TileFileRangeFrom(segment.x, segmentFrom.x, AxisX(tl)), TileFileRangeTo(segment.x, segmentTo.x, AxisX(tl), AxisX(br))).value,
            RangeCount(TileFileRangeFrom(segment.y, segmentFrom.y, AxisY(tl)), TileFileRangeTo(segment.y, segmentTo.y, AxisY(tl), AxisY(br))).value)
  }

  function FilePoints(files: seq<TileFile>): (r: seq<(int, int)>)
    ensures |r| == |files|
  {
    seq(|files|, k requires 0 <= k < |files| => (files[k].overmapTileFile.x, files[k].overmapTileFile.y))
  }

  predicate IsSegmentDirOf(d: SegmentDir, mapGen: MapGenerator, tl: TileCoords, br: TileCoords,
                           segmentFrom: Point, segmentTo: Point)
    requires mapGen.Valid()
    reads mapGen.mapImage
  {
    && d.name == IntToString(d.segment.x) + "." + IntToString(d.segment.y) + ".0"
    && SegmentRangesDefined(tl, br, segmentFrom, segmentTo, d.segment)
    && FilePoints(d.files) == SegmentTileFiles(tl, br, segmentFrom, segmentTo, d.segment)
    && forall k :: 0 <= k < |d.files| ==> IsTileFileOf(d.files[k], mapGen, tl.abspos)
  }

  /** The inner loop of `WriteSegment`: the tile files of one X, for each Y in order. */
  method WriteTileFileColumn(mapGen: MapGenerator, mapTopLeftCoords: TileCoords, x: int, ys: seq<int>)
    returns (files: seq<TileFile>)
    requires mapGen.Valid()
    ensures FilePoints(files) == Row(x, ys)
    ensures forall k :: 0 <= k < |files| ==> IsTileFileOf(files[k], mapGen, mapTopLeftCoords.abspos)
  {
    files := [];
    for j := 0 to |ys|
      invariant |files| == j
      invariant forall k :: 0 <= k < j ==> files[k].overmapTileFile == Point(x, ys[k])
      invariant forall k :: 0 <= k < |files| ==> IsTileFileOf(files[k], mapGen, mapTopLeftCoords.abspos)
    {
      var f := WriteOvermapTileFile(mapGen, mapTopLeftCoords, Point(x, ys[j]));
      files := files + [f];
    }
  }

  lemma FilePointsAppend(a: seq<TileFile>, b: seq<TileFile>)
    ensures FilePoints(a + b) == FilePoints(a) + FilePoints(b)
  {
  }

  /** `WriteSegment`: fails where a tile-file range has a negative count. */
  method WriteSegment(mapGen: MapGenerator, mapTopLeftCoords: TileCoords, mapBotRghtCoords: TileCoords,
                      segmentFrom: Point, segmentTo: Point, segment: Point)
    returns (r: Result<SegmentDir, string>)
    requires mapGen.Valid()
    ensures r.Ok? <==> SegmentRangesDefined(mapTopLeftCoords, mapBotRghtCoords, segmentFrom, segmentTo, segment)
    ensures r.Ok? ==> (r.value.segment == segment
      && IsSegmentDirOf(r.value, mapGen, mapTopLeftCoords, mapBotRghtCoords, segmentFrom, segmentTo))
  {
    var tl, br := mapTopLeftCoords, mapBotRghtCoords;
    var segmentPath := IntToString(segment.x) + "." + IntToString(segment.y) + ".0";
    var xRange := RangeCount(TileFileRangeFrom(segment.x, segmentFrom.x, AxisX(tl)), TileFileRangeTo(segment.x, segmentTo.x, AxisX(tl), AxisX(br)));
    var yRange := RangeCount(TileFileRangeFrom(segment.y, segmentFrom.y, AxisY(tl)), TileFileRangeTo(segment.y, segmentTo.y, AxisY(tl), AxisY(br)));
    if xRange.None? || yRange.None? {
      return Err("negative tile file count");
    }
    var xs, ys := xRange.value, yRange.value;
    var files: seq<TileFile> := [];
    for i := 0 to |xs|
      invariant FilePoints(files) == Product(xs[..i], ys)
      invariant forall k :: 0 <= k < |files| ==> IsTileFileOf(files[k], mapGen, tl.abspos)
    {
      var column := WriteTileFileColumn(mapGen, tl, xs[i], ys);
      FilePointsAppend(files, column);
      ProductStep(xs, ys, i);
      files := files + column;
    }
    assert xs[..|xs|] == xs;
    r := Ok(SegmentDir(segment, segmentPath, files));
  }

  function SegmentPoints(dirs: seq<SegmentDir>): (r: seq<(int, int)>)
    ensures |r| == |dirs|
  {
    seq(|dirs|, k requires 0 <= k < |dirs| => (dirs[k].segment.x, dirs[k].segment.y))
  }

  /**
   * The map's segments in visiting order, from the top-left tile's segment
   * to the bottom-right tile's, both included, X in the outer loop.
   */
  function MapSegments(tl: TileCoords, br: TileCoords): seq<(int, int)>
    requires br.segment.x >= tl.segment.x - 1 && br.segment.y >= tl.segment.y - 1
  {
    Product(RangeCount(tl.segment.x, br.segment.x).value, RangeCount(tl.segment.y, br.segment.y).value)
  }

  /**
   * The segment of a position at most one tile before another is at most
   * one before that one's: the segment range of a map, even an empty one,
   * never throws.
   */
  lemma SegmentRangeIsDefined(a: int, b: int, sa: int, sb: int)
    requires SEGMENT_SIZE * sa <= a < SEGMENT_SIZE * sa + SEGMENT_SIZE
    requires SEGMENT_SIZE * sb <= b < SEGMENT_SIZE * sb + SEGMENT_SIZE
    requires b >= a - 1
    ensures sb >= sa - 1
  {
  }

  lemma SegmentPointsAppend(a: seq<SegmentDir>, b: seq<SegmentDir>)
    ensures SegmentPoints(a + b) == SegmentPoints(a) + SegmentPoints(b)
  {
  }

  /** The inner loop of `WriteSegments`: the segments of one X, for each Y in order, stopping at the first failure. */
  method WriteSegmentColumn(mapGen: MapGenerator, tl: TileCoords, br: TileCoords, x: int, ys: seq<int>)
    returns (r: Result<seq<SegmentDir>, string>)
    requires mapGen.Valid()
    ensures r.Ok? <==> forall j :: 0 <= j < |ys| ==> SegmentRangesDefined(tl, br, tl.segment, br.segment, Point(x, ys[j]))
    ensures r.Ok? ==> SegmentPoints(r.value) == Row(x, ys)
    ensures r.Ok? ==> SegmentDirsOf(r.value, mapGen, tl, br)
  {
    var dirs: seq<SegmentDir> := [];
    for j := 0 to |ys|
      invariant |dirs| == j
      invariant forall k :: 0 <= k < j ==> dirs[k].segment == Point(x, ys[k])
      invariant forall k :: 0 <= k < j ==> SegmentRangesDefined(tl, br, tl.segment, br.segment, Point(x, ys[k]))
      invariant forall k :: 0 <= k < |dirs| ==> IsSegmentDirOf(dirs[k], mapGen, tl, br, tl.segment, br.segment)
    {
      var d := WriteSegment(mapGen, tl, br, tl.segment, br.segment, Point(x, ys[j]));
      if d.Err? {
        return Err(d.error);
      }
      dirs := dirs + [d.value];
    }
    r := Ok(dirs);
  }

  /** Whether every segment of the map has well-formed tile-file ranges. */
  predicate AllSegmentRangesDefined(tl: TileCoords, br: TileCoords)
    requires br.segment.x >= tl.segment.x - 1 && br.segment.y >= tl.segment.y - 1
  {
    forall k :: 0 <= k < |MapSegments(tl, br)| ==>
      SegmentRangesDefined(tl, br, tl.segment, br.segment, Point(MapSegments(tl, br)[k].0, MapSegments(tl, br)[k].1))
  }

  /** The loops of `WriteSegments`, given the map's corner coordinates. */
  method WriteMapSegments(mapGen: MapGenerator, tl: TileCoords, br: TileCoords) returns (r: Result<seq<SegmentDir>, string>)
    requires mapGen.Valid()
    requires br.segment.x >= tl.segment.x - 1 && br.segment.y >= tl.segment.y - 1
    ensures r.Ok? <==> AllSegmentRangesDefined(tl, br)
    ensures r.Ok? ==> SegmentPoints(r.value) == MapSegments(tl, br)
    ensures r.Ok? ==> SegmentDirsOf(r.value, mapGen, tl, br)
  {
    var xs := RangeCount(tl.segment.x, br.segment.x).value;
    var ys := RangeCount(tl.segment.y, br.segment.y).value;
    var dirs: seq<SegmentDir> := [];
    for i := 0 to |xs|
      invariant SegmentPoints(dirs) == Product(xs[..i], ys)
      invariant SegmentDirsOf(dirs, mapGen, tl, br)
    {
      var column := WriteSegmentColumn(mapGen, tl, br, xs[i], ys);
      if column.Err? {
        ghost var j :| 0 <= j < |ys| && !SegmentRangesDefined(tl, br, tl.segment, br.segment, Point(xs[i], ys[j]));
        OneSegmentUndefined(tl, br, i, j);
        return Err(column.error);
      }
      SegmentPointsAppend(dirs, column.value);
      ProductStep(xs, ys, i);
      SegmentDirsAppend(dirs, column.value, mapGen, tl, br);
      dirs := dirs + column.value;
    }
    assert xs[..|xs|] == xs;
    AllSegmentsDefined(dirs, tl, br, mapGen);
    r := Ok(dirs);
  }

  /**
   * `WriteSegments`: every segment the map overlaps, X in the outer loop;
   * the first segment whose tile-file range throws ends the whole write.
   */
  method WriteSegments(gen: CddaGenerator) returns (r: Result<seq<SegmentDir>, string>)
    requires gen.mapGen.Valid()
    ensures var tl, br := gen.MapTopLeftCoords(), gen.MapBotRghtCoords();
      && br.segment.x >= tl.segment.x - 1 && br.segment.y >= tl.segment.y - 1
      && (r.Ok? <==> AllSegmentRangesDefined(tl, br))
      && (r.Ok? ==> SegmentPoints(r.value) == MapSegments(tl, br))
      && (r.Ok? ==> SegmentDirsOf(r.value, gen.mapGen, tl, br))
  {
    var tl, br := gen.MapTopLeftCoords(), gen.MapBotRghtCoords();
    SegmentRangeIsDefined(tl.abspos.x, br.abspos.x, tl.segment.x, br.segment.x);
    SegmentRangeIsDefined(tl.abspos.y, br.abspos.y, tl.segment.y, br.segment.y);
    r := WriteMapSegments(gen.mapGen, tl, br);
  }

  lemma AllSegmentsDefined(dirs: seq<SegmentDir>, tl: TileCoords, br: TileCoords, mapGen: MapGenerator)
    requires mapGen.Valid()
    requires br.segment.x >= tl.segment.x - 1 && br.segment.y >= tl.segment.y - 1
    requires SegmentPoints(dirs) == MapSegments(tl, br)
    requires SegmentDirsOf(dirs, mapGen, tl, br)
    ensures AllSegmentRangesDefined(tl, br)
  {
    forall k | 0 <= k < |MapSegments(tl, br)|
      ensures SegmentRangesDefined(tl, br, tl.segment, br.segment, Point(MapSegments(tl, br)[k].0, MapSegments(tl, br)[k].1))
    {
      assert dirs[k].segment == Point(SegmentPoints(dirs)[k].0, SegmentPoints(dirs)[k].1);
      assert IsSegmentDirOf(dirs[k], mapGen, tl, br, tl.segment, br.segment);
    }
  }

  /** Every directory is the one written for its segment. */
  predicate SegmentDirsOf(dirs: seq<SegmentDir>, mapGen: MapGenerator, tl: TileCoords, br: TileCoords)
    requires mapGen.Valid()
    reads mapGen.mapImage
  {
    forall k :: 0 <= k < |dirs| ==> IsSegmentDirOf(dirs[k], mapGen, tl, br, tl.segment, br.segment)
  }

  lemma SegmentDirsAppend(a: seq<SegmentDir>, b: seq<SegmentDir>, mapGen: MapGenerator, tl: TileCoords, br: TileCoords)
    requires mapGen.Valid()
    requires SegmentDirsOf(a, mapGen, tl, br) && SegmentDirsOf(b, mapGen, tl, br)
    ensures SegmentDirsOf(a + b, mapGen, tl, br)
  {
    forall k | 0 <= k < |a + b|
      ensures IsSegmentDirOf((a + b)[k], mapGen, tl, br, tl.segment, br.segment)
    {
      if k < |a| {
        assert (a + b)[k] == a[k];
      } else {
        assert (a + b)[k] == b[k - |a|];
      }
    }
  }

  /** One segment with an ill-formed range makes the whole write fail. */
  lemma OneSegmentUndefined(tl: TileCoords, br: TileCoords, i: int, j: int)
    requires br.segment.x >= tl.segment.x - 1 && br.segment.y >= tl.segment.y - 1
    requires 0 <= i < |RangeCount(tl.segment.x, br.segment.x).value|
    requires 0 <= j < |RangeCount(tl.segment.y, br.segment.y).value|
    requires !SegmentRangesDefined(tl, br, tl.segment, br.segment,
      Point(RangeCount(tl.segment.x, br.segment.x).value[i], RangeCount(tl.segment.y, br.segment.y).value[j]))
    ensures !AllSegmentRangesDefined(tl, br)
  {
    var xs, ys := RangeCount(tl.segment.x, br.segment.x).value, RangeCount(tl.segment.y, br.segment.y).value;
    ProductIndex(xs, ys, i, j);
    var k := i * |ys| + j;
    assert MapSegments(tl, br)[k] == (xs[i], ys[j]);
  }

  /**
   * The range bounds are inclusive on both ends, so the first tile file of
   * segment `segment + 1` is also written into the directory of `segment`,
   * although its own segment is `segment + 1` (as written).
   */
  lemma NextSegmentFirstFileIsWrittenTwice(a: int, segment: int, segmentTo: int, botRght: AxisCoords)
    requires AxisOf(a).segment <= segment < segmentTo
    ensures var f := (segment + 1) * OVERMAP_TILES_PER_SEGMENT;
      && TileFileRangeFrom(segment, AxisOf(a).segment, AxisOf(a)) <= f == TileFileRangeTo(segment, segmentTo, AxisOf(a), botRght)
      && f / OVERMAP_TILES_PER_SEGMENT == segment + 1
      && (segment + 1 < segmentTo ==>
           TileFileRangeFrom(segment + 1, AxisOf(a).segment, AxisOf(a)) == f <= TileFileRangeTo(segment + 1, segmentTo, AxisOf(a), botRght))
  {
    var c := AxisOf(a);
    assert c.overmapTile < OVERMAP_TILES_PER_SEGMENT * c.segment + OVERMAP_TILES_PER_SEGMENT;
  }

  /**
   * In the map's last segment the range ends one tile file before the
   * bottom-right one unless the TOP-LEFT offset is 11. For a map starting
   * on a submap boundary the bottom-right tile file, which holds the map's
   * last columns, is therefore not written into its segment.
   */
  lemma LastSegmentOmitsBottomRightFile(a: int, b: int)
    requires AxisOf(a).relPosInSubmap == 0
    ensures TileFileRangeTo(AxisOf(b).segment, AxisOf(b).segment, AxisOf(a), AxisOf(b)) == AxisOf(b).overmapTile - 1
    ensures OVERMAP_TILE_SIZE * AxisOf(b).overmapTile <= b
  {
  }

  /**
   * A 48-tile-wide map (two overmap tiles): the top-left is at -24, so the
   * map spans segments -1 and 0. Segment -1 gets tile files -1 and 0 and
   * segment 0 gets none; tile file 0 goes into the wrong directory.
   */
  lemma TwoTileMapExample()
    ensures ToMapTopLeftAbsPos(48) == -24
    ensures AxisOf(-24).segment == -1 && AxisOf(23).segment == 0
    ensures TileFileRangeFrom(-1, -1, AxisOf(-24)) == -1 && TileFileRangeTo(-1, 0, AxisOf(-24), AxisOf(23)) == 0
    ensures TileFileRangeFrom(0, -1, AxisOf(-24)) == 0 && TileFileRangeTo(0, 0, AxisOf(-24), AxisOf(23)) == -1
    ensures RangeCount(-1, 0) == Some([-1, 0]) && RangeCount(0, -1) == Some([])
  {
    DecompositionIsUnique(-24, AxisCoords(-1, -1, -1, 0, 0));
    DecompositionIsUnique(23, AxisCoords(0, 0, 0, 1, 11));
    assert RangeCount(-1, 0).value == [-1, 0];
  }
}
