/**
 * The Python generator script: its own copy of the tile addressing
 * (`get_coords`, `get_abspos`), the reader of the player's position in the
 * main save (`get_player_abspos`), its run-length compression
 * (`simplify_terrain`) and the submap builder that reads the road raster
 * (`get_sumap`, `get_sumap_terrain`).
 */
module PyGenerate {
  import opened Wrappers
  import opened Json
  import opened MathExt
  import opened TileCoords
  import opened RunLength
  import PlayerCoords
  import CddaSave
  import CddaMap

  const SUBMAP_SIZE: int := 12
  const SUBMAP_X4_SIZE: int := SUBMAP_SIZE * 2
  const SUBMAP_X4_PER_SEGMENT: int := 32
  const SEGMENT_SIZE: int := SUBMAP_X4_PER_SEGMENT * SUBMAP_X4_SIZE

  const TILE_TYPE_ROAD: string := "t_pavement"
  const TILE_TYPE_DEFAULT: string := "t_grass"

  const LEVX_KEY: string := "levx"
  const LEVY_KEY: string := "levy"
  const PLAYER_KEY: string := "player"
  const PLAYER_POSX_KEY: string := "posx"
  const PLAYER_POSY_KEY: string := "posy"

  /** One axis of the script's `Coords` tuple. */
  datatype CoordsAxis = CoordsAxis(segment: int, submap4xFile: int, submapIdxIn4xFile: int, submapRelpos: int)

  datatype Coords = Coords(segment: Point, submap4xFile: Point, submapIdxIn4xFile: Point, submapRelpos: Point)

  /**
   * One axis of `get_coords`. `math.floor(a / n)` is the floored quotient
   * and Python's `%` by a positive number the floored remainder.
   */
  function GetCoordsAxis(a: int): (c: CoordsAxis)
    ensures SEGMENT_SIZE * c.segment <= a < SEGMENT_SIZE * c.segment + SEGMENT_SIZE
    ensures c.submapIdxIn4xFile == 0 || c.submapIdxIn4xFile == 1
    ensures 0 <= c.submapRelpos < SUBMAP_SIZE
    ensures GetAbsposAxis(c.submap4xFile, c.submapIdxIn4xFile, c.submapRelpos) == a
  {
    var segment := FloorDiv(a, SEGMENT_SIZE);
    var relposInSegment := a % SEGMENT_SIZE;
    var relSubmap4xFile := FloorDiv(relposInSegment, SUBMAP_X4_SIZE);
    var submap4xFile := relSubmap4xFile + segment * SUBMAP_X4_PER_SEGMENT;
    var submapIdx := FloorDiv(relposInSegment, SUBMAP_SIZE) - 2 * relSubmap4xFile;
    var submapRelpos := a % SUBMAP_SIZE;
    AxisAgreesWithTileCoords(a, segment, relposInSegment, relSubmap4xFile);
    CoordsAxis(segment, submap4xFile, submapIdx, submapRelpos)
  }

  /**
   * The script's steps give the same numbers as `CddaTileCoords`: the file
   * index inside the segment is what the C# code recovers with `MathMod`.
   */
  lemma AxisAgreesWithTileCoords(a: int, segment: int, relposInSegment: int, relSubmap4xFile: int)
    requires segment == FloorDiv(a, SEGMENT_SIZE) && relposInSegment == a % SEGMENT_SIZE
    requires relSubmap4xFile == FloorDiv(relposInSegment, SUBMAP_X4_SIZE)
    ensures var c := AxisOf(a);
      && c.segment == segment
      && c.overmapTile == relSubmap4xFile + segment * SUBMAP_X4_PER_SEGMENT
      && c.submapIdx == FloorDiv(relposInSegment, SUBMAP_SIZE) - 2 * relSubmap4xFile
      && c.relPosInSubmap == a % SUBMAP_SIZE
  {
    var tile := relSubmap4xFile + segment * SUBMAP_X4_PER_SEGMENT;
    assert 0 <= relSubmap4xFile < SUBMAP_X4_PER_SEGMENT;
    ModShift(segment, relSubmap4xFile, SUBMAP_X4_PER_SEGMENT);
    DivModUnique(relSubmap4xFile, SUBMAP_X4_PER_SEGMENT, 0, relSubmap4xFile);
    assert MathMod(tile, SUBMAP_X4_PER_SEGMENT) == relSubmap4xFile;
  }

  /** `get_coords` on both axes. */
  function GetCoords(abspos: Point): (c: Coords)
    ensures GetAbspos(c.submap4xFile, c.submapIdxIn4xFile, c.submapRelpos) == abspos
  {
    var cx, cy := GetCoordsAxis(abspos.x), GetCoordsAxis(abspos.y);
    Coords(
      Point(cx.segment, cy.segment),
      Point(cx.submap4xFile, cy.submap4xFile),
      Point(cx.submapIdxIn4xFile, cy.submapIdxIn4xFile),
      Point(cx.submapRelpos, cy.submapRelpos))
  }

  function GetAbsposAxis(submap4xFile: int, submapIdx: int, submapRelpos: int): int
  {
    submap4xFile * SUBMAP_X4_SIZE + submapIdx * SUBMAP_SIZE + submapRelpos
  }

  /** `get_abspos`: a tile file, a submap in it and an offset back to the absolute position. */
  function GetAbspos(submap4xFile: Point, submapIdx: Point, submapRelpos: Point): Point
  {
    Point(GetAbsposAxis(submap4xFile.x, submapIdx.x, submapRelpos.x),
          GetAbsposAxis(submap4xFile.y, submapIdx.y, submapRelpos.y))
  }

  /**
   * The script and the C# generator address every position alike: the
   * segment, the tile file, the submap and the offset are those of
   * `CddaTileCoords`.
   */
  lemma GetCoordsAgreesWithTileCoords(a: int)
    ensures var p, c := GetCoordsAxis(a), AxisOf(a);
      p == CoordsAxis(c.segment, c.overmapTile, c.submapIdx, c.relPosInSubmap)
  {
    var segment := FloorDiv(a, SEGMENT_SIZE);
    AxisAgreesWithTileCoords(a, segment, a % SEGMENT_SIZE, FloorDiv(a % SEGMENT_SIZE, SUBMAP_X4_SIZE));
  }

  /**
   * The other direction of the round trip: parts in range, composed by
   * `get_abspos` and addressed again by `get_coords`, come back unchanged.
   */
  lemma {:induction false} GetCoordsOfAbspos(submap4xFile: int, submapIdx: int, submapRelpos: int)
    requires submapIdx == 0 || submapIdx == 1
    requires 0 <= submapRelpos < SUBMAP_SIZE
    ensures var c := GetCoordsAxis(GetAbsposAxis(submap4xFile, submapIdx, submapRelpos));
      && c.submap4xFile == submap4xFile && c.submapIdxIn4xFile == submapIdx && c.submapRelpos == submapRelpos
      && c.segment == FloorDiv(submap4xFile, SUBMAP_X4_PER_SEGMENT)
  {
    var a := GetAbsposAxis(submap4xFile, submapIdx, submapRelpos);
    CddaSave.AbsPosRoundTrip(a, submap4xFile, submapIdx, submapRelpos);
    GetCoordsAgreesWithTileCoords(a);
    var s := FloorDiv(submap4xFile, SUBMAP_X4_PER_SEGMENT);
    var c := GetCoordsAxis(a);
    assert SUBMAP_X4_PER_SEGMENT * s <= submap4xFile < SUBMAP_X4_PER_SEGMENT * s + SUBMAP_X4_PER_SEGMENT;
    assert SEGMENT_SIZE * s <= a < SEGMENT_SIZE * s + SEGMENT_SIZE;
    DivModUnique(a, SEGMENT_SIZE, s, a - SEGMENT_SIZE * s);
    DivModUnique(a, SEGMENT_SIZE, c.segment, a - SEGMENT_SIZE * c.segment);
  }

  /** The worked example of the script's comments. */
  lemma WorkedExample()
    ensures GetCoords(Point(3078, 583)) == Coords(Point(4, 0), Point(128, 24), Point(0, 0), Point(6, 7))
  {
    var cx, cy := GetCoordsAxis(3078), GetCoordsAxis(583);
    assert FloorDiv(3078, SEGMENT_SIZE) == 4;
    assert FloorDiv(6, SUBMAP_X4_SIZE) == 0 && FloorDiv(6, SUBMAP_SIZE) == 0;
    assert FloorDiv(583, SEGMENT_SIZE) == 0;
    assert FloorDiv(583, SUBMAP_X4_SIZE) == 24 && FloorDiv(583, SUBMAP_SIZE) == 48;
  }

  /**
   * `get_player_abspos`: `lev * 12 + pos` on both axes. A missing key raises
   * in the script; here it, or a value that is not a number, gives `None`.
   */
  function GetPlayerAbspos(mainSaveData: map<string, Json>): (r: Option<Point>)
    ensures r.Some? <==>
      && LEVX_KEY in mainSaveData && mainSaveData[LEVX_KEY].JNumber?
      && LEVY_KEY in mainSaveData && mainSaveData[LEVY_KEY].JNumber?
      && PLAYER_KEY in mainSaveData && mainSaveData[PLAYER_KEY].JObject?
      && PLAYER_POSX_KEY in mainSaveData[PLAYER_KEY].fields && mainSaveData[PLAYER_KEY].fields[PLAYER_POSX_KEY].JNumber?
      && PLAYER_POSY_KEY in mainSaveData[PLAYER_KEY].fields && mainSaveData[PLAYER_KEY].fields[PLAYER_POSY_KEY].JNumber?
    ensures r.Some? ==>
      var player := mainSaveData[PLAYER_KEY].fields;
      && r.value.x - player[PLAYER_POSX_KEY].n == SUBMAP_SIZE * mainSaveData[LEVX_KEY].n
      && r.value.y - player[PLAYER_POSY_KEY].n == SUBMAP_SIZE * mainSaveData[LEVY_KEY].n
  {
    if && LEVX_KEY in mainSaveData && mainSaveData[LEVX_KEY].JNumber?
       && LEVY_KEY in mainSaveData && mainSaveData[LEVY_KEY].JNumber?
       && PLAYER_KEY in mainSaveData && mainSaveData[PLAYER_KEY].JObject?
       && PLAYER_POSX_KEY in mainSaveData[PLAYER_KEY].fields && mainSaveData[PLAYER_KEY].fields[PLAYER_POSX_KEY].JNumber?
       && PLAYER_POSY_KEY in mainSaveData[PLAYER_KEY].fields && mainSaveData[PLAYER_KEY].fields[PLAYER_POSY_KEY].JNumber?
    then
      var levx, levy := mainSaveData[LEVX_KEY].n, mainSaveData[LEVY_KEY].n;
      var playerData := mainSaveData[PLAYER_KEY].fields;
      var playerPosx, playerPosy := playerData[PLAYER_POSX_KEY].n, playerData[PLAYER_POSY_KEY].n;
      Some(Point(levx * SUBMAP_SIZE + playerPosx, levy * SUBMAP_SIZE + playerPosy))
    else
      None
  }

  /** The comment example: `levx,y = 251, 43` and `posx,y = 66, 67` give `3078, 583`. */
  lemma PlayerAbsposExample()
    ensures GetPlayerAbspos(map[LEVX_KEY := JNumber(251), LEVY_KEY := JNumber(43),
                                PLAYER_KEY := JObject(map[PLAYER_POSX_KEY := JNumber(66), PLAYER_POSY_KEY := JNumber(67)])])
            == Some(Point(3078, 583))
  {
  }

  /** What the C# `WriteMainSave` leaves in a main save for the placement `p`. */
  ghost predicate RecordsPlacement(mainSaveData: map<string, Json>, p: PlayerCoords.PlayerCoords)
  {
    && LEVX_KEY in mainSaveData && mainSaveData[LEVX_KEY] == JNumber(p.savegameLev.x)
    && LEVY_KEY in mainSaveData && mainSaveData[LEVY_KEY] == JNumber(p.savegameLev.y)
    && PLAYER_KEY in mainSaveData && mainSaveData[PLAYER_KEY].JObject?
    && PLAYER_POSX_KEY in mainSaveData[PLAYER_KEY].fields
    && mainSaveData[PLAYER_KEY].fields[PLAYER_POSX_KEY] == JNumber(p.savegamePos.x)
    && PLAYER_POSY_KEY in mainSaveData[PLAYER_KEY].fields
    && mainSaveData[PLAYER_KEY].fields[PLAYER_POSY_KEY] == JNumber(p.savegamePos.y)
  }

  /**
   * The script reads back what the C# generator writes: on a save patched
   * for spawn position `a`, `get_player_abspos` gives `a` relative to the
   * start of the overmap region the save names.
   */
  lemma ReadsBackPlacement(mainSaveData: map<string, Json>, a: Point)
    requires RecordsPlacement(mainSaveData, PlayerCoords.NewPlayerCoords(a))
    ensures var region := PlayerCoords.NewPlayerCoords(a).overmapRegion;
      GetPlayerAbspos(mainSaveData) == Some(Point(a.x - CddaMap.OVERMAP_REGION_SIZE * region.x,
                                                  a.y - CddaMap.OVERMAP_REGION_SIZE * region.y))
  {
    var p := PlayerCoords.NewPlayerCoords(a);
    ReadsBackPlaces(mainSaveData, p);
  }

  /** The same for any placement that places its position. */
  lemma ReadsBackPlaces(mainSaveData: map<string, Json>, p: PlayerCoords.PlayerCoords)
    requires RecordsPlacement(mainSaveData, p)
    requires PlayerCoords.Places(p.abspos.x, PlayerCoords.AxisPlacement(p.overmapRegion.x, p.savegameLev.x, p.savegamePos.x))
    requires PlayerCoords.Places(p.abspos.y, PlayerCoords.AxisPlacement(p.overmapRegion.y, p.savegameLev.y, p.savegamePos.y))
    ensures GetPlayerAbspos(mainSaveData) == Some(Point(p.abspos.x - CddaMap.OVERMAP_REGION_SIZE * p.overmapRegion.x,
                                                        p.abspos.y - CddaMap.OVERMAP_REGION_SIZE * p.overmapRegion.y))
  {
    var a := p.abspos;
    assert a.x == SUBMAP_SIZE * p.savegameLev.x + p.savegamePos.x + CddaMap.OVERMAP_REGION_SIZE * p.overmapRegion.x;
    assert a.y == SUBMAP_SIZE * p.savegameLev.y + p.savegamePos.y + CddaMap.OVERMAP_REGION_SIZE * p.overmapRegion.y;
  }

  /** The script's tiles in the list it compresses: always strings, never the `None` sentinel. */
  function Lift(terrain: seq<string>): (r: seq<Option<string>>)
    ensures |r| == |terrain| && forall i :: 0 <= i < |r| ==> r[i] == Some(terrain[i])
  {
    seq(|terrain|, i requires 0 <= i < |terrain| => Some(terrain[i]))
  }

  /**
   * `simplify_terrain`: the pending run starts as `[None, 0]`; runs of one
   * are output bare, longer runs as `[tile, count]`, and the sentinel's
   * empty run is never output.
   */
  method SimplifyTerrain(terrain: seq<string>) returns (simplified: seq<Run<Option<string>>>)
    ensures Decode(simplified) == Lift(terrain)
    ensures Canonical(simplified, false)
    ensures forall i :: 0 <= i < |simplified| ==> simplified[i].tile.Some?
  {
    simplified := SimplifyTiles(Lift(terrain), None, false);
    forall i | 0 <= i < |simplified|
      ensures simplified[i].tile.Some?
    {
      RunTileIsDecoded(simplified, false, i);
    }
  }

  /** Every run of a well-formed list stands for at least one decoded tile, its own. */
  lemma {:induction false} RunTileIsDecoded<T>(runs: seq<Run<T>>, m: bool, i: int)
    requires Canonical(runs, m) && 0 <= i < |runs|
    ensures runs[i].tile in Decode(runs)
  {
    var front, last := runs[..|runs| - 1], runs[|runs| - 1];
    assert Canonical(front, m);
    assert WellFormedRun(last, m);
    assert Decode(runs) == Decode(front) + Expand(last);
    if i == |runs| - 1 {
      assert Expand(last)[0] == last.tile;
    } else {
      RunTileIsDecoded(front, m, i);
      assert runs[i] == front[i];
    }
  }

  function UnwrapRun(r: Run<Option<string>>): Run<string>
    requires r.tile.Some?
  {
    match r
    case Bare(t) => Bare(t.value)
    case Counted(t, n) => Counted(t.value, n)
  }

  /** The script's output as the tile values it holds. */
  function Unwrap(runs: seq<Run<Option<string>>>): (r: seq<Run<string>>)
    requires forall i :: 0 <= i < |runs| ==> runs[i].tile.Some?
    ensures |r| == |runs| && forall i :: 0 <= i < |r| ==> r[i] == UnwrapRun(runs[i])
  {
    seq(|runs|, i requires 0 <= i < |runs| => UnwrapRun(runs[i]))
  }

  lemma {:induction false} DecodeUnwrap(runs: seq<Run<Option<string>>>)
    requires forall i :: 0 <= i < |runs| ==> runs[i].tile.Some?
    ensures Lift(Decode(Unwrap(runs))) == Decode(runs)
  {
    if runs != [] {
      var front, last := runs[..|runs| - 1], runs[|runs| - 1];
      assert Unwrap(runs)[..|runs| - 1] == Unwrap(front);
      DecodeUnwrap(front);
      var u := Unwrap(runs);
      assert Decode(u) == Decode(Unwrap(front)) + Expand(UnwrapRun(last));
      assert Lift(Decode(u)) == Lift(Decode(Unwrap(front))) + Lift(Expand(UnwrapRun(last)));
      assert Lift(Expand(UnwrapRun(last))) == Expand(last);
    }
  }

  lemma LiftIsInjective(s: seq<string>, t: seq<string>)
    requires Lift(s) == Lift(t)
    ensures s == t
  {
    assert |s| == |t|;
    forall i | 0 <= i < |s| ensures s[i] == t[i] {
      assert Lift(s)[i] == Lift(t)[i];
    }
  }

  /**
   * The script and the C# writer compress a submap alike: the script's
   * runs, read as strings, are exactly the runs of `SimplifyTerrain`.
   */
  lemma SameAsGeneratorCompression(terrain: seq<string>, py: seq<Run<Option<string>>>, cs: seq<Run<string>>)
    requires Decode(py) == Lift(terrain) && Canonical(py, false)
    requires forall i :: 0 <= i < |py| ==> py[i].tile.Some?
    requires Decode(cs) == terrain && Canonical(cs, false)
    ensures Unwrap(py) == cs
  {
    var u := Unwrap(py);
    DecodeUnwrap(py);
    LiftIsInjective(Decode(u), terrain);
    assert Canonical(u, false) by {
      forall i | 0 < i < |u| ensures u[i - 1].tile != u[i].tile {
        assert py[i - 1].tile != py[i].tile;
      }
      forall i | 0 <= i < |u| ensures WellFormedRun(u[i], false) {
        assert WellFormedRun(py[i], false);
      }
    }
    CanonicalIsUnique(u, cs, false);
  }

  /** The road raster: its size and the red channel of each pixel, row by row. */
  datatype RoadsImage = RoadsImage(width: int, height: int, red: seq<seq<int>>)

  predicate WellFormedImage(img: RoadsImage)
  {
    && 0 <= img.height == |img.red|
    && 0 <= img.width
    && forall y :: 0 <= y < |img.red| ==> |img.red[y]| == img.width
  }

  /** The tile of absolute position `tileAbspos`: pavement where the pixel is inside the raster and its red is 0. */
  function TileTypeAt(img: RoadsImage, mapTopLeftAbspos: Point, tileAbspos: Point): (name: string)
    requires WellFormedImage(img)
    ensures name == TILE_TYPE_ROAD || name == TILE_TYPE_DEFAULT
    ensures var x, y := tileAbspos.x - mapTopLeftAbspos.x, tileAbspos.y - mapTopLeftAbspos.y;
      name == TILE_TYPE_ROAD <==> 0 <= x < img.width && 0 <= y < img.height && img.red[y][x] == 0
  {
    var pixelPos := Point(tileAbspos.x - mapTopLeftAbspos.x, tileAbspos.y - mapTopLeftAbspos.y);
    if 0 <= pixelPos.x < img.width && 0 <= pixelPos.y < img.height && img.red[pixelPos.y][pixelPos.x] == 0
    then TILE_TYPE_ROAD
    else TILE_TYPE_DEFAULT
  }

  /** The 144 tiles of a submap, entry `12 * x + y` for in-submap position (y, x). */
  predicate ListsSubmapTiles(names: seq<string>, img: RoadsImage, mapTopLeftAbspos: Point,
                             submap4xFile: Point, submapIdx: Point)
    requires WellFormedImage(img)
  {
    && |names| == SUBMAP_SIZE * SUBMAP_SIZE
    && forall x, y :: 0 <= x < SUBMAP_SIZE && 0 <= y < SUBMAP_SIZE ==>
         names[SUBMAP_SIZE * x + y] == TileTypeAt(img, mapTopLeftAbspos, GetAbspos(submap4xFile, submapIdx, Point(y, x)))
  }

  /**
   * `get_sumap_terrain`: outer loop over the submap-tile X, inner over Y,
   * the two reversed when the position is built.
   */
  method GetSumapTerrain(img: RoadsImage, mapTopLeftAbspos: Point, submap4xFile: Point, submapIdx: Point)
    returns (terrain: seq<string>)
    requires WellFormedImage(img)
    ensures ListsSubmapTiles(terrain, img, mapTopLeftAbspos, submap4xFile, submapIdx)
  {
    terrain := [];
    for submapTileX := 0 to SUBMAP_SIZE
      invariant |terrain| == SUBMAP_SIZE * submapTileX
      invariant forall k :: 0 <= k < |terrain| ==>
        terrain[k] == TileTypeAt(img, mapTopLeftAbspos, GetAbspos(submap4xFile, submapIdx, Point(k % SUBMAP_SIZE, k / SUBMAP_SIZE)))
    {
      for submapTileY := 0 to SUBMAP_SIZE
        invariant |terrain| == SUBMAP_SIZE * submapTileX + submapTileY
        invariant forall k :: 0 <= k < |terrain| ==>
          terrain[k] == TileTypeAt(img, mapTopLeftAbspos, GetAbspos(submap4xFile, submapIdx, Point(k % SUBMAP_SIZE, k / SUBMAP_SIZE)))
      {
        // reversed X and Y
        var tileAbspos := GetAbspos(submap4xFile, submapIdx, Point(submapTileY, submapTileX));
        terrain := terrain + [TileTypeAt(img, mapTopLeftAbspos, tileAbspos)];
      }
    }
    forall x, y | 0 <= x < SUBMAP_SIZE && 0 <= y < SUBMAP_SIZE
      ensures terrain[SUBMAP_SIZE * x + y] == TileTypeAt(img, mapTopLeftAbspos, GetAbspos(submap4xFile, submapIdx, Point(y, x)))
    {
      var k := SUBMAP_SIZE * x + y;
      assert k % SUBMAP_SIZE == y && k / SUBMAP_SIZE == x;
    }
  }

  /** The script's submap: `create_submap` with its coordinates and compressed terrain filled in. */
  datatype PySubmap = PySubmap(
    version: int,
    coordinates: seq<int>,
    turnLastTouched: int,
    temperature: int,
    terrain: seq<Run<Option<string>>>,
    radiation: seq<int>,
    emptyLists: seq<string>)

  /**
   * `get_sumap`: the submap's global coordinates `[2 * file + idx, ..., 0]`
   * and its compressed tiles; the other fields are `create_submap`'s.
   */
  method GetSumap(img: RoadsImage, mapTopLeftAbspos: Point, submap4xFile: Point, submapIdx: Point)
    returns (submap: PySubmap)
    requires WellFormedImage(img)
    ensures submap.coordinates == [2 * submap4xFile.x + submapIdx.x, 2 * submap4xFile.y + submapIdx.y, 0]
    ensures (submapIdx.x == 0 || submapIdx.x == 1) && (submapIdx.y == 0 || submapIdx.y == 1) ==>
      && submap.coordinates[0] / 2 == submap4xFile.x && submap.coordinates[0] % 2 == submapIdx.x
      && submap.coordinates[1] / 2 == submap4xFile.y && submap.coordinates[1] % 2 == submapIdx.y
    ensures submap.version == CddaSave.SAVE_VERSION && submap.turnLastTouched == 1 && submap.temperature == 0
    ensures submap.radiation == [0, 144] && submap.emptyLists == CddaSave.SUBMAP_EMPTY_LISTS
    ensures exists names :: ListsSubmapTiles(names, img, mapTopLeftAbspos, submap4xFile, submapIdx)
                            && Decode(submap.terrain) == Lift(names)
    ensures Canonical(submap.terrain, false)
  {
    var terrain := GetSumapTerrain(img, mapTopLeftAbspos, submap4xFile, submapIdx);
    var simplified := SimplifyTerrain(terrain);
    submap := PySubmap(
      CddaSave.SAVE_VERSION,
      [(submap4xFile.x * 2) + submapIdx.x, (submap4xFile.y * 2) + submapIdx.y, 0],
      1, 0, simplified, [0, 144], CddaSave.SUBMAP_EMPTY_LISTS);
    assert ListsSubmapTiles(terrain, img, mapTopLeftAbspos, submap4xFile, submapIdx);
  }
}
