/**
 * The save writer: it places the generated map in the world, sized in
 * whole overmap regions and centred on a region boundary, picks the
 * player's spawn and patches the main save file. File contents are
 * returned as values; nothing is written.
 */
module CddaSave {
  import opened Wrappers
  import MathExt
  import opened Json
  import opened CddaMap
  import opened TileCoords
  import opened PlayerCoords
  import opened MapGen
  import opened Terrain
  import opened RunLength

  const SAVE_VERSION: int := 33
  const EMPTY_SEEN_DATA_COUNT: int := 21
  /** Overmap tiles in one layer of an overmap region: 180 by 180. */
  const OVERMAP_REGION_LAYER_SIZE: int := 32400

  const OVERTILE_REGION_X_KEY: string := "om_x"
  const OVERTILE_REGION_Y_KEY: string := "om_y"
  const LEVX_KEY: string := "levx"
  const LEVY_KEY: string := "levy"
  const PLAYER_KEY: string := "player"
  const PLAYER_POSX_KEY: string := "posx"
  const PLAYER_POSY_KEY: string := "posy"
  const ACTIVE_MONSTERS_KEY: string := "active_monsters"
  const STAIR_MONSTERS_KEY: string := "stair_monsters"

  /** `TILE_PER_TERRAIN`: the save name of a map tile's terrain. */
  function TilePerTerrain(t: TerrainType): string
  {
    match t
    case Default => "t_grass"
    case DeepMovWater => "t_water_moving_dp"
    case Pavement => "t_pavement"
    case ConcreteFloor => "t_concrete"
    case DirtFloor => "t_dirt"
    case Wall => "t_concrete_wall"
    case HouseFloor => "t_thconc_floor"
    case Grass => "t_grass"
    case GrassLong => "t_grass_long"
    case Sidewalk => "t_sidewalk"
  }

  /**
   * The table is total, `Default` and `Grass` share `t_grass`, and no
   * other two terrain types share a name.
   */
  lemma TilePerTerrainSharesOnlyGrass(t1: TerrainType, t2: TerrainType)
    ensures TilePerTerrain(TerrainType.Default) == TilePerTerrain(TerrainType.Grass) == "t_grass"
    ensures t1 != t2 && TilePerTerrain(t1) == TilePerTerrain(t2) ==>
      {t1, t2} == {TerrainType.Default, TerrainType.Grass}
  {
  }

  /**
   * `Math.Ceiling(mapSize / OVERMAP_REGION_SIZE)` halved and truncated, in
   * tiles: the region boundary the map is centred on.
   */
  function MapCenterAbsPos(mapSize: int): (c: int)
    requires mapSize >= 0
    ensures c >= 0 && c % OVERMAP_REGION_SIZE == 0
    ensures 2 * c <= mapSize + OVERMAP_REGION_SIZE
  {
    var wholeRegions := (mapSize + OVERMAP_REGION_SIZE - 1) / OVERMAP_REGION_SIZE;
    (wholeRegions / 2) * OVERMAP_REGION_SIZE
  }

  /**
   * `toMapTopLeftAbsPos`: with an even number of overmap tiles the map's
   * middle is the centre; otherwise the middle overmap tile starts at it.
   * The single-precision quotients are taken as exact.
   */
  function ToMapTopLeftAbsPos(mapSize: int): (tl: int)
    requires mapSize >= 0
  {
    var mapCenterAbsPos := MapCenterAbsPos(mapSize);
    if mapSize % (2 * OVERMAP_TILE_SIZE) == 0 then mapCenterAbsPos - mapSize / 2
    else mapCenterAbsPos - OVERMAP_TILE_SIZE * (mapSize / OVERMAP_TILE_SIZE - 1) / 2
  }

  /**
   * For a map of whole overmap tiles: the top-left corner is the start of
   * an overmap tile, and the map is centred on the region boundary (its
   * middle, or the start of its middle tile).
   */
  lemma TopLeftIsCentredAndAligned(mapSize: int)
    requires mapSize >= 0 && mapSize % OVERMAP_TILE_SIZE == 0
    ensures ToMapTopLeftAbsPos(mapSize) % OVERMAP_TILE_SIZE == 0
    ensures (mapSize / OVERMAP_TILE_SIZE) % 2 == 0 ==>
      ToMapTopLeftAbsPos(mapSize) + mapSize / 2 == MapCenterAbsPos(mapSize)
    ensures (mapSize / OVERMAP_TILE_SIZE) % 2 == 1 ==>
      ToMapTopLeftAbsPos(mapSize) + OVERMAP_TILE_SIZE * (mapSize / OVERMAP_TILE_SIZE / 2) == MapCenterAbsPos(mapSize)
    ensures AxisOf(ToMapTopLeftAbsPos(mapSize)).relPosInSubmap == 0
    ensures AxisOf(ToMapTopLeftAbsPos(mapSize)).submapIdx == 0
  {
    var k := mapSize / OVERMAP_TILE_SIZE;
    var c, tl := MapCenterAbsPos(mapSize), ToMapTopLeftAbsPos(mapSize);
    TopLeftOffset(mapSize);
    var m := c / OVERMAP_REGION_SIZE;
    assert c == OVERMAP_REGION_SIZE * m;
    assert tl == OVERMAP_TILE_SIZE * (OVERMAP_TILES_PER_REGION * m - k / 2);
    MathExt.DivModUnique(tl, OVERMAP_TILE_SIZE, OVERMAP_TILES_PER_REGION * m - k / 2, 0);
    if k % 2 == 0 {
      assert mapSize / 2 == OVERMAP_TILE_SIZE * (k / 2);
    }
    AlignedPositions(tl);
  }

  /** Both branches put the top-left corner half the map's overmap tiles, rounded down, before the centre. */
  lemma TopLeftOffset(mapSize: int)
    requires mapSize >= 0 && mapSize % OVERMAP_TILE_SIZE == 0
    ensures ToMapTopLeftAbsPos(mapSize) == MapCenterAbsPos(mapSize) - OVERMAP_TILE_SIZE * ((mapSize / OVERMAP_TILE_SIZE) / 2)
  {
    var k := mapSize / OVERMAP_TILE_SIZE;
    assert mapSize == OVERMAP_TILE_SIZE * k;
    if k % 2 == 0 {
      assert mapSize % (2 * OVERMAP_TILE_SIZE) == 0;
    } else {
      assert mapSize % (2 * OVERMAP_TILE_SIZE) != 0;
    }
  }

  /** One submap of a tile file, as written: the list fields that are always empty are named in `emptyLists`. */
  datatype Submap = Submap(
    version: int,
    coordinates: seq<int>,
    turnLastTouched: int,
    temperature: int,
    terrain: seq<Run<string>>,
    radiation: seq<int>,
    emptyLists: seq<string>)

  const SUBMAP_EMPTY_LISTS: seq<string> :=
    ["furniture", "items", "traps", "fields", "cosmetics", "spawns", "vehicles", "partial_constructions"]

  /** `toSubmapCoord`: the global submap index of half `submapIdx` of overmap tile file `overmapTileFile`. */
  function ToSubmapCoord(overmapTileFile: int, submapIdx: int): (c: int)
    ensures submapIdx == 0 || submapIdx == 1 ==> c / 2 == overmapTileFile && c % 2 == submapIdx
  {
    overmapTileFile * 2 + submapIdx
  }

  /** `GetAbsPosComponent`: the inverse of the addressing, file, half and offset back to a position. */
  function GetAbsPosComponent(overmapTileFile: int, submapIdx: int, relPosInSubmap: int): int
  {
    relPosInSubmap + overmapTileFile * OVERMAP_TILE_SIZE + submapIdx * SUBMAP_SIZE
  }

  function GetAbsPos(overmapTileFile: Point, submapIdx: Point, relPosInSubmap: Point): Point
  {
    Point(GetAbsPosComponent(overmapTileFile.x, submapIdx.x, relPosInSubmap.x),
          GetAbsPosComponent(overmapTileFile.y, submapIdx.y, relPosInSubmap.y))
  }

  /** Addressing a position and composing it back gives the position; composing valid parts and addressing gives the parts. */
  lemma AbsPosRoundTrip(a: int, overmapTileFile: int, submapIdx: int, relPosInSubmap: int)
    ensures var c := AxisOf(a); GetAbsPosComponent(c.overmapTile, c.submapIdx, c.relPosInSubmap) == a
    ensures (submapIdx == 0 || submapIdx == 1) && 0 <= relPosInSubmap < SUBMAP_SIZE ==>
      var c := AxisOf(GetAbsPosComponent(overmapTileFile, submapIdx, relPosInSubmap));
      c.overmapTile == overmapTileFile && c.submapIdx == submapIdx && c.relPosInSubmap == relPosInSubmap
  {
    if (submapIdx == 0 || submapIdx == 1) && 0 <= relPosInSubmap < SUBMAP_SIZE {
      var b := GetAbsPosComponent(overmapTileFile, submapIdx, relPosInSubmap);
      var c := AxisOf(b);
      var d := AxisCoords(ToOvermapRegion(b), ToSegment(b), overmapTileFile, submapIdx, relPosInSubmap);
      assert Decomposes(b, d);
      DecompositionIsUnique(b, d);
    }
  }

  /** The two example tile files of the source's comments. */
  lemma SubmapCoordExamples()
    ensures [ToSubmapCoord(99, 0), ToSubmapCoord(557, 0)] == [198, 1114]
    ensures [ToSubmapCoord(99, 1), ToSubmapCoord(557, 1)] == [199, 1115]
    ensures [ToSubmapCoord(36, 0), ToSubmapCoord(546, 1)] == [72, 1093]
  {
  }

  /** The placeholder `o.0.0` overmap and the seen files: fixed layer stacks. */
  datatype OvermapFile = OvermapFile(layers: seq<seq<Run<string>>>, regionId: string)
  datatype SeenFile = SeenFile(visible: seq<seq<Run<bool>>>, explored: seq<seq<Run<bool>>>,
                               notes: seq<seq<int>>, extras: seq<seq<int>>)

  function SingleRunLayer<T>(t: T): seq<Run<T>>
  {
    [Counted(t, OVERMAP_REGION_LAYER_SIZE)]
  }

  function RepeatLayer<T>(layer: T, n: nat): (s: seq<T>)
    ensures |s| == n && forall i :: 0 <= i < n ==> s[i] == layer
  {
    seq(n, _ => layer)
  }

  /**
   * `WriteOvermapFiles` of the older writer: 10 layers of `empty_rock`, the
   * ground level all `field`, 10 layers of `open_air`, each one run of 32400.
   */
  function EmptyOvermap(): (f: OvermapFile)
    ensures |f.layers| == 21 && f.regionId == "default"
    ensures forall i :: 0 <= i < 21 ==>
      Decode(f.layers[i]) == Repeat(if i < 10 then "empty_rock" else if i == 10 then "field" else "open_air", 32400)
  {
    var f := OvermapFile(
      RepeatLayer(SingleRunLayer("empty_rock"), 10) + [SingleRunLayer("field")] + RepeatLayer(SingleRunLayer("open_air"), 10),
      "default");
    assert forall t: string :: Decode(SingleRunLayer(t)) == Repeat(t, 32400) by {
      forall t: string ensures Decode(SingleRunLayer(t)) == Repeat(t, 32400) {
        assert SingleRunLayer(t)[..0] == [];
      }
    }
    f
  }

  /** `WriteSeen00`: 21 all-unseen and all-unexplored layers, and 21 empty note and extra lists. */
  function EmptySeen(): (f: SeenFile)
    ensures |f.visible| == |f.explored| == |f.notes| == |f.extras| == EMPTY_SEEN_DATA_COUNT
    ensures forall i :: 0 <= i < EMPTY_SEEN_DATA_COUNT ==>
      && Decode(f.visible[i]) == Repeat(false, 32400) && Decode(f.explored[i]) == Repeat(false, 32400)
      && f.notes[i] == [] && f.extras[i] == []
  {
    var allFalse := SingleRunLayer(false);
    assert allFalse[..0] == [];
    SeenFile(RepeatLayer(allFalse, EMPTY_SEEN_DATA_COUNT), RepeatLayer(allFalse, EMPTY_SEEN_DATA_COUNT),
             RepeatLayer([], EMPTY_SEEN_DATA_COUNT), RepeatLayer([], EMPTY_SEEN_DATA_COUNT))
  }

  /** The top-level keys `WriteMainSave` sets. */
  const PATCHED_KEYS: set<string> :=
    {ACTIVE_MONSTERS_KEY, STAIR_MONSTERS_KEY, OVERTILE_REGION_X_KEY, OVERTILE_REGION_Y_KEY, LEVX_KEY, LEVY_KEY, PLAYER_KEY}

  /**
   * `WriteMainSave`: empties the monster lists and writes the player's
   * placement into the parsed main save. Setting the position fails, as the
   * indexer of a missing or non-object `player` throws, unless `player` is
   * an object.
   */
  method WriteMainSave(mainSaveData: map<string, Json>, playerSpawnCoord: PlayerCoords)
    returns (r: Result<map<string, Json>, string>)
    ensures r.Ok? <==> PLAYER_KEY in mainSaveData && mainSaveData[PLAYER_KEY].JObject?
    ensures r.Ok? ==> r.value.Keys == mainSaveData.Keys + PATCHED_KEYS
    ensures r.Ok? ==> forall k :: k in mainSaveData && k !in PATCHED_KEYS ==> r.value[k] == mainSaveData[k]
    ensures r.Ok? ==>
      && r.value[ACTIVE_MONSTERS_KEY] == JArray([]) && r.value[STAIR_MONSTERS_KEY] == JArray([])
      && r.value[OVERTILE_REGION_X_KEY] == JNumber(playerSpawnCoord.overmapRegion.x)
      && r.value[OVERTILE_REGION_Y_KEY] == JNumber(playerSpawnCoord.overmapRegion.y)
      && r.value[LEVX_KEY] == JNumber(playerSpawnCoord.savegameLev.x)
      && r.value[LEVY_KEY] == JNumber(playerSpawnCoord.savegameLev.y)
    ensures r.Ok? ==>
      var oldPlayer, player := mainSaveData[PLAYER_KEY], r.value[PLAYER_KEY];
      && player.JObject?
      && player.fields.Keys == oldPlayer.fields.Keys + {PLAYER_POSX_KEY, PLAYER_POSY_KEY}
      && player.fields[PLAYER_POSX_KEY] == JNumber(playerSpawnCoord.savegamePos.x)
      && player.fields[PLAYER_POSY_KEY] == JNumber(playerSpawnCoord.savegamePos.y)
      && forall k :: k in oldPlayer.fields && k != PLAYER_POSX_KEY && k != PLAYER_POSY_KEY ==>
           player.fields[k] == oldPlayer.fields[k]
  {
    var data := mainSaveData;
    data := data[ACTIVE_MONSTERS_KEY := JArray([])];
    data := data[STAIR_MONSTERS_KEY := JArray([])];
    data := data[OVERTILE_REGION_X_KEY := JNumber(playerSpawnCoord.overmapRegion.x)];
    data := data[OVERTILE_REGION_Y_KEY := JNumber(playerSpawnCoord.overmapRegion.y)];
    data := data[LEVX_KEY := JNumber(playerSpawnCoord.savegameLev.x)];
    data := data[LEVY_KEY := JNumber(playerSpawnCoord.savegameLev.y)];
    if PLAYER_KEY !in data || !data[PLAYER_KEY].JObject? {
      return Err("player is not an object");
    }
    var player := data[PLAYER_KEY].fields;
    player := player[PLAYER_POSX_KEY := JNumber(playerSpawnCoord.savegamePos.x)];
    player := player[PLAYER_POSY_KEY := JNumber(playerSpawnCoord.savegamePos.y)];
    data := data[PLAYER_KEY := JObject(player)];
    r := Ok(data);
  }

  /**
   * The generator of one save: the raster-side generator it reads, the
   * save's id, and the absolute position of the map's top-left pixel.
   */
  class CddaGenerator {
    const mapGen: MapGenerator
    const saveId: string
    var mapTopLeftAbsPos: Point

    constructor (mapGen: MapGenerator, saveId: string)
      ensures this.mapGen == mapGen && this.saveId == saveId
      ensures mapTopLeftAbsPos == Point(0, 0)
    {
      this.mapGen := mapGen;
      this.saveId := saveId;
      mapTopLeftAbsPos := Point(0, 0);
    }

    /**
     * `SetMapTopLeftAbsPos`. Both coordinates are computed from the map's
     * width, as in the source, so they are always equal.
     */
    method SetMapTopLeftAbsPos()
      requires mapGen.Valid()
      modifies this
      ensures mapTopLeftAbsPos.x == mapTopLeftAbsPos.y == ToMapTopLeftAbsPos(mapGen.mapSize.width)
    {
      var w := mapGen.mapImage.Length0;
      mapTopLeftAbsPos := Point(ToMapTopLeftAbsPos(w), ToMapTopLeftAbsPos(w));
    }

    /** `GetAbsPosFromRelMapPos`: a pixel of the map to its absolute position. */
    function GetAbsPosFromRelMapPos(relpos: Point): (a: Point)
      reads this
      ensures a.x - relpos.x == mapTopLeftAbsPos.x && a.y - relpos.y == mapTopLeftAbsPos.y
    {
      Point(relpos.x + mapTopLeftAbsPos.x, relpos.y + mapTopLeftAbsPos.y)
    }

    /** The coordinates of the map's top-left and bottom-right pixels. */
    function MapTopLeftCoords(): (c: TileCoords)
      reads this
      ensures c.abspos == mapTopLeftAbsPos
    {
      NewTileCoords(GetAbsPosFromRelMapPos(Point(0, 0)))
    }

    function MapBotRghtCoords(): (c: TileCoords)
      requires mapGen.Valid()
      reads this
      ensures c.abspos == Point(mapTopLeftAbsPos.x + mapGen.mapSize.width - 1, mapTopLeftAbsPos.y + mapGen.mapSize.height - 1)
    {
      NewTileCoords(GetAbsPosFromRelMapPos(Point(mapGen.mapSize.width - 1, mapGen.mapSize.height - 1)))
    }

    /**
     * `GetSpawnCoords`: the given spawn pixel, or the map's middle pixel, as
     * a save placement.
     */
    function GetSpawnCoords(spawnAbsPos: Option<Point>): (p: PlayerCoords)
      requires mapGen.Valid()
      reads this
      ensures var rel := if spawnAbsPos.Some? then spawnAbsPos.value
                        else Point(mapGen.mapSize.width / 2, mapGen.mapSize.height / 2);
        && p.abspos == Point(rel.x + mapTopLeftAbsPos.x, rel.y + mapTopLeftAbsPos.y)
        && p == NewPlayerCoords(p.abspos)
    {
      var spawn := if spawnAbsPos.Some? then spawnAbsPos.value
                   else Point(mapGen.mapSize.width / 2, mapGen.mapSize.height / 2);
      NewPlayerCoords(GetAbsPosFromRelMapPos(spawn))
    }
  }
}
