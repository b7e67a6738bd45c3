/**
 * The overmap region files of a save: for each region the map overlaps, an
 * `o.{x}.{y}` file stacking 10 rock layers, the ground level and 10 air
 * layers, and a `{saveId}.seen.{x}.{y}` file marking nothing seen; the file
 * names and the patterns that recognise old files.
 */
module CddaOvermap {
  import opened Wrappers
  import opened CddaMap
  import opened TileCoords
  import opened EnumExt
  import opened Terrain
  import opened MapGen
  import opened RunLength
  import opened DecimalString
  import opened CddaSave

  const OVERMAP_REGION_LAYERS_BELOW_0: nat := 10
  const OVERMAP_REGION_LAYERS_ABOVE_0: nat := 10
  const OVERMAP_TILE_ROCK_VALUE: string := "empty_rock"
  const OVERMAP_TILE_AIR_VALUE: string := "open_air"
  /** The region id written into region files; its definition is not part of this model (the older writer used "default"). */
  const OVERMAP_REGION_FILE_REGION_ID_VALUE: string := "default"

  /** `OVERMAP_TILE_PER_TERRAIN`: the save name of an overmap tile's terrain. */
  function OvermapTilePerTerrain(t: OvermapTerrainType): string
  {
    match t
    case Default => "field"
    case Water => "lake_surface"
    case Water100Percent => "lake_surface"
    case HouseDefault => "house_01_north"
    case RoadNorth => "road_end_north"
    case RoadSouth => "road_end_south"
    case RoadWest => "road_end_west"
    case RoadEast => "road_end_east"
    case RoadNorthEast => "road_ne"
    case RoadNorthSouth => "road_ns"
    case RoadSouthWest => "road_sw"
    case RoadEastSouth => "road_es"
    case RoadEastWest => "road_ew"
    case RoadWestNorth => "road_wn"
    case RoadNorthEastSouth => "road_nes"
    case RoadNorthEastWest => "road_new"
    case RoadNorthSouthWest => "road_nsw"
    case RoadEastSouthWest => "road_esw"
    case RoadNorthEastSouthWest => "road_nesw"
    case ForestTrailNorth => "forest_trail_end_north"
    case ForestTrailSouth => "forest_trail_end_south"
    case ForestTrailWest => "forest_trail_end_west"
    case ForestTrailEast => "forest_trail_end_east"
    case ForestTrailNorthEast => "forest_trail_ne"
    case ForestTrailNorthSouth => "forest_trail_ns"
    case ForestTrailSouthWest => "forest_trail_sw"
    case ForestTrailEastSouth => "forest_trail_es"
    case ForestTrailEastWest => "forest_trail_ew"
    case ForestTrailWestNorth => "forest_trail_wn"
    case ForestTrailNorthEastSouth => "forest_trail_nes"
    case ForestTrailNorthEastWest => "forest_trail_new"
    case ForestTrailNorthSouthWest => "forest_trail_nsw"
    case ForestTrailEastSouthWest => "forest_trail_esw"
    case ForestTrailNorthEastSouthWest => "forest_trail_nesw"
  }

  /** The table read backwards, with `lake_surface` read as `Water`. */
  function OvermapTerrainOfTile(name: string): Option<OvermapTerrainType>
  {
    match name
    case "field" => Some(OvermapTerrainType.Default)
    case "lake_surface" => Some(OvermapTerrainType.Water)
    case "house_01_north" => Some(OvermapTerrainType.HouseDefault)
    case "road_end_north" => Some(OvermapTerrainType.RoadNorth)
    case "road_end_south" => Some(OvermapTerrainType.RoadSouth)
    case "road_end_west" => Some(OvermapTerrainType.RoadWest)
    case "road_end_east" => Some(OvermapTerrainType.RoadEast)
    case "road_ne" => Some(OvermapTerrainType.RoadNorthEast)
    case "road_ns" => Some(OvermapTerrainType.RoadNorthSouth)
    case "road_sw" => Some(OvermapTerrainType.RoadSouthWest)
    case "road_es" => Some(OvermapTerrainType.RoadEastSouth)
    case "road_ew" => Some(OvermapTerrainType.RoadEastWest)
    case "road_wn" => Some(OvermapTerrainType.RoadWestNorth)
    case "road_nes" => Some(OvermapTerrainType.RoadNorthEastSouth)
    case "road_new" => Some(OvermapTerrainType.RoadNorthEastWest)
    case "road_nsw" => Some(OvermapTerrainType.RoadNorthSouthWest)
    case "road_esw" => Some(OvermapTerrainType.RoadEastSouthWest)
    case "road_nesw" => Some(OvermapTerrainType.RoadNorthEastSouthWest)
    case "forest_trail_end_north" => Some(OvermapTerrainType.ForestTrailNorth)
    case "forest_trail_end_south" => Some(OvermapTerrainType.ForestTrailSouth)
    case "forest_trail_end_west" => Some(OvermapTerrainType.ForestTrailWest)
    case "forest_trail_end_east" => Some(OvermapTerrainType.ForestTrailEast)
    case "forest_trail_ne" => Some(OvermapTerrainType.ForestTrailNorthEast)
    case "forest_trail_ns" => Some(OvermapTerrainType.ForestTrailNorthSouth)
    case "forest_trail_sw" => Some(OvermapTerrainType.ForestTrailSouthWest)
    case "forest_trail_es" => Some(OvermapTerrainType.ForestTrailEastSouth)
    case "forest_trail_ew" => Some(OvermapTerrainType.ForestTrailEastWest)
    case "forest_trail_wn" => Some(OvermapTerrainType.ForestTrailWestNorth)
    case "forest_trail_nes" => Some(OvermapTerrainType.ForestTrailNorthEastSouth)
    case "forest_trail_new" => Some(OvermapTerrainType.ForestTrailNorthEastWest)
    case "forest_trail_nsw" => Some(OvermapTerrainType.ForestTrailNorthSouthWest)
    case "forest_trail_esw" => Some(OvermapTerrainType.ForestTrailEastSouthWest)
    case "forest_trail_nesw" => Some(OvermapTerrainType.ForestTrailNorthEastSouthWest)
    case _ => None
  }

  lemma OvermapTerrainOfTileInverts(t: OvermapTerrainType)
    ensures t != OvermapTerrainType.Water100Percent ==> OvermapTerrainOfTile(OvermapTilePerTerrain(t)) == Some(t)
  {
    RoadEndsInvert(t);
    RoadTwoWayInvert(t);
    RoadJunctionsInvert(t);
    ForestTrailEndsInvert(t);
    ForestTrailTwoWayInvert(t);
    ForestTrailJunctionsInvert(t);
  }

  lemma RoadEndsInvert(t: OvermapTerrainType)
    ensures t in {OvermapTerrainType.RoadNorth, OvermapTerrainType.RoadSouth, OvermapTerrainType.RoadWest,
                  OvermapTerrainType.RoadEast} ==>
      OvermapTerrainOfTile(OvermapTilePerTerrain(t)) == Some(t)
  {
  }

  lemma RoadTwoWayInvert(t: OvermapTerrainType)
    ensures t in {OvermapTerrainType.RoadNorthEast, OvermapTerrainType.RoadNorthSouth,
                  OvermapTerrainType.RoadSouthWest, OvermapTerrainType.RoadEastSouth,
                  OvermapTerrainType.RoadEastWest, OvermapTerrainType.RoadWestNorth} ==>
      OvermapTerrainOfTile(OvermapTilePerTerrain(t)) == Some(t)
  {
  }

  lemma RoadJunctionsInvert(t: OvermapTerrainType)
    ensures t in {OvermapTerrainType.RoadNorthEastSouth, OvermapTerrainType.RoadNorthEastWest,
                  OvermapTerrainType.RoadNorthSouthWest, OvermapTerrainType.RoadEastSouthWest,
                  OvermapTerrainType.RoadNorthEastSouthWest} ==>
      OvermapTerrainOfTile(OvermapTilePerTerrain(t)) == Some(t)
  {
  }

  lemma ForestTrailEndsInvert(t: OvermapTerrainType)
    ensures t in {OvermapTerrainType.ForestTrailNorth, OvermapTerrainType.ForestTrailSouth,
                  OvermapTerrainType.ForestTrailWest, OvermapTerrainType.ForestTrailEast} ==>
      OvermapTerrainOfTile(OvermapTilePerTerrain(t)) == Some(t)
  {
  }

  lemma ForestTrailTwoWayInvert(t: OvermapTerrainType)
    ensures t in {OvermapTerrainType.ForestTrailNorthEast, OvermapTerrainType.ForestTrailNorthSouth,
                  OvermapTerrainType.ForestTrailSouthWest, OvermapTerrainType.ForestTrailEastSouth,
                  OvermapTerrainType.ForestTrailEastWest, OvermapTerrainType.ForestTrailWestNorth} ==>
      OvermapTerrainOfTile(OvermapTilePerTerrain(t)) == Some(t)
  {
  }

  lemma ForestTrailJunctionsInvert(t: OvermapTerrainType)
    ensures t in {OvermapTerrainType.ForestTrailNorthEastSouth, OvermapTerrainType.ForestTrailNorthEastWest,
                  OvermapTerrainType.ForestTrailNorthSouthWest,
                  OvermapTerrainType.ForestTrailEastSouthWest,
                  OvermapTerrainType.ForestTrailNorthEastSouthWest} ==>
      OvermapTerrainOfTile(OvermapTilePerTerrain(t)) == Some(t)
  {
  }

  /**
   * The table is total, both water levels are written as `lake_surface`,
   * and no other two overmap terrains share a name.
   */
  lemma OvermapTilePerTerrainSharesOnlyWater(t1: OvermapTerrainType, t2: OvermapTerrainType)
    ensures OvermapTilePerTerrain(OvermapTerrainType.Water) == OvermapTilePerTerrain(OvermapTerrainType.Water100Percent) == "lake_surface"
    ensures t1 != t2 && OvermapTilePerTerrain(t1) == OvermapTilePerTerrain(t2) ==>
      {t1, t2} == {OvermapTerrainType.Water, OvermapTerrainType.Water100Percent}
  {
    OvermapTerrainOfTileInverts(t1);
    OvermapTerrainOfTileInverts(t2);
  }

  /** `GET_OVERMAP_REGION_FILE`. */
  function OvermapRegionFileName(overmapRegion: Point): string
  {
    "o." + IntToString(overmapRegion.x) + "." + IntToString(overmapRegion.y)
  }

  /** `GET_OVERMAP_REGION_SEEN_FILE`. */
  function OvermapRegionSeenFileName(saveId: string, overmapRegion: Point): string
  {
    saveId + ".seen." + IntToString(overmapRegion.x) + "." + IntToString(overmapRegion.y)
  }

  /** `s` is `prefix`, then `-?\d+`, a `.`, and `-?\d+` to its end. */
  predicate MatchesCoordinatePair(s: string, prefix: string)
  {
    && |s| >= |prefix| && s[..|prefix|] == prefix
    && exists k :: |prefix| <= k < |s| && s[k] == '.' && IsSignedDecimal(s[|prefix|..k]) && IsSignedDecimal(s[k + 1..])
  }

  /** `OVERMAP_FILES_REGEX`, `^o\.-?\d+\.-?\d+$`. */
  predicate MatchesOvermapFilesRegex(s: string)
  {
    MatchesCoordinatePair(s, "o.")
  }

  /** `OVERMAP_SEEN_FILES_REGEX`, `^saveGameId\.seen\.-?\d+\.-?\d+$`: a literal save id. */
  predicate MatchesOvermapSeenFilesRegex(s: string)
  {
    MatchesCoordinatePair(s, "saveGameId.seen.")
  }

  /** A prefix, two printed integers and a dot between them match the pair pattern. */
  lemma PrefixedPairMatches(prefix: string, x: int, y: int)
    ensures MatchesCoordinatePair(prefix + IntToString(x) + "." + IntToString(y), prefix)
  {
    DecimalPairMatches(prefix, IntToString(x), IntToString(y));
  }

  lemma DecimalPairMatches(prefix: string, a: string, b: string)
    requires IsSignedDecimal(a) && IsSignedDecimal(b)
    ensures MatchesCoordinatePair(prefix + a + "." + b, prefix)
  {
    var s := prefix + a + "." + b;
    var k := |prefix| + |a|;
    assert s == prefix + (a + ("." + b));
    assert s[..|prefix|] == prefix;
    assert s[|prefix|..] == a + ("." + b);
    assert s[|prefix|..k] == a;
    assert s[k] == '.';
    assert s[k + 1..] == b;
  }

  /** Every region file name, negative coordinates included, is recognised by the region pattern. */
  lemma RegionFileNameMatches(overmapRegion: Point)
    ensures MatchesOvermapFilesRegex(OvermapRegionFileName(overmapRegion))
  {
    PrefixedPairMatches("o.", overmapRegion.x, overmapRegion.y);
  }

  /** Distinct regions get distinct file names. */
  lemma RegionFileNameIsInjective(p: Point, q: Point)
    ensures OvermapRegionFileName(p) == OvermapRegionFileName(q) ==> p == q
  {
    if OvermapRegionFileName(p) == OvermapRegionFileName(q) {
      PairNamesAgree("o.", IntToString(p.x), IntToString(p.y), IntToString(q.x), IntToString(q.y));
      IntToStringIsInjective(p.x, q.x);
      IntToStringIsInjective(p.y, q.y);
    }
  }

  /** Splitting a name at its first `.` after the prefix recovers both numbers. */
  lemma PairNamesAgree(prefix: string, a: string, b: string, c: string, d: string)
    requires IsSignedDecimal(a) && IsSignedDecimal(b) && IsSignedDecimal(c) && IsSignedDecimal(d)
    requires prefix + a + "." + b == prefix + c + "." + d
    ensures a == c && b == d
  {
    var s := prefix + a + "." + b;
    var n := |prefix|;
    FirstDotAfterPrefix(prefix, a, b);
    FirstDotAfterPrefix(prefix, c, d);
    assert |a| == |c|;
    assert a == s[n..n + |a|] == c;
    assert b == s[n + |a| + 1..] == d;
  }

  /** In `prefix + a + "." + b`, the first `.` after the prefix is the separator. */
  lemma FirstDotAfterPrefix(prefix: string, a: string, b: string)
    requires IsSignedDecimal(a)
    ensures var s := prefix + a + "." + b;
      && s[|prefix| + |a|] == '.'
      && forall i :: |prefix| <= i < |prefix| + |a| ==> s[i] != '.'
  {
    var s := prefix + a + "." + b;
    forall i | |prefix| <= i < |prefix| + |a|
      ensures s[i] != '.'
    {
      assert s[i] == a[i - |prefix|];
      SignedDecimalHasNoDot(a, i - |prefix|);
    }
  }

  /** Characters a match of `-?\d+` can hold. */
  lemma SignedDecimalChars(s: string, i: int)
    requires IsSignedDecimal(s) && 0 <= i < |s|
    ensures IsDigit(s[i]) || s[i] == '-'
  {
    if !(|s| >= 1 && AllDigits(s)) && i > 0 {
      assert s[1..][i - 1] == s[i];
    }
  }

  /** After the prefix, a match holds only digits, `-` and `.`. */
  lemma MatchTailChars(s: string, prefix: string, i: int)
    requires MatchesCoordinatePair(s, prefix)
    requires |prefix| <= i < |s|
    ensures IsDigit(s[i]) || s[i] == '-' || s[i] == '.'
  {
    var k :| |prefix| <= k < |s| && s[k] == '.' && IsSignedDecimal(s[|prefix|..k]) && IsSignedDecimal(s[k + 1..]);
    if i < k {
      SignedDecimalChars(s[|prefix|..k], i - |prefix|);
    } else if i > k {
      SignedDecimalChars(s[k + 1..], i - k - 1);
    }
  }

  /**
   * The seen-file pattern has the save id spelt literally, so it recognises
   * the seen files of exactly one save id, `saveGameId`, whatever the
   * actual save is (as written).
   */
  lemma SeenFilesRegexMatchesOnlyLiteralSaveId(saveId: string, overmapRegion: Point)
    ensures MatchesOvermapSeenFilesRegex(OvermapRegionSeenFileName(saveId, overmapRegion)) <==> saveId == "saveGameId"
  {
    var a, b := IntToString(overmapRegion.x), IntToString(overmapRegion.y);
    var name := OvermapRegionSeenFileName(saveId, overmapRegion);
    SeenNameSplits(saveId, overmapRegion);
    if saveId == "saveGameId" {
      assert name == "saveGameId.seen." + a + "." + b;
      DecimalPairMatches("saveGameId.seen.", a, b);
    }
    if MatchesOvermapSeenFilesRegex(name) {
      assert name == saveId + ".seen." + (a + "." + b);
      LiteralPrefixForcesSaveId(saveId, a + "." + b);
    }
  }

  lemma SeenNameSplits(saveId: string, overmapRegion: Point)
    ensures OvermapRegionSeenFileName(saveId, overmapRegion)
      == saveId + ".seen." + (IntToString(overmapRegion.x) + "." + IntToString(overmapRegion.y))
      == (saveId + ".seen.") + IntToString(overmapRegion.x) + "." + IntToString(overmapRegion.y)
  {
  }

  /** A name `{saveId}.seen.{rest}` matching the literal pattern has save id `saveGameId`. */
  lemma LiteralPrefixForcesSaveId(saveId: string, rest: string)
    requires MatchesCoordinatePair(saveId + ".seen." + rest, "saveGameId.seen.")
    ensures saveId == "saveGameId"
  {
    var name := saveId + ".seen." + rest;
    var lit := "saveGameId.seen.";
    var n := |saveId|;
    assert name[n] == '.' && name[n + 4] == 'n';
    assert name[..16] == lit;
    assert n < 12 by {
      if n >= 12 {
        MatchTailChars(name, lit, n + 4);
      }
    }
    assert lit[n] == name[n] == '.';
    assert n == 10;
    assert saveId == name[..10] == lit[..10];
  }

  /** A region file: its region, name, 21 layers and region id. */
  datatype OvermapRegionFile = OvermapRegionFile(overmapRegion: Point, name: string,
                                                 layers: seq<seq<Run<string>>>, regionId: string)

  /**
   * The name written for absolute overmap tile `cell`: its terrain, or a
   * field outside the overmap.
   */
  function OvermapTileNameAt(mapGen: MapGenerator, cell: Point): string
    requires mapGen.Valid()
    reads mapGen.overmap
  {
    if 0 <= cell.x < mapGen.overmapSize.width && 0 <= cell.y < mapGen.overmapSize.height
    then OvermapTilePerTerrain(mapGen.overmap[cell.x, cell.y])
    else "field"
  }

  /**
   * The ground level of a region before compression: 32400 names, entry
   * `180 * y + x` for the region's overmap tile (x, y), counted from the
   * map's top-left overmap tile. X is the minor index and the overmap is
   * read as `Overmap[x, y]`: the two swaps of the source cancel.
   */
  predicate ListsRegionTiles(names: seq<string>, mapGen: MapGenerator, topLeftOvermapTile: Point, overmapRegion: Point)
    requires mapGen.Valid()
    reads mapGen.overmap
  {
    && |names| == OVERMAP_REGION_LAYER_SIZE
    && forall x, y :: 0 <= x < OVERMAP_TILES_PER_REGION && 0 <= y < OVERMAP_TILES_PER_REGION ==>
         names[OVERMAP_TILES_PER_REGION * y + x] == OvermapTileNameAt(mapGen, RegionCell(topLeftOvermapTile, overmapRegion, x, y))
  }

  function RegionCell(topLeftOvermapTile: Point, overmapRegion: Point, x: int, y: int): Point
  {
    Point(x + overmapRegion.x * OVERMAP_TILES_PER_REGION - topLeftOvermapTile.x,
          y + overmapRegion.y * OVERMAP_TILES_PER_REGION - topLeftOvermapTile.y)
  }

  /** `toAbsOvermapTile`. */
  function ToAbsOvermapTile(relOvermapTile: int, overmapRegion: int, topLeftOvermapTile: int): int
  {
    relOvermapTile + overmapRegion * OVERMAP_REGION_SIZE_IN_OVERMAP_TILES - topLeftOvermapTile
  }

  /** The ground-level loops of `WriteOvermapFile`: Y outer, X inner, the tile built swapped. */
  method RegionTileNames(mapGen: MapGenerator, topLeftOvermapTile: Point, overmapRegion: Point)
    returns (terrain: seq<string>)
    requires mapGen.Valid()
    ensures ListsRegionTiles(terrain, mapGen, topLeftOvermapTile, overmapRegion)
  {
    var n := OVERMAP_REGION_SIZE_IN_OVERMAP_TILES;
    terrain := [];
    for relOvermapTileY := 0 to n
      invariant |terrain| == n * relOvermapTileY
      invariant forall x, y :: 0 <= x < n && 0 <= y < relOvermapTileY ==>
        terrain[n * y + x] == OvermapTileNameAt(mapGen, RegionCell(topLeftOvermapTile, overmapRegion, x, y))
    {
      var row := RegionRowNames(mapGen, topLeftOvermapTile, overmapRegion, relOvermapTileY);
      ghost var before := terrain;
      terrain := terrain + row;
      forall x, y | 0 <= x < n && 0 <= y <= relOvermapTileY
        ensures terrain[n * y + x] == OvermapTileNameAt(mapGen, RegionCell(topLeftOvermapTile, overmapRegion, x, y))
      {
        if y < relOvermapTileY {
          assert terrain[n * y + x] == before[n * y + x];
        } else {
          assert terrain[n * y + x] == row[x];
        }
      }
    }
  }

  /** The inner loop: the names of row `relOvermapTileY` of the region, X increasing. */
  method RegionRowNames(mapGen: MapGenerator, topLeftOvermapTile: Point, overmapRegion: Point, relOvermapTileY: int)
    returns (row: seq<string>)
    requires mapGen.Valid()
    ensures |row| == OVERMAP_REGION_SIZE_IN_OVERMAP_TILES
    ensures forall x :: 0 <= x < |row| ==>
      row[x] == OvermapTileNameAt(mapGen, RegionCell(topLeftOvermapTile, overmapRegion, x, relOvermapTileY))
  {
    row := [];
    for relOvermapTileX := 0 to OVERMAP_REGION_SIZE_IN_OVERMAP_TILES
      invariant |row| == relOvermapTileX
      invariant forall x :: 0 <= x < |row| ==>
        row[x] == OvermapTileNameAt(mapGen, RegionCell(topLeftOvermapTile, overmapRegion, x, relOvermapTileY))
    {
      // reversed x <-> y
      var absOvermapTile := Point(
        ToAbsOvermapTile(relOvermapTileY, overmapRegion.y, topLeftOvermapTile.y),
        ToAbsOvermapTile(relOvermapTileX, overmapRegion.x, topLeftOvermapTile.x));
      var overmapTileType := OvermapTilePerTerrain(mapGen.GetOvermapTerrain(absOvermapTile));
      SwappedTerrainName(mapGen, absOvermapTile);
      assert RegionCell(topLeftOvermapTile, overmapRegion, relOvermapTileX, relOvermapTileY) == Point(absOvermapTile.y, absOvermapTile.x);
      row := row + [overmapTileType];
    }
  }

  /** Reading the overmap at a swapped position names the tile at the unswapped one. */
  lemma SwappedTerrainName(mapGen: MapGenerator, p: Point)
    requires mapGen.Valid()
    ensures OvermapTilePerTerrain(mapGen.GetOvermapTerrain(p)) == OvermapTileNameAt(mapGen, Point(p.y, p.x))
  {
  }

  /** The layer stack of a region: 10 rock layers, the ground level, 10 air layers. */
  function LayerStack(level0: seq<Run<string>>): (layers: seq<seq<Run<string>>>)
    ensures |layers| == OVERMAP_REGION_LAYERS_BELOW_0 + 1 + OVERMAP_REGION_LAYERS_ABOVE_0 == 21
    ensures layers[OVERMAP_REGION_LAYERS_BELOW_0] == level0
    ensures forall i :: 0 <= i < 21 && i != OVERMAP_REGION_LAYERS_BELOW_0 ==>
      Decode(layers[i]) == Repeat(if i < OVERMAP_REGION_LAYERS_BELOW_0 then OVERMAP_TILE_ROCK_VALUE else OVERMAP_TILE_AIR_VALUE,
                                  OVERMAP_REGION_LAYER_SIZE)
      && Canonical(layers[i], true)
  {
    var emptyRockArray := SingleRunLayer(OVERMAP_TILE_ROCK_VALUE);
    var openAirArray := SingleRunLayer(OVERMAP_TILE_AIR_VALUE);
    assert emptyRockArray[..0] == [] && openAirArray[..0] == [];
    RepeatLayer(emptyRockArray, OVERMAP_REGION_LAYERS_BELOW_0) + [level0] + RepeatLayer(openAirArray, OVERMAP_REGION_LAYERS_ABOVE_0)
  }

  /** The fields of the region file of `overmapRegion`, as `WriteOvermapFile` writes them. */
  predicate IsOvermapRegionFileOf(f: OvermapRegionFile, mapGen: MapGenerator, topLeftOvermapTile: Point)
    requires mapGen.Valid()
    reads mapGen.overmap
  {
    && f.name == OvermapRegionFileName(f.overmapRegion)
    && f.regionId == OVERMAP_REGION_FILE_REGION_ID_VALUE
    && |f.layers| == 21
    && f.layers == LayerStack(f.layers[OVERMAP_REGION_LAYERS_BELOW_0])
    && ListsRegionTiles(Decode(f.layers[OVERMAP_REGION_LAYERS_BELOW_0]), mapGen, topLeftOvermapTile, f.overmapRegion)
    && Canonical(f.layers[OVERMAP_REGION_LAYERS_BELOW_0], true)
  }

  /** `WriteOvermapFile`: the ground level compressed with every run a pair, between rock and air. */
  method WriteOvermapFile(mapGen: MapGenerator, mapTopLeftCoords: TileCoords, overmapRegion: Point)
    returns (f: OvermapRegionFile)
    requires mapGen.Valid()
    ensures f.overmapRegion == overmapRegion
    ensures IsOvermapRegionFileOf(f, mapGen, mapTopLeftCoords.overmapTile)
  {
    var terrain := RegionTileNames(mapGen, mapTopLeftCoords.overmapTile, overmapRegion);
    var level0Array := SimplifyOvermap(terrain);
    var layers := LayerStack(level0Array);
    f := OvermapRegionFile(overmapRegion, OvermapRegionFileName(overmapRegion), layers, OVERMAP_REGION_FILE_REGION_ID_VALUE);
  }

  /** A seen file of one region. */
  datatype SeenRegionFile = SeenRegionFile(overmapRegion: Point, name: string, seen: SeenFile)

  /** `WriteSeenOvermapFile`: the same all-unseen content as the first region's placeholder. */
  function WriteSeenOvermapFile(saveId: string, overmapRegion: Point): (f: SeenRegionFile)
    ensures f.overmapRegion == overmapRegion && f.name == OvermapRegionSeenFileName(saveId, overmapRegion)
    ensures f.seen == EmptySeen()
  {
    SeenRegionFile(overmapRegion, OvermapRegionSeenFileName(saveId, overmapRegion), EmptySeen())
  }

  /**
   * `RunPerOvermapRegion`: the regions from the map's top-left tile's to
   * its bottom-right tile's, both included, X in the outer loop.
   */
  function MapRegions(tl: TileCoords, br: TileCoords): seq<(int, int)>
    requires br.overmapRegion.x >= tl.overmapRegion.x - 1 && br.overmapRegion.y >= tl.overmapRegion.y - 1
  {
    Product(RangeCount(tl.overmapRegion.x, br.overmapRegion.x).value, RangeCount(tl.overmapRegion.y, br.overmapRegion.y).value)
  }

  /** As for segments, the region range of a map never throws. */
  lemma RegionRangeIsDefined(a: int, b: int, ra: int, rb: int)
    requires OVERMAP_REGION_SIZE * ra <= a < OVERMAP_REGION_SIZE * ra + OVERMAP_REGION_SIZE
    requires OVERMAP_REGION_SIZE * rb <= b < OVERMAP_REGION_SIZE * rb + OVERMAP_REGION_SIZE
    requires b >= a - 1
    ensures rb >= ra - 1
  {
  }

  /** A region is visited iff it lies between the corners' regions on both axes. */
  lemma MapRegionsMembers(tl: TileCoords, br: TileCoords, x: int, y: int)
    requires br.overmapRegion.x >= tl.overmapRegion.x - 1 && br.overmapRegion.y >= tl.overmapRegion.y - 1
    ensures (x, y) in MapRegions(tl, br) <==>
      tl.overmapRegion.x <= x <= br.overmapRegion.x && tl.overmapRegion.y <= y <= br.overmapRegion.y
  {
    ProductMembers(RangeCount(tl.overmapRegion.x, br.overmapRegion.x).value,
                   RangeCount(tl.overmapRegion.y, br.overmapRegion.y).value, x, y);
  }

  /** The region files of a list of regions, in order. */
  method WriteOvermapFilesOf(mapGen: MapGenerator, tl: TileCoords, regions: seq<(int, int)>)
      returns (files: seq<OvermapRegionFile>)
    requires mapGen.Valid()
    ensures |files| == |regions|
    ensures forall k :: 0 <= k < |files| ==>
      && (files[k].overmapRegion.x, files[k].overmapRegion.y) == regions[k]
      && IsOvermapRegionFileOf(files[k], mapGen, tl.overmapTile)
  {
    files := [];
    for k := 0 to |regions|
      invariant |files| == k
      invariant forall i :: 0 <= i < k ==>
        && (files[i].overmapRegion.x, files[i].overmapRegion.y) == regions[i]
        && IsOvermapRegionFileOf(files[i], mapGen, tl.overmapTile)
    {
      var f := WriteOvermapFile(mapGen, tl, Point(regions[k].0, regions[k].1));
      files := files + [f];
    }
  }

  /** `WriteOvermapFiles`: one region file per region of the map, in visiting order. */
  method WriteOvermapFiles(gen: CddaGenerator) returns (files: seq<OvermapRegionFile>)
    requires gen.mapGen.Valid()
    ensures var tl, br := gen.MapTopLeftCoords(), gen.MapBotRghtCoords();
      && br.overmapRegion.x >= tl.overmapRegion.x - 1 && br.overmapRegion.y >= tl.overmapRegion.y - 1
      && |files| == |MapRegions(tl, br)|
      && forall k :: 0 <= k < |files| ==>
           && (files[k].overmapRegion.x, files[k].overmapRegion.y) == MapRegions(tl, br)[k]
           && IsOvermapRegionFileOf(files[k], gen.mapGen, tl.overmapTile)
  {
    var tl, br := gen.MapTopLeftCoords(), gen.MapBotRghtCoords();
    RegionRangeIsDefined(tl.abspos.x, br.abspos.x, tl.overmapRegion.x, br.overmapRegion.x);
    RegionRangeIsDefined(tl.abspos.y, br.abspos.y, tl.overmapRegion.y, br.overmapRegion.y);
    files := WriteOvermapFilesOf(gen.mapGen, tl, MapRegions(tl, br));
  }

  /** The seen files of a list of regions, in order. */
  method WriteSeenFilesOf(saveId: string, regions: seq<(int, int)>) returns (files: seq<SeenRegionFile>)
    ensures |files| == |regions|
    ensures forall k :: 0 <= k < |files| ==> files[k] == WriteSeenOvermapFile(saveId, Point(regions[k].0, regions[k].1))
  {
    files := [];
    for k := 0 to |regions|
      invariant |files| == k
      invariant forall i :: 0 <= i < k ==> files[i] == WriteSeenOvermapFile(saveId, Point(regions[i].0, regions[i].1))
    {
      var f := WriteSeenOvermapFile(saveId, Point(regions[k].0, regions[k].1));
      files := files + [f];
    }
  }

  /** `WriteSeenOvermapFiles`: one seen file per region of the map, in visiting order. */
  method WriteSeenOvermapFiles(gen: CddaGenerator) returns (files: seq<SeenRegionFile>)
    requires gen.mapGen.Valid()
    ensures var tl, br := gen.MapTopLeftCoords(), gen.MapBotRghtCoords();
      && br.overmapRegion.x >= tl.overmapRegion.x - 1 && br.overmapRegion.y >= tl.overmapRegion.y - 1
      && |files| == |MapRegions(tl, br)|
      && forall k :: 0 <= k < |files| ==>
           files[k] == WriteSeenOvermapFile(gen.saveId, Point(MapRegions(tl, br)[k].0, MapRegions(tl, br)[k].1))
  {
    var tl, br := gen.MapTopLeftCoords(), gen.MapBotRghtCoords();
    RegionRangeIsDefined(tl.abspos.x, br.abspos.x, tl.overmapRegion.x, br.overmapRegion.x);
    RegionRangeIsDefined(tl.abspos.y, br.abspos.y, tl.overmapRegion.y, br.overmapRegion.y);
    files := WriteSeenFilesOf(gen.saveId, MapRegions(tl, br));
  }
}
