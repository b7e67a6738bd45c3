# CDDA OSM maps, modelled in Dafny

This project models the core of `CddaOsmMaps`. The program turns OpenStreetMap
data into a Cataclysm: Dark Days Ahead (CDDA) save. The pipeline has four stages.

- **Relations to polygons.** The OSM reader turns ways and relations into
  polygons. It closes open outer and inner ways into rings by chaining them on
  shared end nodes. It also hands a relation's tags down to its ways.
- **Rastering and overmap marks.** The map generator rasters the map. A tile
  gets its terrain from its colour. Regions enclosed by coastlines are flood
  filled and classified as water or land, and an overmap tile becomes water
  when most of its pixels are water. Roads and forest trails are traced across
  the overmap grid, each cell collecting its N/E/S/W connections, which then
  name the road terrain. Buildings mark houses.
- **Writing the save.** The save generator splits absolute tile positions into
  region, segment, overmap tile, submap and position within the submap. It
  writes the submap tile files and the segment directories with run-length
  compressed terrain, the overmap region files and their "seen" files, and it
  patches the player's position into the main save.
- **The Python generator.** `generate_cdda_map.py` is an earlier
  implementation of the save writer, with the same coordinate decomposition
  and compression.

The model works on values and on Dafny classes and arrays.

- Rasters and the overmap are `array2`s of colour and terrain enums.
- The generator objects are classes whose methods update those arrays.
- Files and JSON documents are returned as datatypes.

For each stage, the proofs show the properties below.

- Each coordinate decomposition is the unique one with its bounds. The C# and
  Python versions agree on it.
- Run-length encoding decodes back to its input and is canonical, so both
  compressors produce the same runs.
- The flood fill labels every empty pixel with a region reachable from that
  region's seed. Each region's counts of water-side and border pixels are
  exactly the pixels it reached.
- An overmap tile's water mark follows its water pixel count.
- Road traces connect their endpoints. An overmap cell is marked exactly when
  a trace passes through its interior. The road and trail name tables invert
  the direction mask.
- Closing a relation's open way keeps every segment of the merged ways. It
  consumes each merged way from the open ways and from the unprocessed
  members.
- Argument validation reports exactly the failed checks.

Several behaviours of the source are modelled as written, and lemmas exhibit
each of them:

- `WriteSegment` writes the first tile file of the next segment twice. In the
  last segment it omits the tile file that holds the bottom-right corner,
  because the "to" bound is computed from the top-left position
  (`CddaTiles.NextSegmentFirstFileIsWrittenTwice`,
  `CddaTiles.LastSegmentOmitsBottomRightFile`, `CddaTiles.TwoTileMapExample`).
- The regular expression for the seen files names the save id
  `saveGameId` literally. It matches the seen file only for that save id
  (`CddaOvermap.SeenFilesRegexMatchesOnlyLiteralSaveId`).
- `SetMapTopLeftAbsPos` computes the Y corner from the map's width
  (`CddaSave.CddaGenerator.SetMapTopLeftAbsPos`).
- `MathMod` overflows 32 bits for large operands (`MathExt.MathModInt32Overflows`).
- The version key's hash code collides for swapped id and version
  (`VersionKeys.SwappedIdAndVersionCollide`).
- When an open way with an unknown role is skipped and a later way closes
  through it, `Single` throws (`OsmCloseProps.SkippedOpenWayMakesSingleThrow`).

Code that the model depends on but is not part of it is modelled by analogy or
by an assumption. The constants `SEGMENT_SIZE_IN_OVERMAP_TILES` (32) and
`OVERMAP_REGION_SIZE_IN_OVERMAP_TILES` (180), the overmap region id
`"default"`, `EnumExt.RangeFromTo` (taken to be `RangeCount`), and
`SimplifyTiles`/`ProcessTile` (taken to be the compression of the older
`CddaGenerator.cs`) are not in the files shown. The C# sources appear twice,
as the newer partial-class files `CddaGenerator.Tiles.cs`/`.Overmap.cs` and
the older `CddaGenerator.cs`, and as `OsmReader.Process.cs` and the older
`OsmParser.cs`. One model covers both copies where they agree.

## Model

Source paths are relative to the repository root.

| member | source | states |
|---|---|---|
| CddaMap.SizeHierarchy | CddaOsmMaps/CddaOsmMaps/Cdda/CddaMap.cs:5-14 | the size constants nest: an overmap tile is two 12-tile submaps (24), a segment 32 overmap tiles (768), a region 180 overmap tiles (4320 = 360 submaps), the reality bubble radius 5 submaps |
| MathExt.MathMod | CddaOsmMaps/CddaOsmMaps/.Crosscutting/MathExt.cs:7-8 | for a positive modulus the result is the non-negative remainder in [0, b), the floored modulo, and equals C#'s `%` for a non-negative dividend |
| MathExt.MathModInt32 | CddaOsmMaps/CddaOsmMaps/.Crosscutting/MathExt.cs:7-8 | with 32-bit wrap-around, the same expression gives the true modulo whenever `|a*b|` and `|a*b|+a` fit in an `int` |
| MathExt.MathModOfNegative | CddaOsmMaps/CddaOsmMaps/.Crosscutting/MathExt.cs:7-8 | negative dividends wrap to a positive remainder (-5 mod 12 = 7, -12 mod 12 = 0) |
| MathExt.MathModInt32Overflows | CddaOsmMaps/CddaOsmMaps/.Crosscutting/MathExt.cs:8 | for 2796203 mod 768 the 32-bit computation wraps and yields a negative value, where the true modulo is 683 |
| MathExt.TruncRem | CddaOsmMaps/CddaOsmMaps/.Crosscutting/MathExt.cs:8 | C#'s `%` truncates: the remainder is smaller than the divisor in magnitude and has the dividend's sign |
| MathExt.TruncDiv | CddaOsmMaps/CddaOsmMaps/.Crosscutting/MathExt.cs:8 | C#'s `/` truncates toward zero: floored division for non-negative dividends, never positive for negative ones |
| MathExt.TruncDivRem | CddaOsmMaps/CddaOsmMaps/.Crosscutting/MathExt.cs:8 | truncating quotient and remainder recompose the dividend |
| MathExt.Wrap32 | CddaOsmMaps/CddaOsmMaps/.Crosscutting/MathExt.cs:8 | 32-bit wrap-around lands in the `int` range and leaves in-range values alone |
| EnumExt.EnumerableRange | CddaOsmMaps/CddaOsmMaps/.Crosscutting/EnumExt.cs:8-12 | `Enumerable.Range(start, count)` throws on a negative count, otherwise lists `count` consecutive values from `start` |
| EnumExt.Range | CddaOsmMaps/CddaOsmMaps/.Crosscutting/EnumExt.cs:8-9 | `Range(count)` is exactly the values 0 … count-1 in order, or fails for a negative count |
| EnumExt.RangeCount | CddaOsmMaps/CddaOsmMaps/.Crosscutting/EnumExt.cs:11-12 | the inclusive range from `from` to `to` fails exactly when `to < from - 1`, otherwise holds exactly the values between them, ascending by one |
| EnumExt.RangeMembers | CddaOsmMaps/CddaOsmMaps/.Crosscutting/EnumExt.cs:11-12 | a list of consecutive values from `from` of the right length contains exactly the values of the interval |
| EnumExt.RangeCountBoundary | CddaOsmMaps/CddaOsmMaps/.Crosscutting/EnumExt.cs:11-12 | the range is empty for `to == from - 1`, fails one below, and is a singleton for `to == from` |
| EnumExt.Product | CddaOsmMaps/CddaOsmMaps/Cdda/CddaGenerator.Tiles.cs:56-62 | the nested `foreach` over X then Y visits `|xs| * |ys|` pairs |
| EnumExt.ProductIndex | CddaOsmMaps/CddaOsmMaps/Cdda/CddaGenerator.Tiles.cs:56-62 | the pair (xs[i], ys[j]) is visited at position i·|ys| + j, so X is the outer loop |
| EnumExt.ProductMembers | CddaOsmMaps/CddaOsmMaps/Cdda/CddaGenerator.Tiles.cs:116-121 | the nested loops visit exactly the pairs of an X and a Y |
| EnumExt.ProductStep | CddaOsmMaps/CddaOsmMaps/Cdda/CddaGenerator.Tiles.cs:116-121 | one more outer iteration appends the row of its X with every Y |
| TileCoords.FloorDiv | CddaOsmMaps/CddaOsmMaps/Cdda/CddaTileCoords.cs:22-23 | the quotient brackets the dividend: n·q ≤ a < n·q + n, also for negative positions |
| TileCoords.AxisOf | CddaOsmMaps/CddaOsmMaps/Cdda/CddaTileCoords.cs:20-89 | the coordinates computed for one axis decompose the position: each part lies in its parent's bounds and the parts add back up to the position |
| TileCoords.AxisStepsAgree | CddaOsmMaps/CddaOsmMaps/Cdda/CddaTileCoords.cs:42-89 | the source's chain of steps (segment, position in segment, tile in segment, tile file, submap index) brackets the position by its overmap tile, with a submap index of 0 or 1 |
| TileCoords.NewTileCoords | CddaOsmMaps/CddaOsmMaps/Cdda/CddaTileCoords.cs:16-96 | the constructor keeps the absolute position and decomposes both axes |
| TileCoords.DecompositionIsUnique | CddaOsmMaps/CddaOsmMaps/Cdda/CddaTileCoords.cs:22-89 | there is exactly one decomposition: region, segment and tile are the floored quotients, position and submap index the floored remainders |
| TileCoords.AlignedPositions | CddaOsmMaps/CddaOsmMaps/Cdda/CddaTileCoords.cs:72-89 | positions on a submap or overmap tile edge have offset 0 (and submap index 0) |
| TileCoords.NegativePositions | CddaOsmMaps/CddaOsmMaps/Cdda/CddaTileCoords.cs:20-89 | position −1 lies in region, segment and tile −1, second submap, offset 11; 0 and 3078 decompose as expected |
| PlayerCoords.BubbleTopLeft | CddaOsmMaps/CddaOsmMaps/Cdda/CddaPlayerCoords.cs:21-31 | the reality bubble's top-left corner is at a submap edge, within one submap of the position minus the bubble radius |
| PlayerCoords.AxisPlacementOf | CddaOsmMaps/CddaOsmMaps/Cdda/CddaPlayerCoords.cs:21-59 | the region, submap level and position in the bubble place the player back at its absolute position, with the region of the bubble's corner |
| PlayerCoords.PlacementArithmetic | CddaOsmMaps/CddaOsmMaps/Cdda/CddaPlayerCoords.cs:33-59 | a corner on a submap edge with an offset below one submap gives a placement of the position |
| PlayerCoords.LevelInRegion | CddaOsmMaps/CddaOsmMaps/Cdda/CddaPlayerCoords.cs:35-41 | the save-game level is the submap's index within its region, in [0, 360) |
| PlayerCoords.NewPlayerCoords | CddaOsmMaps/CddaOsmMaps/Cdda/CddaPlayerCoords.cs:19-59 | the constructor keeps the absolute position, and on both axes region, level and position place it |
| PlayerCoords.PlacementIsUnique | CddaOsmMaps/CddaOsmMaps/Cdda/CddaPlayerCoords.cs:33-59 | any placement of a position is the computed one |
| PlayerCoords.Equals | CddaOsmMaps/CddaOsmMaps/Cdda/CddaPlayerCoords.cs:97-101 | value equality holds exactly for equal coordinates |
| PlayerCoords.TestVectors | CddaOsmMaps/CddaOsmMaps-XUnit/CddaTests.cs:21-62 | the unit tests' expected regions, levels and positions for six absolute positions |
| RunLength.ProcessTile | CddaOsmMaps/CddaOsmMaps/Cdda/CddaGenerator.cs:362-373 | flushing a pending run appends exactly `count` copies of the tile to the decoded output and leaves earlier runs alone |
| RunLength.SimplifyTiles | CddaOsmMaps/CddaOsmMaps/Cdda/CddaGenerator.cs:339-360 | the compressed runs decode back to the input, are canonical (no empty run, no two neighbours with the same tile, single tiles written plain unless asked) and are no more than the input |
| RunLength.AppendPending | CddaOsmMaps/CddaOsmMaps/Cdda/CddaGenerator.cs:352-357 | the final flush keeps the runs canonical and decodes to the input so far plus the pending run |
| RunLength.SimplifyTerrain | CddaOsmMaps/CddaOsmMaps/Cdda/CddaGenerator.cs:339-360 | the submap terrain is compressed losslessly and canonically |
| RunLength.SimplifyOvermap | CddaOsmMaps/CddaOsmMaps/Cdda/CddaGenerator.Overmap.cs:217-227 | the overmap layer is compressed losslessly and canonically, single tiles as one-element runs |
| RunLength.DecodeLength | CddaOsmMaps/CddaOsmMaps/Cdda/CddaGenerator.cs:346-357 | the decoded length is the sum of the run lengths |
| RunLength.TrailingBlock | CddaOsmMaps/CddaOsmMaps/Cdda/CddaGenerator.cs:346-357 | the last run of canonical runs is the maximal block of equal tiles at the end of the decoded output |
| RunLength.CanonicalIsUnique | CddaOsmMaps/CddaOsmMaps/Cdda/CddaGenerator.cs:346-373 | two canonical run lists with the same decoding are equal |
| RunLength.LastRunsAgree | CddaOsmMaps/CddaOsmMaps/Cdda/CddaGenerator.cs:346-373 | two canonical run lists with the same tiles end on the same run, after the same tiles |
| RunLength.EmptyInput | CddaOsmMaps/CddaOsmMaps/Cdda/CddaGenerator.cs:339-360 | the only canonical encoding of nothing is no runs |
| DecimalString.IntToString | CddaOsmMaps/CddaOsmMaps/Cdda/CddaGenerator.Overmap.cs:23-24 | an integer prints as an optional minus and digits, with the minus exactly for negatives |
| DecimalString.ParseInt | CddaOsmMaps/CddaOsmMaps/Cdda/CddaGenerator.Overmap.cs:15 | a string parses exactly when it is an optionally signed digit string, as `-?\d+` demands |
| DecimalString.IntRoundTrip | CddaOsmMaps/CddaOsmMaps/Cdda/CddaGenerator.Overmap.cs:15-24 | parsing a printed integer gives it back |
| DecimalString.IntToStringIsInjective | CddaOsmMaps/CddaOsmMaps/Cdda/CddaGenerator.Overmap.cs:23-24 | distinct integers print differently |
| DecimalString.SignedDecimalHasNoDot | CddaOsmMaps/CddaOsmMaps/Cdda/CddaGenerator.Overmap.cs:15 | a signed decimal never contains the dot that separates the region coordinates |
| CddaSave.TilePerTerrainSharesOnlyGrass | CddaOsmMaps/CddaOsmMaps/Cdda/CddaGenerator.cs:41-54 | the terrain-to-tile table gives `t_grass` to both default and grass and to no other pair of distinct terrains |
| CddaSave.MapCenterAbsPos | CddaOsmMaps/CddaOsmMaps/Cdda/CddaGenerator.cs:118-124 | the map's centre position is a non-negative multiple of the region size, at most half a region past the map's middle |
| CddaSave.TopLeftIsCentredAndAligned | CddaOsmMaps/CddaOsmMaps/Cdda/CddaGenerator.cs:118-124 | the map's top-left corner lies on an overmap tile edge, and the map's middle (or the middle tile's edge for an odd tile count) lands on the centre |
| CddaSave.TopLeftOffset | CddaOsmMaps/CddaOsmMaps/Cdda/CddaGenerator.cs:118-124 | the corner sits half the map's overmap tiles left of the centre |
| CddaSave.ToSubmapCoord | CddaOsmMaps/CddaOsmMaps/Cdda/CddaGenerator.cs:273-281 | a submap coordinate splits back into its tile file and its submap index 0 or 1 |
| CddaSave.SubmapCoordExamples | CddaOsmMaps/CddaOsmMaps/Cdda/CddaGenerator.cs:270-274 | the worked examples of the comment: 99 → 198/199, 557 → 1114/1115, 36 → 72, 546 → 1093 |
| CddaSave.AbsPosRoundTrip | CddaOsmMaps/CddaOsmMaps/Cdda/CddaGenerator.cs:494-509 | rebuilding a position from its tile file, submap index and offset gives the position back, and decomposing a rebuilt position gives the parts back |
| CddaSave.RepeatLayer | CddaOsmMaps/CddaOsmMaps/Cdda/CddaGenerator.cs:424-426 | the layer is repeated exactly `n` times |
| CddaSave.EmptyOvermap | CddaOsmMaps/CddaOsmMaps/Cdda/CddaGenerator.cs:418-426 | the empty overmap has 21 layers of 180×180 tiles: 10 of rock, a field level, 10 of open air, region id `default` |
| CddaSave.EmptySeen | CddaOsmMaps/CddaOsmMaps/Cdda/CddaGenerator.cs:393-409 | the seen file has, for every layer, nothing visible or explored and no notes or extras |
| CddaSave.WriteMainSave | CddaOsmMaps/CddaOsmMaps/Cdda/CddaGenerator.cs:464-486 | the main save is patched exactly when it has a player object: monsters cleared, region and level set to the spawn coordinates, the player's position set, every other key kept |
| CddaSave.CddaGenerator.constructor | CddaOsmMaps/CddaOsmMaps/Cdda/CddaGenerator.cs:61-72 | the generator keeps its map generator and save id and starts with its corner at the origin |
| CddaSave.CddaGenerator.SetMapTopLeftAbsPos | CddaOsmMaps/CddaOsmMaps/Cdda/CddaGenerator.cs:87-137 | both corner coordinates become the centred, aligned corner computed from the map's width (the Y from the width as written) |
| CddaSave.CddaGenerator.GetAbsPosFromRelMapPos | CddaOsmMaps/CddaOsmMaps/Cdda/CddaGenerator.cs:488-492 | a map pixel's absolute position is the pixel offset by the corner |
| CddaSave.CddaGenerator.MapTopLeftCoords | CddaOsmMaps/CddaOsmMaps/Cdda/CddaGenerator.cs:154-157 | the top-left coordinates decompose the corner |
| CddaSave.CddaGenerator.MapBotRghtCoords | CddaOsmMaps/CddaOsmMaps/Cdda/CddaGenerator.cs:154-157 | the bottom-right coordinates decompose the map's last pixel |
| CddaSave.CddaGenerator.GetSpawnCoords | CddaOsmMaps/CddaOsmMaps/Cdda/CddaGenerator.cs:139-150 | the player spawns at the given point, or at the map's middle, offset by the corner, placed in overmap region, submap and tile as `CddaPlayerCoords` places that position |
| CddaTiles.TileNameOfMapPixel | CddaOsmMaps/CddaOsmMaps/Cdda/CddaGenerator.Tiles.cs:177-182 | the tile written at an absolute position is the tile of its map pixel's terrain, grass off the map |
| CddaTiles.GetSubmapTerrain | CddaOsmMaps/CddaOsmMaps/Cdda/CddaGenerator.Tiles.cs:165-188 | a submap's terrain decodes to the tiles of its 12×12 positions, row by row, and is canonically compressed |
| CddaTiles.GetSubmap | CddaOsmMaps/CddaOsmMaps/Cdda/CddaGenerator.Tiles.cs:127-163 | a submap carries its coordinates, the save constants and its terrain |
| CddaTiles.WriteOvermapTileFile | CddaOsmMaps/CddaOsmMaps/Cdda/CddaGenerator.Tiles.cs:110-125 | a tile file holds the four submaps of its overmap tile, X outer |
| CddaTiles.WriteSubmapColumn | CddaOsmMaps/CddaOsmMaps/Cdda/CddaGenerator.Tiles.cs:116-121 | one X of the inner loop yields the two submaps of that column |
| CddaTiles.WriteTileFileColumn | CddaOsmMaps/CddaOsmMaps/Cdda/CddaGenerator.Tiles.cs:102-107 | one X of the tile-file loop writes a file for each Y, in order, each the tile file of its point |
| CddaTiles.WriteSegment | CddaOsmMaps/CddaOsmMaps/Cdda/CddaGenerator.Tiles.cs:65-108 | a segment is written exactly when both its file ranges are defined, and then holds the tile file of every point of those ranges |
| CddaTiles.SegmentRangeIsDefined | CddaOsmMaps/CddaOsmMaps/Cdda/CddaGenerator.Tiles.cs:44-54 | a map whose corners are in order gives an ordered segment range |
| CddaTiles.WriteSegmentColumn | CddaOsmMaps/CddaOsmMaps/Cdda/CddaGenerator.Tiles.cs:56-62 | one X of the segment loop succeeds exactly when every segment of the column is defined, and writes them in Y order |
| CddaTiles.WriteMapSegments | CddaOsmMaps/CddaOsmMaps/Cdda/CddaGenerator.Tiles.cs:44-62 | all segments between the corners are written, X outer, exactly when each one's ranges are defined |
| CddaTiles.WriteSegments | CddaOsmMaps/CddaOsmMaps/Cdda/CddaGenerator.Tiles.cs:27-63 | the generator's corners are ordered, and the segments written are those of the map, each as `WriteSegment` defines it |
| CddaTiles.AllSegmentsDefined | CddaOsmMaps/CddaOsmMaps/Cdda/CddaGenerator.Tiles.cs:53-62 | a complete list of written segments means every segment's ranges were defined |
| CddaTiles.OneSegmentUndefined | CddaOsmMaps/CddaOsmMaps/Cdda/CddaGenerator.Tiles.cs:88-100 | one segment whose range throws makes the whole write fail |
| CddaTiles.NextSegmentFirstFileIsWrittenTwice | CddaOsmMaps/CddaOsmMaps/Cdda/CddaGenerator.Tiles.cs:83-88 | the inclusive bound makes a segment's last tile file the next segment's first, so that file is written into both directories |
| CddaTiles.LastSegmentOmitsBottomRightFile | CddaOsmMaps/CddaOsmMaps/Cdda/CddaGenerator.Tiles.cs:83-86 | in the last segment the "to" bound, tested on the top-left offset, stops one tile file short of the file that holds the bottom-right corner |
| CddaTiles.TwoTileMapExample | CddaOsmMaps/CddaOsmMaps/Cdda/CddaGenerator.Tiles.cs:78-100 | for a 48-pixel map, segment −1 gets tile files −1 and 0 and segment 0 gets none |
| CddaOvermap.OvermapTerrainOfTileInverts | CddaOsmMaps/CddaOsmMaps/Cdda/CddaGenerator.Overmap.cs:36-77 | the overmap tile name of each terrain but full water names that terrain back |
| CddaOvermap.RoadEndsInvert | CddaOsmMaps/CddaOsmMaps/Cdda/CddaGenerator.Overmap.cs:36-77 | the dead-end road tiles name their terrain back |
| CddaOvermap.RoadTwoWayInvert | CddaOsmMaps/CddaOsmMaps/Cdda/CddaGenerator.Overmap.cs:36-77 | the two-way road tiles name their terrain back |
| CddaOvermap.RoadJunctionsInvert | CddaOsmMaps/CddaOsmMaps/Cdda/CddaGenerator.Overmap.cs:36-77 | the road junction tiles name their terrain back |
| CddaOvermap.ForestTrailEndsInvert | CddaOsmMaps/CddaOsmMaps/Cdda/CddaGenerator.Overmap.cs:36-77 | the dead-end forest trail tiles name their terrain back |
| CddaOvermap.ForestTrailTwoWayInvert | CddaOsmMaps/CddaOsmMaps/Cdda/CddaGenerator.Overmap.cs:36-77 | the two-way forest trail tiles name their terrain back |
| CddaOvermap.ForestTrailJunctionsInvert | CddaOsmMaps/CddaOsmMaps/Cdda/CddaGenerator.Overmap.cs:36-77 | the forest trail junction tiles name their terrain back |
| CddaOvermap.OvermapTilePerTerrainSharesOnlyWater | CddaOsmMaps/CddaOsmMaps/Cdda/CddaGenerator.Overmap.cs:36-77 | water and full water share `lake_surface`, and no other two terrains share a tile |
| CddaOvermap.PrefixedPairMatches | CddaOsmMaps/CddaOsmMaps/Cdda/CddaGenerator.Overmap.cs:15-24 | a prefix followed by two printed integers joined by a dot matches the coordinate-pair pattern |
| CddaOvermap.RegionFileNameMatches | CddaOsmMaps/CddaOsmMaps/Cdda/CddaGenerator.Overmap.cs:15-24 | every region file name matches the overmap files pattern, so old files are found for deletion |
| CddaOvermap.RegionFileNameIsInjective | CddaOsmMaps/CddaOsmMaps/Cdda/CddaGenerator.Overmap.cs:23-24 | different regions get different file names |
| CddaOvermap.PairNamesAgree | CddaOsmMaps/CddaOsmMaps/Cdda/CddaGenerator.Overmap.cs:23-27 | a name with two signed decimals splits uniquely into them |
| CddaOvermap.FirstDotAfterPrefix | CddaOsmMaps/CddaOsmMaps/Cdda/CddaGenerator.Overmap.cs:23-24 | the first dot after the prefix separates the two coordinates |
| CddaOvermap.SignedDecimalChars | CddaOsmMaps/CddaOsmMaps/Cdda/CddaGenerator.Overmap.cs:15 | a signed decimal is made only of digits and minus signs |
| CddaOvermap.MatchTailChars | CddaOsmMaps/CddaOsmMaps/Cdda/CddaGenerator.Overmap.cs:15 | after the prefix, a matching name holds only digits, minus signs and dots |
| CddaOvermap.SeenFilesRegexMatchesOnlyLiteralSaveId | CddaOsmMaps/CddaOsmMaps/Cdda/CddaGenerator.Overmap.cs:20-27 | the seen file of a region matches the seen-files pattern exactly when the save id is `saveGameId` |
| CddaOvermap.SeenNameSplits | CddaOsmMaps/CddaOsmMaps/Cdda/CddaGenerator.Overmap.cs:26-27 | a seen file name is the save id, `.seen.`, and the region's coordinate pair |
| CddaOvermap.LiteralPrefixForcesSaveId | CddaOsmMaps/CddaOsmMaps/Cdda/CddaGenerator.Overmap.cs:20-21 | only the save id `saveGameId` lets a seen name match the literal prefix |
| CddaOvermap.RegionTileNames | CddaOsmMaps/CddaOsmMaps/Cdda/CddaGenerator.Overmap.cs:117-141 | the region's ground layer lists the overmap tile name of each of its 180×180 cells, row by row |
| CddaOvermap.RegionRowNames | CddaOsmMaps/CddaOsmMaps/Cdda/CddaGenerator.Overmap.cs:120-141 | one row of the region lists 180 cells, each the tile name at its cell |
| CddaOvermap.SwappedTerrainName | CddaOsmMaps/CddaOsmMaps/Cdda/CddaGenerator.Overmap.cs:122-138 | reading the overmap at the swapped position names the tile at the unswapped one |
| CddaOvermap.LayerStack | CddaOsmMaps/CddaOsmMaps/Cdda/CddaGenerator.Overmap.cs:143-156 | the 21 layers are 10 of rock, the ground layer, and 10 of air, each canonically compressed |
| CddaOvermap.WriteOvermapFile | CddaOsmMaps/CddaOsmMaps/Cdda/CddaGenerator.Overmap.cs:107-185 | the region file of a region holds the generated ground layer in its layer stack |
| CddaOvermap.WriteSeenOvermapFile | CddaOsmMaps/CddaOsmMaps/Cdda/CddaGenerator.Overmap.cs:187-215 | the seen file of a region has the seen name and the empty seen data |
| CddaOvermap.RegionRangeIsDefined | CddaOsmMaps/CddaOsmMaps/Cdda/CddaGenerator.Overmap.cs:93-100 | ordered corners give an ordered region range |
| CddaOvermap.MapRegionsMembers | CddaOsmMaps/CddaOsmMaps/Cdda/CddaGenerator.Overmap.cs:91-105 | the regions visited are exactly those between the corners' regions |
| CddaOvermap.WriteOvermapFiles | CddaOsmMaps/CddaOsmMaps/Cdda/CddaGenerator.Overmap.cs:79-105 | one region file per region of the map, in loop order, each the file of that region |
| CddaOvermap.WriteSeenOvermapFiles | CddaOsmMaps/CddaOsmMaps/Cdda/CddaGenerator.Overmap.cs:85-105 | one seen file per region of the map, in loop order |
| MapGen.AdjacentCoordsAreTheUnitSteps | CddaOsmMaps/CddaOsmMaps/MapGen/MapGenerator.cs:22-25 | the four neighbour offsets are distinct and reach exactly the edge-adjacent pixels |
| MapGen.ToOvermapSize | CddaOsmMaps/CddaOsmMaps/MapGen/MapGenerator.cs:52-56 | the overmap has as many whole 24-pixel tiles as fit in the provider's size |
| MapGen.MapGenerator.constructor | CddaOsmMaps/CddaOsmMaps/MapGen/MapGenerator.cs:49-58 | the map is cut to whole overmap tiles, the overmap starts all default and the images start white |
| MapGen.MapGenerator.GetTerrain | CddaOsmMaps/CddaOsmMaps/MapGen/MapGenerator.cs:89-106 | a pixel's terrain is the one its colour names, default off the map or for an unknown colour |
| MapGen.MapGenerator.GetOvermapTerrain | CddaOsmMaps/CddaOsmMaps/MapGen/MapGenerator.cs:108-123 | the overmap terrain is read with the coordinates swapped, default outside |
| Terrain.TerrainColorsAreAKey | CddaOsmMaps/CddaOsmMaps/MapGen/MapGenerator.cs:27-39 | no two colours name the same terrain, and no colour names the default terrain |
| Coastline.CoastlineArea.constructor | CddaOsmMaps/CddaOsmMaps/MapGen/Entities/CoastlineArea.cs:5-9 | a new area has its seed and no border pixels counted, so it is not water |
| Coastline.CoastlineArea.IsWater | CddaOsmMaps/CddaOsmMaps/MapGen/Entities/CoastlineArea.cs:11-13 | an area is water only with strictly more water-side than land-side pixels |
| Water.SetLabel | CddaOsmMaps/CddaOsmMaps/MapGen/MapGenerator.Water.cs:123-136 | writing a label keeps the label array in step with the modelled labelling |
| Water.VisitNeighbour | CddaOsmMaps/CddaOsmMaps/MapGen/MapGenerator.Water.cs:110-139 | visiting a neighbour keeps the fill invariant, counts a new border pixel once, and settles the neighbour |
| Water.ExpandPoint | CddaOsmMaps/CddaOsmMaps/MapGen/MapGenerator.Water.cs:106-140 | one dequeue-and-expand keeps the fill invariant and makes progress |
| Water.FillRegion | CddaOsmMaps/CddaOsmMaps/MapGen/MapGenerator.Water.cs:101-140 | the breadth-first fill labels exactly the empty pixels it reaches from the seed, each through a path of empty pixels, leaves no unlabelled empty pixel next to them, and counts exactly the unlabelled water-side and border pixels next to one of them, in their own colour's count |
| Water.GetCoastlineArea | CddaOsmMaps/CddaOsmMaps/MapGen/MapGenerator.Water.cs:95-143 | the area returned has the seed, and as counts the numbers of water-side and border pixels the fill found unlabelled next to the region |
| Water.OpenRegion | CddaOsmMaps/CddaOsmMaps/MapGen/MapGenerator.Water.cs:54-59 | an unlabelled empty pixel opens a new region, which keeps the scan invariant and the areas in step |
| Water.ScanPixel | CddaOsmMaps/CddaOsmMaps/MapGen/MapGenerator.Water.cs:46-59 | one pixel of the row-major scan keeps the scan invariant and opens at most one region |
| Water.LabelCoastlineAreas | CddaOsmMaps/CddaOsmMaps/MapGen/MapGenerator.Water.cs:38-60 | after the scan every empty pixel belongs to a region; each counted pixel lies next to the region owning it and is owned by the lowest-numbered region next to it, and each area's counts are its region's owned pixels by colour |
| Water.ScanColumn | CddaOsmMaps/CddaOsmMaps/MapGen/MapGenerator.Water.cs:44-60 | one column of the scan keeps the labelling invariant and leaves the column scanned |
| Water.ScanColumns | CddaOsmMaps/CddaOsmMaps/MapGen/MapGenerator.Water.cs:43-60 | the columns in order keep the scan invariant and leave every empty pixel of the raster in a region |
| Water.ClassifyAreas | CddaOsmMaps/CddaOsmMaps/MapGen/MapGenerator.Water.cs:62-64 | region i is water exactly when its area exists and is water |
| Water.WaterRegionsOwnMoreWaterSide | CddaOsmMaps/CddaOsmMaps/MapGen/MapGenerator.Water.cs:62-64 | a region is water exactly when it owns more water-side than border pixels, the owned pixels being those the scan state ties to it by adjacency |
| Water.GetOvermapTile | CddaOsmMaps/CddaOsmMaps/MapGen/MapGenerator.Water.cs:145-149 | a pixel lies in the overmap tile computed for it |
| Water.TileOfBoxPixel | CddaOsmMaps/CddaOsmMaps/MapGen/MapGenerator.Water.cs:145-149 | every pixel of a tile's 24×24 box is mapped to that tile |
| Water.AddToTile | CddaOsmMaps/CddaOsmMaps/MapGen/MapGenerator.Water.cs:76-77 | counting a water pixel adds one to its tile's count and to no other |
| Water.CountPixel | CddaOsmMaps/CddaOsmMaps/MapGen/MapGenerator.Water.cs:70-78 | a pixel of a water region is painted and counted in its tile |
| Water.CountWaterPixel | CddaOsmMaps/CddaOsmMaps/MapGen/MapGenerator.Water.cs:76-77 | counting a new water pixel in its tile keeps every tile's count equal to its number of water pixels |
| Water.CountWaterPixels | CddaOsmMaps/CddaOsmMaps/MapGen/MapGenerator.Water.cs:66-79 | the counted pixels are exactly those of water regions, each painted water, and each tile's count is its water pixel count |
| Water.WaterThreshold | CddaOsmMaps/CddaOsmMaps/MapGen/MapGenerator.Water.cs:81-92 | a tile changes only at half water or more, to full water only when every pixel is water |
| Water.ApplyWaterThreshold | CddaOsmMaps/CddaOsmMaps/MapGen/MapGenerator.Water.cs:84-92 | every overmap tile gets the threshold of its count |
| Water.FullTileIsAllWater | CddaOsmMaps/CddaOsmMaps/MapGen/MapGenerator.Water.cs:81-88 | a tile's count reaches 24×24 exactly when all its pixels are water |
| Water.FillCoastlineDefinedWater | CddaOsmMaps/CddaOsmMaps/MapGen/MapGenerator.Water.cs:35-93 | the water pixels are exactly those of regions with more water-side pixels, they are painted, and each overmap tile gets the threshold of its water pixel count |
| Water.PaintPixels | CddaOsmMaps/CddaOsmMaps/MapGen/MapGenerator.Water.cs:22-33 | the given pixels get the colour and nothing else changes |
| Water.GenerateCoastlines | CddaOsmMaps/CddaOsmMaps/MapGen/MapGenerator.Water.cs:14-20 | borders and side indicators are drawn, every empty pixel of that drawing gets a region under the scan invariant, the pixels of water regions are painted, the borders are erased, and the overmap gets its water marks |
| FloodFill.JoinStep | CddaOsmMaps/CddaOsmMaps/MapGen/MapGenerator.Water.cs:121-125 | an unlabelled empty neighbour joins the region, with a path from the seed, and is queued |
| FloodFill.MarkStep | CddaOsmMaps/CddaOsmMaps/MapGen/MapGenerator.Water.cs:126-138 | an unmarked border or water-side neighbour is marked and counted once, in its own colour's set |
| FloodFill.StartFill | CddaOsmMaps/CddaOsmMaps/MapGen/MapGenerator.Water.cs:101-104 | labelling the seed and queueing it establishes the fill invariant |
| FloodFill.DequeueStep | CddaOsmMaps/CddaOsmMaps/MapGen/MapGenerator.Water.cs:108 | dequeuing keeps the invariant with the dequeued point reached |
| FloodFill.ExpandDone | CddaOsmMaps/CddaOsmMaps/MapGen/MapGenerator.Water.cs:110-139 | once its four neighbours are settled, a point is done |
| FloodFill.FinishFill | CddaOsmMaps/CddaOsmMaps/MapGen/MapGenerator.Water.cs:106-142 | an empty queue leaves the region closed: no unlabelled empty pixel touches it, and only the region's label and the border mark were written |
| FloodFill.NeighboursAreAdjacent | CddaOsmMaps/CddaOsmMaps/MapGen/MapGenerator.Water.cs:110-112 | the four neighbours are exactly the adjacent pixels |
| CoastlineLabels.StartScan | CddaOsmMaps/CddaOsmMaps/MapGen/MapGenerator.Water.cs:38-42 | a fresh labelling with slot 0 reserved starts the scan invariant |
| CoastlineLabels.ReachAfterFill | CddaOsmMaps/CddaOsmMaps/MapGen/MapGenerator.Water.cs:121-125 | after a fill every labelled pixel has a path of empty pixels from its region's seed |
| CoastlineLabels.OwnersAfterFill | CddaOsmMaps/CddaOsmMaps/MapGen/MapGenerator.Water.cs:126-138 | the border pixels found by a fill are owned by its region and counted by colour, and other regions' counts are unchanged |
| CoastlineLabels.AddRegion | CddaOsmMaps/CddaOsmMaps/MapGen/MapGenerator.Water.cs:54-59 | a completed fill extends the scan invariant by one region |
| CoastlineLabels.OwnersFirstAfterFill | CddaOsmMaps/CddaOsmMaps/MapGen/MapGenerator.Water.cs:110-137 | the pixels a fill counts lie next to its region, and not next to any earlier region, since those are closed |
| CoastlineLabels.CountedByFirstRegionAlongside | CddaOsmMaps/CddaOsmMaps/MapGen/MapGenerator.Water.cs:110-137 | after any number of fills a water-side or border pixel is counted exactly when a region lies next to it, by the lowest-numbered such region |
| CoastlineLabels.ScanCountBound | CddaOsmMaps/CddaOsmMaps/MapGen/MapGenerator.Water.cs:42-59 | the scan position never exceeds the pixel count, so region labels stay below the border mark |
| CoastlineLabels.AreasExtend | CddaOsmMaps/CddaOsmMaps/MapGen/MapGenerator.Water.cs:54-59 | a new area whose counts equal its region's owned pixels keeps the areas in step with the regions |
| CoastlineLabels.EveryEmptyPixelLabelled | CddaOsmMaps/CddaOsmMaps/MapGen/MapGenerator.Water.cs:43-60 | a finished scan leaves no empty pixel unlabelled |
| OvermapRoads.GetHash | CddaOsmMaps/CddaOsmMaps/MapGen/Entities/OvermapRoad.cs:54-60 | the direction mask is in [0, 15] and is zero exactly for no direction |
| OvermapRoads.HashRoundTrip | CddaOsmMaps/CddaOsmMaps/MapGen/Entities/OvermapRoad.cs:54-60 | the mask and the four direction flags determine each other |
| OvermapRoads.RoadOfMask | CddaOsmMaps/CddaOsmMaps/MapGen/Entities/OvermapRoad.cs:11-30 | the road table has an entry for exactly the masks 1 to 15 |
| OvermapRoads.GetOvermapRoadTerrainType | CddaOsmMaps/CddaOsmMaps/MapGen/Entities/OvermapRoad.cs:10-30 | a cell gets a road terrain exactly when it has a direction |
| OvermapRoads.ForestTrailOfMask | CddaOsmMaps/CddaOsmMaps/MapGen/Entities/OvermapRoad.cs:33-52 | the forest trail table has an entry for exactly the masks 1 to 15 |
| OvermapRoads.GetOvermapForestTrailTerrainType | CddaOsmMaps/CddaOsmMaps/MapGen/Entities/OvermapRoad.cs:32-52 | a cell gets a trail terrain exactly when it has a direction |
| OvermapRoads.TablesNameTheDirections | CddaOsmMaps/CddaOsmMaps/MapGen/Entities/OvermapRoad.cs:10-60 | the terrain chosen for a cell names exactly the cell's directions |
| OvermapRoads.MaskTablesNameTheDirections | CddaOsmMaps/CddaOsmMaps/MapGen/Entities/OvermapRoad.cs:12-51 | each table entry is a road (or trail) whose name spells its mask |
| OvermapRoads.RoadEntriesSpellTheirMask | CddaOsmMaps/CddaOsmMaps/MapGen/Entities/OvermapRoad.cs:14-28 | each road entry's name spells its mask |
| OvermapRoads.ForestTrailEntriesSpellTheirMask | CddaOsmMaps/CddaOsmMaps/MapGen/Entities/OvermapRoad.cs:36-50 | each trail entry's name spells its mask |
| OvermapRoads.TablesAreOnto | CddaOsmMaps/CddaOsmMaps/MapGen/Entities/OvermapRoad.cs:12-52 | every road and trail terrain is in its table, under the mask its name spells |
| OvermapRoads.TablesAreInjective | CddaOsmMaps/CddaOsmMaps/MapGen/Entities/OvermapRoad.cs:12-52 | different direction sets get different terrains |
| OvermapRoads.ForestTrailMirrorsRoad | CddaOsmMaps/CddaOsmMaps/MapGen/Entities/OvermapRoad.cs:10-52 | the trail table is the road table with roads renamed to trails |
| OvermapRoads.MaskNineIsWestNorth | CddaOsmMaps/CddaOsmMaps/MapGen/Entities/OvermapRoad.cs:22 | north plus west is mask 9, the west-north road and trail |
| MapRoads.SetOvermapRoadInfo | CddaOsmMaps/CddaOsmMaps/MapGen/MapGenerator.Road.cs:262-279 | one cell write is logged, and the grid stays the effect of the log |
| MapRoads.FlagsAreOnlySet | CddaOsmMaps/CddaOsmMaps/MapGen/MapGenerator.Road.cs:114-258 | writes only add directions to a cell and never remove its info |
| MapRoads.BorderCellsAreNeverSet | CddaOsmMaps/CddaOsmMaps/MapGen/MapGenerator.Road.cs:268-273 | cells on the overmap border are never written |
| MapRoads.SetXStep | CddaOsmMaps/CddaOsmMaps/MapGen/MapGenerator.Road.cs:117-154 | one column of an X-major trace writes its turn and step marks |
| MapRoads.SetXEnd | CddaOsmMaps/CddaOsmMaps/MapGen/MapGenerator.Road.cs:159-181 | the end of an X-major trace writes its closing marks |
| MapRoads.SetYStep | CddaOsmMaps/CddaOsmMaps/MapGen/MapGenerator.Road.cs:194-231 | one row of a Y-major trace writes its turn and step marks |
| MapRoads.SetYEnd | CddaOsmMaps/CddaOsmMaps/MapGen/MapGenerator.Road.cs:236-258 | the end of a Y-major trace writes its closing marks |
| MapRoads.TraceXColumn | CddaOsmMaps/CddaOsmMaps/MapGen/MapGenerator.Road.cs:115-157 | one loop iteration advances the float Y by the slope and its truncation, logging that column's marks |
| MapRoads.TraceAlongX | CddaOsmMaps/CddaOsmMaps/MapGen/MapGenerator.Road.cs:106-182 | a shallow segment writes exactly the marks of the X-major trace |
| MapRoads.TraceYRow | CddaOsmMaps/CddaOsmMaps/MapGen/MapGenerator.Road.cs:192-234 | one loop iteration advances the float X by the slope and its truncation, logging that row's marks |
| MapRoads.TraceAlongY | CddaOsmMaps/CddaOsmMaps/MapGen/MapGenerator.Road.cs:183-259 | a steep segment writes exactly the marks of the Y-major trace |
| MapRoads.GenerateOvermapRoadSegment | CddaOsmMaps/CddaOsmMaps/MapGen/MapGenerator.Road.cs:87-260 | a segment's write is logged as that segment |
| MapRoads.PathSegmentsStep | CddaOsmMaps/CddaOsmMaps/MapGen/MapGenerator.Road.cs:78-85 | one more path point adds the segment from the previous point |
| MapRoads.GenerateOvermapRoadPath | CddaOsmMaps/CddaOsmMaps/MapGen/MapGenerator.Road.cs:75-85 | a path writes the segments between consecutive points, in order |
| MapRoads.TilePath | CddaOsmMaps/CddaOsmMaps/MapGen/MapGenerator.Road.cs:72 | each polygon point maps to one overmap tile |
| MapRoads.RoadSegmentsStep | CddaOsmMaps/CddaOsmMaps/MapGen/MapGenerator.Road.cs:67-73 | one more polygon adds its tile path's segments |
| MapRoads.RoadsSegmentsStep | CddaOsmMaps/CddaOsmMaps/MapGen/MapGenerator.Road.cs:37-46 | one more road adds its polygons' segments exactly when its type is selected |
| MapRoads.GenerateOvermapRoadPolygon | CddaOsmMaps/CddaOsmMaps/MapGen/MapGenerator.Road.cs:70-72 | one polygon of a road writes its tile path's segments |
| MapRoads.GenerateOvermapRoad | CddaOsmMaps/CddaOsmMaps/MapGen/MapGenerator.Road.cs:67-73 | a road writes the segments of all its polygons, in order |
| MapRoads.GenerateOvermapRoadsOfTypes | CddaOsmMaps/CddaOsmMaps/MapGen/MapGenerator.Road.cs:37-46 | the selected roads' segments are written, and the grid is their effect |
| MapRoads.MergePriority | CddaOsmMaps/CddaOsmMaps/MapGen/MapGenerator.Road.cs:51-63 | a road cell wins and names its mask, else a trail cell, else the terrain is kept |
| MapRoads.BorderTerrainIsKept | CddaOsmMaps/CddaOsmMaps/MapGen/MapGenerator.Road.cs:48-64 | overmap border cells keep their terrain |
| MapRoads.MergeOvermapColumn | CddaOsmMaps/CddaOsmMaps/MapGen/MapGenerator.Road.cs:49-64 | one column of the merge loop updates that column's cells and no other |
| MapRoads.MergeOvermap | CddaOsmMaps/CddaOsmMaps/MapGen/MapGenerator.Road.cs:48-64 | every overmap cell gets its merge |
| MapRoads.EmptyGrid | CddaOsmMaps/CddaOsmMaps/MapGen/MapGenerator.Road.cs:34-35 | each road info grid starts with no info in any cell |
| MapRoads.GenerateOvermapRoads | CddaOsmMaps/CddaOsmMaps/MapGen/MapGenerator.Road.cs:32-65 | each overmap cell becomes the merge of what the road traces and the trail traces wrote into it |
| RoadTraceProps.TruncToIntBounds | CddaOsmMaps/CddaOsmMaps/MapGen/MapGenerator.Road.cs:118 | the `(int)` cast truncates toward zero |
| RoadTraceProps.RoadOvermapTileBounds | CddaOsmMaps/CddaOsmMaps/MapGen/MapGenerator.Road.cs:311-315 | a non-negative point lies in the overmap tile computed for it |
| RoadTraceProps.TilePathElements | CddaOsmMaps/CddaOsmMaps/MapGen/MapGenerator.Road.cs:72 | the tile path is the polygon point by point |
| RoadTraceProps.FlipIsInjective | CddaOsmMaps/CddaOsmMaps/MapGen/MapGenerator.Road.cs:97-98 | the axis flip is a bijection with an explicit inverse |
| RoadTraceProps.SlopeIsAtMostOne | CddaOsmMaps/CddaOsmMaps/MapGen/MapGenerator.Road.cs:106-113 | the minor axis advances by at most one per step |
| RoadTraceProps.TruncMovesByAtMostOne | CddaOsmMaps/CddaOsmMaps/MapGen/MapGenerator.Road.cs:117-118 | a step of at most one moves the truncated value by at most one |
| RoadTraceProps.XStepTurnsInPreviousRow | CddaOsmMaps/CddaOsmMaps/MapGen/MapGenerator.Road.cs:127-153 | an X step marks one cell, or two when the row changes: the turn in the old row then the new cell |
| RoadTraceProps.YStepTurnsInPreviousColumn | CddaOsmMaps/CddaOsmMaps/MapGen/MapGenerator.Road.cs:204-230 | a Y step marks one cell, or two when the column changes |
| RoadTraceProps.XStepsShape | CddaOsmMaps/CddaOsmMaps/MapGen/MapGenerator.Road.cs:115-157 | the X-major marks stay within the columns of the trace and end on its target |
| RoadTraceProps.YStepsShape | CddaOsmMaps/CddaOsmMaps/MapGen/MapGenerator.Road.cs:192-234 | the Y-major marks stay within the rows of the trace and end on its target |
| RoadTraceProps.MarksAlongXConnectEndpoints | CddaOsmMaps/CddaOsmMaps/MapGen/MapGenerator.Road.cs:106-182 | a shallow trace starts eastward on its start, ends on its end and stays between them |
| RoadTraceProps.MarksAlongYConnectEndpoints | CddaOsmMaps/CddaOsmMaps/MapGen/MapGenerator.Road.cs:183-259 | a steep trace starts southward on its start, ends on its end and stays between them |
| RoadTraceProps.SegmentIsEmptyIff | CddaOsmMaps/CddaOsmMaps/MapGen/MapGenerator.Road.cs:97-101 | a segment marks nothing exactly when its ends coincide |
| RoadTraceProps.SegmentIsSymmetric | CddaOsmMaps/CddaOsmMaps/MapGen/MapGenerator.Road.cs:106-186 | a segment marks the same cells in either direction |
| RoadTraceProps.SegmentConnectsEndpoints | CddaOsmMaps/CddaOsmMaps/MapGen/MapGenerator.Road.cs:97-259 | a proper segment's marks start on one flipped endpoint and end on the other |
| RoadTraceProps.CellAfterAppend | CddaOsmMaps/CddaOsmMaps/MapGen/MapGenerator.Road.cs:262-279 | writes compose: the effect of two logs is the effect of one after the other |
| RoadTraceProps.CellHasInfoIff | CddaOsmMaps/CddaOsmMaps/MapGen/MapGenerator.Road.cs:268-277 | a cell has info exactly when it had it or is interior and some mark addresses it |
| RoadTraceProps.CellFlagIff | CddaOsmMaps/CddaOsmMaps/MapGen/MapGenerator.Road.cs:262-279 | for each of the four directions, a cell has that flag exactly when it had it already or is interior and some call addressing it sets that flag |
| RoadTraceProps.UntouchedCellKeepsTerrain | CddaOsmMaps/CddaOsmMaps/MapGen/MapGenerator.Road.cs:48-64 | a cell no mark addresses keeps its terrain |
| Buildings.HouseTerrain | CddaOsmMaps/CddaOsmMaps/MapGen/MapGenerator.Building.cs:19-24 | a cell becomes a house exactly when it is still default and its overmap pixel has the floor colour; nothing else changes |
| Buildings.GenerateBuildingsColumn | CddaOsmMaps/CddaOsmMaps/MapGen/MapGenerator.Building.cs:17-25 | one column of the loop updates that column's cells and no other |
| Buildings.GenerateBuildings | CddaOsmMaps/CddaOsmMaps/MapGen/MapGenerator.Building.cs:11-26 | every overmap cell gets the house rule applied once |
| PyGenerate.GetCoordsAxis | generate_cdda_map.py:353-403 | the script's coordinates bracket the position by its segment, with a submap index of 0 or 1 and an offset in the submap, and rebuild it |
| PyGenerate.AxisAgreesWithTileCoords | generate_cdda_map.py:363-389 | the script's intermediate steps agree with the C# decomposition |
| PyGenerate.GetCoords | generate_cdda_map.py:353-403 | the script's 2-D coordinates rebuild the position |
| PyGenerate.GetCoordsAgreesWithTileCoords | generate_cdda_map.py:353-403 | the script computes the same segment, tile file, submap index and offset as the C# tile coordinates |
| PyGenerate.GetCoordsOfAbspos | generate_cdda_map.py:406-418 | decomposing a rebuilt position gives back its parts |
| PyGenerate.WorkedExample | generate_cdda_map.py:354-394 | the comment's worked example: (3078, 583) is in segment (4, 0), file (128, 24), first submap, offset (6, 7) |
| PyGenerate.GetPlayerAbspos | generate_cdda_map.py:187-204 | the player's position is read exactly when the four numbers are present, as level × 12 plus position |
| PyGenerate.PlayerAbsposExample | generate_cdda_map.py:188-193 | the comment's example: level (251, 43), position (66, 67) is (3078, 583) |
| PyGenerate.ReadsBackPlacement | generate_cdda_map.py:195-204 | reading a save the C# generator wrote gives back the spawn position relative to its region |
| PyGenerate.ReadsBackPlaces | generate_cdda_map.py:195-204 | any recorded placement of a position reads back as that position relative to its region |
| PyGenerate.Lift | generate_cdda_map.py:440-445 | the script's tile list is the tiles wrapped as present values |
| PyGenerate.SimplifyTerrain | generate_cdda_map.py:440-460 | the script's compression decodes to its input, is canonical and holds no missing tile |
| PyGenerate.RunTileIsDecoded | generate_cdda_map.py:448-458 | every run's tile occurs in the decoded output |
| PyGenerate.Unwrap | generate_cdda_map.py:449-458 | unwrapping runs keeps their count and unwraps each |
| PyGenerate.DecodeUnwrap | generate_cdda_map.py:440-460 | unwrapping commutes with decoding |
| PyGenerate.LiftIsInjective | generate_cdda_map.py:440-446 | wrapping loses nothing |
| PyGenerate.SameAsGeneratorCompression | generate_cdda_map.py:440-460 | the script's runs and the C# runs for the same terrain are the same |
| PyGenerate.TileTypeAt | generate_cdda_map.py:335-346 | a tile is road exactly when its pixel is on the image and its red channel is 0, otherwise the default |
| PyGenerate.GetSumapTerrain | generate_cdda_map.py:318-350 | the submap terrain lists the tile of each of its 12×12 positions, row by row |
| PyGenerate.GetSumap | generate_cdda_map.py:286-315 | the submap carries coordinates that split back into its file and index, the save constants, and its terrain canonically compressed |
| OsmGeo.TagsMap | CddaOsmMaps/CddaOsmMaps/Osm/OsmReader.Process.cs:162 | a tag list becomes a map holding exactly its keys |
| OsmGeo.TagsMapKeepsLast | CddaOsmMaps/CddaOsmMaps/Osm/OsmReader.Process.cs:162 | a key given several times keeps its last value |
| OsmGeo.AddMissing | CddaOsmMaps/CddaOsmMaps/Osm/OsmReader.Process.cs:164-166 | the way's own tags are kept, every inherited key ends up present, and no other key appears |
| OsmGeo.AddMissingKeepsFirst | CddaOsmMaps/CddaOsmMaps/Osm/OsmReader.Process.cs:164-166 | a key the way lacks gets the value of its first inherited tag |
| OsmGeo.AddTagsToWay | CddaOsmMaps/CddaOsmMaps/Osm/OsmReader.Process.cs:156-167 | no tags leave the way alone, a tagless way gets the inherited tags, and a tagged way gets the missing ones |
| OsmGeo.AddMissingIsIdempotent | CddaOsmMaps/CddaOsmMaps/Osm/OsmReader.Process.cs:164-166 | handing the same tags down twice changes nothing more |
| OsmClose.Reverse | CddaOsmMaps/CddaOsmMaps/Osm/OsmReader.Process.cs:141-145 | the reversed node list holds the nodes in the opposite order |
| OsmClose.FirstTouching | CddaOsmMaps/CddaOsmMaps/Osm/OsmReader.Process.cs:109-119 | the first open way touching either end of the chain is found, or none touches |
| OsmClose.Join | CddaOsmMaps/CddaOsmMaps/Osm/OsmReader.Process.cs:132-147 | the merged chain keeps the shared node once |
| OsmClose.RemoveAt | CddaOsmMaps/CddaOsmMaps/Osm/OsmReader.Process.cs:150-152 | removing a member drops exactly that one |
| OsmClose.RemoveFirst | CddaOsmMaps/CddaOsmMaps/Osm/OsmReader.Process.cs:149 | `List.Remove` drops the first occurrence, or nothing when absent |
| OsmClose.SingleMemberOf | CddaOsmMaps/CddaOsmMaps/Osm/OsmReader.Process.cs:151 | `Single` finds the one member of the way, or fails when there are none or several |
| OsmClose.ClosedIffEndsMeet | CddaOsmMaps/CddaOsmMaps/Osm/OsmReader.Process.cs:98-153 | the merge loop reports a closed ring exactly when the chain it stops on, never empty, starts where it ends |
| OsmClose.TryCloseOpenWay | CddaOsmMaps/CddaOsmMaps/Osm/OsmReader.Process.cs:89-154 | the method does what the merge loop describes: its result, the remaining open ways and members, and the way's nodes, which change only for a closed ring and never on an error |
| OsmCloseProps.EdgesOfJoined | CddaOsmMaps/CddaOsmMaps/Osm/OsmReader.Process.cs:133 | appending a way that starts at the chain's end adds exactly its segments |
| OsmCloseProps.EdgesOfReverse | CddaOsmMaps/CddaOsmMaps/Osm/OsmReader.Process.cs:141-145 | reversing a way keeps its segments |
| OsmCloseProps.JoinAddsTheWaysEdges | CddaOsmMaps/CddaOsmMaps/Osm/OsmReader.Process.cs:132-147 | each of the four merge cases adds exactly the way's segments |
| OsmCloseProps.OpenChainHasLooseEnds | CddaOsmMaps/CddaOsmMaps/Osm/OsmReader.Process.cs:109-130 | a chain left open has no remaining open way touching its ends |
| OsmCloseProps.ClosingConsumesWays | CddaOsmMaps/CddaOsmMaps/Osm/OsmReader.Process.cs:149-152 | every merged way leaves the open ways and one member leaves the unprocessed members |
| OsmCloseProps.AbsorbedWaysLeaveNoMember | CddaOsmMaps/CddaOsmMaps/Osm/OsmReader.Process.cs:150-152 | no member of a merged way remains to be processed |
| OsmCloseProps.ClosingKeepsEverySegment | CddaOsmMaps/CddaOsmMaps/Osm/OsmReader.Process.cs:132-147 | the final chain has exactly the segments of the start and the merged ways |
| OsmCloseProps.ClosingKeepsSharedNodesOnce | CddaOsmMaps/CddaOsmMaps/Osm/OsmReader.Process.cs:132-147 | each merge drops exactly one shared node |
| OsmCloseProps.TwoHalvesClose | CddaOsmMaps/CddaOsmMaps/Osm/OsmReader.Process.cs:101-133 | two halves of a ring close into it, and the way keeps the ring without its first node |
| OsmCloseProps.SkippedOpenWayMakesSingleThrow | CddaOsmMaps/CddaOsmMaps/Osm/OsmReader.Process.cs:61-152 | an open way skipped for its role stays open but has no member left, so merging it makes `Single` throw |
| OsmProcess.ClosingTakesWayMembers | CddaOsmMaps/CddaOsmMaps/Osm/OsmReader.Process.cs:150-152 | each merged way removes one way member from the unprocessed members |
| OsmProcess.OpenWays | CddaOsmMaps/CddaOsmMaps/Osm/OsmReader.Process.cs:41-45 | the open ways are exactly the relation's unclosed way members |
| OsmProcess.ProcessWayMember | CddaOsmMaps/CddaOsmMaps/Osm/OsmReader.Process.cs:55-71 | the member way gets the relation's tags where its own keys are missing; without an error it is kept exactly when it has an outer or inner role and is closed or closes, marked by that role; an open way with such a role leaves the error, the remaining members and open ways and its nodes exactly as the merge loop gives them, and any other way changes none of them |
| OsmProcess.ProcessWayOrRelation | CddaOsmMaps/CddaOsmMaps/Osm/OsmReader.Process.cs:26-87 | a node raises; a way receives the inherited tags where its keys are missing and is its own outer ring; a relation's result has its tags plus the inherited ones and only ways from its member tree, marked by their role, no more than it has way members |
| ParsedArgs.CheckArrayValueCount | CddaOsmMaps/CddaOsmMaps/Args/ParsedArgs.cs:69-89 | a missing array passes when 0 is allowed, a present one when its length is allowed, and a failure appends one message with the count and values |
| ParsedArgs.Validate | CddaOsmMaps/CddaOsmMaps/Args/ParsedArgs.cs:20-51 | the arguments are valid exactly when the box has 0 or 4 values, the spawn point 0 or 2, and a save or image is given; each failed check adds its message, in order |
| ParsedArgs.GetSpawnPoint | CddaOsmMaps/CddaOsmMaps/Args/ParsedArgs.cs:53-56 | a spawn point exists exactly when two values were given, and is those values |
| ParsedArgs.GetBounds | CddaOsmMaps/CddaOsmMaps/Args/ParsedArgs.cs:58-67 | no box gives none, a box of fewer than four values raises, otherwise the box is read in the order min lat, min lon, max lat, max lon |
| ParsedArgs.ValidatedEmptyBoundsRaise | CddaOsmMaps/CddaOsmMaps/Args/ParsedArgs.cs:58-67 | a validated box with no values makes `GetBounds` raise |
| ParsedArgs.ValidatedBoundsAreReadable | CddaOsmMaps/CddaOsmMaps/Args/ParsedArgs.cs:58-67 | with an empty box read as none, validated arguments never raise and a box exists exactly with four values |
| VersionKeys.KeyOf | CddaOsmMaps/OsmSharp/OsmGeoVersionKey.cs:23-28 | the key of an object exists exactly when its id and version are set, and holds its type, id and version |
| VersionKeys.Decrement | CddaOsmMaps/OsmSharp/OsmGeoVersionKey.cs:56 | `long` subtraction of one, wrapping at the minimum |
| VersionKeys.Previous | CddaOsmMaps/OsmSharp/OsmGeoVersionKey.cs:48-58 | version 1 has no previous version; any other has the same object one version back |
| VersionKeys.PreviousReachesFirstVersion | CddaOsmMaps/OsmSharp/OsmGeoVersionKey.cs:48-58 | from a positive version, `Previous` walks back to version 1 in version−1 steps |
| VersionKeys.EqualsKey | CddaOsmMaps/OsmSharp/OsmGeoVersionKey.cs:75-80 | key equality is equality of type, id and version, and a null argument raises |
| VersionKeys.EqualsObject | CddaOsmMaps/OsmSharp/OsmGeoVersionKey.cs:85-89 | an object equals the key exactly when it is an equal key |
| VersionKeys.EqualsIsAnEquivalence | CddaOsmMaps/OsmSharp/OsmGeoVersionKey.cs:75-89 | the equality is reflexive and symmetric, and false for null and non-keys |
| VersionKeys.LongHashOfSmall | CddaOsmMaps/OsmSharp/OsmGeoVersionKey.cs:63-68 | small non-negative `long`s hash to themselves |
| VersionKeys.EqualKeysHashAlike | CddaOsmMaps/OsmSharp/OsmGeoVersionKey.cs:63-68 | equal keys have the same hash code |
| VersionKeys.SwappedIdAndVersionCollide | CddaOsmMaps/OsmSharp/OsmGeoVersionKey.cs:63-68 | node 1 version 2 and node 2 version 1 are different keys with the same hash |

## Left out

- File-system and JSON I/O are left out. This covers `JsonIO`, `Directory`, `GetSaveId`, `WriteMapSegmenFiles`, `DeleteFiles`, and `read_json`/`write_json` of the script. File and JSON contents are returned as values.
- The SkiaSharp `ImageBuilder` is left out. The raster is a 2-D array of a colour enum. Coastline and side-indicator strokes are given as pixel sets (`Water.PaintPixels`). The canvas and its cached bitmap are not told apart.
- Floating-point geometry is left out: `Geom`, `Gis`, the coastline side indicators, road widths, rivers, building polygons, and the OSM reader's scaling and projection (`LatLonToXY`, `ProcessData`). The road tracer's single-precision floats are modelled as exact reals.
- Monsters and their random placement are left out (`CddaGenerator.Monster.cs`).
- The command-line parser (`ArgsParser`, System.CommandLine), `LogErrors` and console output are left out.
- The profiling scripts, `parse_osm.py`, the script's `run()` and the dead branch of `generate_segment` are left out.
- Thrown exceptions are modelled as `Result`/`Option` error values.
- Cyclic relations are left out, because the C# recursion never ends on them; relations are values, so the model's relations are acyclic.
- A missing C# enum value is modelled by its constructor. The object types are taken to have the values 0, 1 and 2. `long.GetHashCode` is taken to be low xor high half, and an enum's hash code its value.
- `\d` in the file-name patterns is taken to mean ASCII digits.
- `IsClosed` of a way is taken to be "more than one node, and the first equals the last". A `TagsCollection` built from a list is taken to keep the last value of a key. Node ids are taken to be integers.
- Water.FillCoastlineDefinedWater, Water.GenerateCoastlines and Water.LabelCoastlineAreas require fewer pixels than `int.MaxValue`, so region labels never reach the border mark.
- MapRoads.GenerateOvermapRoadPath, MapRoads.GenerateOvermapRoad and MapRoads.GenerateOvermapRoadsOfTypes require non-empty polygons; on an empty one `Enumerable.Range(0, -1)` throws, which the model does not follow.
- PyGenerate.GetPlayerAbspos returns none where the script raises `KeyError`.
- MapRoads.SetOvermapRoadInfo stores an `OvermapRoad` by value in each cell, not as a shared object; each cell owns its own object in the C# too.
- MathExt.MathMod is over unbounded integers; the 32-bit behaviour is the separate `MathExt.MathModInt32`.
- CddaSave.CddaGenerator.SetMapTopLeftAbsPos, MapRoads.TraceAlongX and MapRoads.TraceAlongY use exact reals where the C# uses `float`, so rounding of large coordinates is not modelled.
- OsmProcess.ProcessWayOrRelation states a bound on the ways kept and where they come from, not their exact list.
- Row order inside JSON arrays written by the overmap is modelled. The exact JSON texts, their key order and their formatting are not.

## Findings

| source | as written | input that shows it | evidently intended | confidence | as-written member | corrected member |
|---|---|---|---|---|---|---|
| CddaOsmMaps/CddaOsmMaps/Args/ParsedArgs.cs:58-67 | `Validate` accepts a bounding box given with no values, because 0 is an allowed count. `GetBounds` then reads `GisBounds[0]` of an empty array and throws. | save game `world`, `-bounds` given with no values (an empty array) | an empty box is read as no box, as the count check allows | low, not executed; it depends on the parser handing over an empty array | ParsedArgs.ValidatedEmptyBoundsRaise | ParsedArgs.ValidatedBoundsAreReadable |
