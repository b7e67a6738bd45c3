/**
 * Coastline resolution. Coastlines are drawn as a red border with a
 * water-side indicator strip; every 4-connected region of empty pixels is
 * labelled by a breadth-first fill that counts the water-side and border
 * pixels it reaches first; regions with more water-side pixels are water.
 * Water pixels are then painted and counted per overmap tile, and the
 * counts decide the overmap tiles' water terrain.
 */
module Water {
  import opened CddaMap
  import opened Terrain
  import opened TileCoords
  import opened MapGen
  import opened Coastline
  import opened FloodFill
  import opened CoastlineLabels
  import opened MathExt

  /** `m` holds the contents of the 2-D array `a`, as a map from pixel to value. */
  ghost predicate Mirrors<T>(a: array2<T>, m: map<Point, T>)
    reads a
  {
    && (forall p :: p in m <==> 0 <= p.x < a.Length0 && 0 <= p.y < a.Length1)
    && (forall p :: p in m ==> m[p] == a[p.x, p.y])
  }

  /** Takes a snapshot of a 2-D array. */
  ghost method Snapshot<T>(a: array2<T>) returns (m: map<Point, T>)
    ensures Mirrors(a, m)
  {
    m := map x, y | 0 <= x < a.Length0 && 0 <= y < a.Length1 :: Point(x, y) := a[x, y];
  }

  /** Writes one label; the only place the fill changes the label array. */
  method SetLabel(labels: array2<int>, p: Point, v: int, ghost L: map<Point, int>)
    requires Mirrors(labels, L) && p in L
    modifies labels
    ensures Mirrors(labels, L[p := v])
  {
    labels[p.x, p.y] := v;
  }

  /**
   * One neighbour examined by the fill: an unlabelled empty pixel joins the
   * region and the queue, an unlabelled water-side or border pixel is
   * counted and marked; anything else is left alone.
   */
  method VisitNeighbour(g: MapGenerator, labels: array2<int>, idx: int, seed: Point,
                        point: Point, adjPoint: Point, queue: seq<Point>, water: int, land: int,
                        ghost img: map<Point, Color>, ghost L: map<Point, int>, ghost orig: map<Point, int>,
                        ghost zeros: set<Point>, ghost paths: map<Point, seq<Point>>,
                        ghost waterSide: set<Point>, ghost border: set<Point>)
    returns (queue': seq<Point>, water': int, land': int, ghost L': map<Point, int>,
             ghost zeros': set<Point>, ghost paths': map<Point, seq<Point>>,
             ghost waterSide': set<Point>, ghost border': set<Point>)
    requires Mirrors(g.mapImage, img) && Mirrors(labels, L) && 1 <= idx < NO_COASTLINE_AREA_IDX
    requires FillInv(img, L, idx, seed, orig, zeros, paths, queue, {point}, waterSide, border)
    requires point in paths && Adjacent(point, adjPoint)
    requires water == |waterSide| && land == |border|
    modifies labels
    ensures Mirrors(labels, L')
    ensures FillInv(img, L', idx, seed, orig, zeros', paths', queue', {point}, waterSide', border')
    ensures water' == |waterSide'| && land' == |border'|
    ensures |zeros'| < |zeros| || (zeros' == zeros && queue' == queue)
    ensures Grows(L, L') && Settled(img, L', adjPoint)
  {
    queue', water', land', L' := queue, water, land, L;
    zeros', paths', waterSide', border' := zeros, paths, waterSide, border;
    if adjPoint.x < 0 || adjPoint.x >= labels.Length0 || adjPoint.y < 0 || adjPoint.y >= labels.Length1
       || labels[adjPoint.x, adjPoint.y] > 0 {
      return;
    }
    var adjacentPixelColor := g.mapImage[adjPoint.x, adjPoint.y];
    if adjacentPixelColor == EMPTY_AREA_COLOR {
      JoinStep(img, L, idx, seed, orig, zeros, paths, queue, point, waterSide, border, adjPoint);
      LabelOne(img, L, zeros, adjPoint, idx);
      SetLabel(labels, adjPoint, idx, L);
      L' := L[adjPoint := idx];
      queue' := queue + [adjPoint];
      paths' := paths[adjPoint := paths[point] + [adjPoint]];
      zeros' := zeros - {adjPoint};
    } else if adjacentPixelColor == COASTLINE_WATER_SIDE_COLOR {
      MarkStep(img, L, idx, seed, orig, zeros, paths, queue, point, waterSide, border, adjPoint);
      LabelOne(img, L, zeros, adjPoint, NO_COASTLINE_AREA_IDX);
      CountOne(waterSide, adjPoint);
      SetLabel(labels, adjPoint, NO_COASTLINE_AREA_IDX, L);
      L' := L[adjPoint := NO_COASTLINE_AREA_IDX];
      water' := water + 1;
      waterSide' := waterSide + {adjPoint};
      zeros' := zeros - {adjPoint};
    } else if adjacentPixelColor == COASTLINE_BORDER_COLOR {
      MarkStep(img, L, idx, seed, orig, zeros, paths, queue, point, waterSide, border, adjPoint);
      LabelOne(img, L, zeros, adjPoint, NO_COASTLINE_AREA_IDX);
      CountOne(border, adjPoint);
      SetLabel(labels, adjPoint, NO_COASTLINE_AREA_IDX, L);
      L' := L[adjPoint := NO_COASTLINE_AREA_IDX];
      land' := land + 1;
      border' := border + {adjPoint};
      zeros' := zeros - {adjPoint};
    }
  }

  /** Dequeues the next pixel of the fill and examines its four neighbours. */
  method ExpandPoint(g: MapGenerator, labels: array2<int>, idx: int, seed: Point,
                     queue: seq<Point>, water: int, land: int,
                     ghost img: map<Point, Color>, ghost L: map<Point, int>, ghost orig: map<Point, int>,
                     ghost zeros: set<Point>, ghost paths: map<Point, seq<Point>>,
                     ghost waterSide: set<Point>, ghost border: set<Point>)
    returns (queue': seq<Point>, water': int, land': int, ghost L': map<Point, int>,
             ghost zeros': set<Point>, ghost paths': map<Point, seq<Point>>,
             ghost waterSide': set<Point>, ghost border': set<Point>)
    requires Mirrors(g.mapImage, img) && Mirrors(labels, L) && 1 <= idx < NO_COASTLINE_AREA_IDX
    requires FillInv(img, L, idx, seed, orig, zeros, paths, queue, {}, waterSide, border)
    requires queue != [] && water == |waterSide| && land == |border|
    modifies labels
    ensures Mirrors(labels, L')
    ensures FillInv(img, L', idx, seed, orig, zeros', paths', queue', {}, waterSide', border')
    ensures water' == |waterSide'| && land' == |border'|
    ensures |zeros'| < |zeros| || (zeros' == zeros && |queue'| < |queue|)
  {
    var point := queue[0];
    queue' := queue[1..];
    water', land', L' := water, land, L;
    zeros', paths', waterSide', border' := zeros, paths, waterSide, border;
    DequeueStep(img, L, idx, seed, orig, zeros, paths, queue, waterSide, border);
    for k := 0 to 4
      invariant Mirrors(labels, L')
      invariant FillInv(img, L', idx, seed, orig, zeros', paths', queue', {point}, waterSide', border')
      invariant water' == |waterSide'| && land' == |border'|
      invariant point in paths'
      invariant |zeros'| < |zeros| || (zeros' == zeros && queue' == queue[1..])
      invariant L'.Keys == img.Keys
      invariant k > 0 ==> Settled(img, L', Neighbour(point, 0))
      invariant k > 1 ==> Settled(img, L', Neighbour(point, 1))
      invariant k > 2 ==> Settled(img, L', Neighbour(point, 2))
      invariant k > 3 ==> Settled(img, L', Neighbour(point, 3))
    {
      var adjPoint := Neighbour(point, k);
      NeighbourIsAdjacent(point, k);
      ghost var before := L';
      queue', water', land', L', zeros', paths', waterSide', border' :=
        VisitNeighbour(g, labels, idx, seed, point, adjPoint, queue', water', land',
                       img, L', orig, zeros', paths', waterSide', border');
      if k > 0 { SettledKept(img, before, L', Neighbour(point, 0)); }
      if k > 1 { SettledKept(img, before, L', Neighbour(point, 1)); }
      if k > 2 { SettledKept(img, before, L', Neighbour(point, 2)); }
    }
    ExpandDone(img, L', idx, seed, orig, zeros', paths', queue', point, waterSide', border');
  }

  /**
   * The fill loop of `GetCoastlineArea`: breadth-first from `initialPoint`
   * with label `idx`. Empty neighbours get the label and are queued;
   * unlabelled water-side and border neighbours get the no-region label and
   * are counted. A pixel is labelled before it is queued, so each is queued
   * at most once and the fill terminates.
   */
  method FillRegion(g: MapGenerator, labels: array2<int>, idx: int, initialPoint: Point,
                    ghost img: map<Point, Color>, ghost L: map<Point, int>)
    returns (water: int, land: int, ghost L': map<Point, int>, ghost paths: map<Point, seq<Point>>,
             ghost waterSide: set<Point>, ghost border: set<Point>)
    requires Mirrors(g.mapImage, img) && Mirrors(labels, L) && L.Keys == img.Keys
    requires initialPoint in L && L[initialPoint] == 0 && img[initialPoint] == EMPTY_AREA_COLOR
    requires 1 <= idx < NO_COASTLINE_AREA_IDX
    requires LabelsBelow(L, idx) && ColoursAgree(img, L) && Closed(img, L, 1, idx) && Coherent(img, L)
    modifies labels
    ensures Mirrors(labels, L') && FilledFrom(img, L, idx, initialPoint, L', paths, waterSide, border)
    ensures water == |waterSide| && land == |border|
  {
    water, land := 0, 0;
    StartFill(img, L, idx, initialPoint);
    SetLabel(labels, initialPoint, idx, L);
    L' := L[initialPoint := idx];
    var pointsQueue := [initialPoint];
    paths := map[initialPoint := [initialPoint]];
    ghost var zeros := set p | p in L && L[p] == 0 && p != initialPoint;
    waterSide, border := {}, {};

    while pointsQueue != []
      invariant Mirrors(labels, L')
      invariant FillInv(img, L', idx, initialPoint, L, zeros, paths, pointsQueue, {}, waterSide, border)
      invariant water == |waterSide| && land == |border|
      decreases |zeros|, |pointsQueue|
    {
      pointsQueue, water, land, L', zeros, paths, waterSide, border :=
        ExpandPoint(g, labels, idx, initialPoint, pointsQueue, water, land, img, L', L, zeros, paths, waterSide, border);
    }
    FinishFill(img, L', idx, initialPoint, L, zeros, paths, waterSide, border);
    assert Grows(L, L');
  }

  /**
   * `GetCoastlineArea`: fills the region of `initialPoint` with label `idx`
   * and returns it with its water-side and border counts.
   */
  method GetCoastlineArea(g: MapGenerator, labels: array2<int>, idx: int, initialPoint: Point,
                          ghost img: map<Point, Color>, ghost L: map<Point, int>)
    returns (area: CoastlineArea, ghost L': map<Point, int>, ghost paths: map<Point, seq<Point>>,
             ghost waterSide: set<Point>, ghost border: set<Point>)
    requires Mirrors(g.mapImage, img) && Mirrors(labels, L) && L.Keys == img.Keys
    requires initialPoint in L && L[initialPoint] == 0 && img[initialPoint] == EMPTY_AREA_COLOR
    requires 1 <= idx < NO_COASTLINE_AREA_IDX
    requires LabelsBelow(L, idx) && ColoursAgree(img, L) && Closed(img, L, 1, idx) && Coherent(img, L)
    modifies labels
    ensures fresh(area) && area.initialPoint == (initialPoint.x, initialPoint.y)
    ensures Mirrors(labels, L') && FilledFrom(img, L, idx, initialPoint, L', paths, waterSide, border)
    ensures area.adjacentWaterBorderPixels == |waterSide| && area.adjacentLandBorderPixels == |border|
  {
    area := new CoastlineArea(initialPoint.x, initialPoint.y);
    var water, land;
    water, land, L', paths, waterSide, border := FillRegion(g, labels, idx, initialPoint, img, L);
    area.adjacentWaterBorderPixels, area.adjacentLandBorderPixels := water, land;
  }

  /** Opens region `idx` at the unlabelled empty pixel `point` and appends its area to the region list. */
  method OpenRegion(g: MapGenerator, labels: array2<int>, point: Point, idx: int, areas: seq<CoastlineArea?>,
                    ghost img: map<Point, Color>, ghost L: map<Point, int>, ghost seeds: seq<Point>,
                    ghost reach: map<Point, seq<Point>>, ghost owner: map<Point, int>)
    returns (areas': seq<CoastlineArea?>, ghost L': map<Point, int>, ghost seeds': seq<Point>,
             ghost reach': map<Point, seq<Point>>, ghost owner': map<Point, int>)
    requires Mirrors(g.mapImage, img) && Mirrors(labels, L)
    requires ScanInv(img, L, idx, seeds, reach, owner) && AreasAgree(img, owner, seeds, areas)
    requires point in L && L[point] == 0 && img[point] == EMPTY_AREA_COLOR
    requires idx < NO_COASTLINE_AREA_IDX
    modifies labels
    ensures Mirrors(labels, L') && ScanInv(img, L', idx + 1, seeds', reach', owner')
    ensures AreasAgree(img, owner', seeds', areas') && |areas'| == |areas| + 1
    ensures Grows(L, L') && L'[point] != 0
  {
    var area;
    ghost var paths, waterSide, border;
    area, L', paths, waterSide, border := GetCoastlineArea(g, labels, idx, point, img, L);
    assert AreasAgree(img, owner, seeds, areas);
    AddRegion(img, L, idx, seeds, reach, owner, point, L', paths, waterSide, border);
    owner' := AddOwner(owner, waterSide + border, idx);
    AreasExtend(img, owner, owner', seeds, areas, area, point, idx);
    seeds', reach' := seeds + [point], reach + paths;
    areas' := areas + [area];
  }

  /**
   * One pixel of the region scan: an unlabelled empty pixel starts a new
   * region, whose area joins the region list under the next index; a
   * labelled pixel or one of another colour is skipped.
   */
  method ScanPixel(g: MapGenerator, labels: array2<int>, x: int, y: int, idx: int, areas: seq<CoastlineArea?>,
                   ghost img: map<Point, Color>, ghost L: map<Point, int>, ghost seeds: seq<Point>,
                   ghost reach: map<Point, seq<Point>>, ghost owner: map<Point, int>)
    returns (idx': int, areas': seq<CoastlineArea?>, ghost L': map<Point, int>, ghost seeds': seq<Point>,
             ghost reach': map<Point, seq<Point>>, ghost owner': map<Point, int>)
    requires Mirrors(g.mapImage, img) && Mirrors(labels, L)
    requires 0 <= x < labels.Length0 && 0 <= y < labels.Length1
    requires ScanInv(img, L, idx, seeds, reach, owner) && AreasAgree(img, owner, seeds, areas) && |areas| == idx
    requires Scanned(img, L, x, y) && idx < NO_COASTLINE_AREA_IDX
    modifies labels
    ensures Mirrors(labels, L') && ScanInv(img, L', idx', seeds', reach', owner')
    ensures AreasAgree(img, owner', seeds', areas') && |areas'| == idx'
    ensures Scanned(img, L', x, y + 1)
    ensures idx <= idx' <= idx + 1
  {
    assert Point(x, y) in L && Point(x, y) in img;
    if labels[x, y] <= 0 && g.mapImage[x, y] == EMPTY_AREA_COLOR {
      assert L[Point(x, y)] == 0;
      areas', L', seeds', reach', owner' := OpenRegion(g, labels, Point(x, y), idx, areas, img, L, seeds, reach, owner);
      ScannedKept(img, L, L', x, y);
      ScannedAt(img, L', x, y);
      idx' := idx + 1;
    } else {
      idx', areas', L', seeds', reach', owner' := idx, areas, L, seeds, reach, owner;
      ScannedAt(img, L, x, y);
    }
  }

  /**
   * The region scan of `FillCoastlineDefinedWater`: every unlabelled empty
   * pixel, in x-then-y order, seeds a fill with the next index, starting at
   * 1; slot 0 of the region list is empty. Afterwards every empty pixel
   * carries a region index.
   */
  method LabelCoastlineAreas(g: MapGenerator, ghost img: map<Point, Color>)
    returns (labels: array2<int>, areas: seq<CoastlineArea?>, ghost L: map<Point, int>, ghost seeds: seq<Point>,
             ghost reach: map<Point, seq<Point>>, ghost owner: map<Point, int>)
    requires Mirrors(g.mapImage, img)
    requires g.mapImage.Length0 * g.mapImage.Length1 < NO_COASTLINE_AREA_IDX
    ensures fresh(labels) && labels.Length0 == g.mapImage.Length0 && labels.Length1 == g.mapImage.Length1
    ensures Mirrors(labels, L) && ScanInv(img, L, |areas|, seeds, reach, owner) && AreasAgree(img, owner, seeds, areas)
    ensures forall p :: p in L && img[p] == EMPTY_AREA_COLOR ==> 1 <= L[p] < |areas|
  {
    var w, h := g.mapImage.Length0, g.mapImage.Length1;
    labels := new int[w, h]((_, _) => 0);
    L := Snapshot(labels);
    StartScan(img, L);
    areas, L, seeds, reach, owner := ScanColumns(g, labels, img, L);
  }

  /** The outer loop of the labelling: the columns, X increasing, from the state before any region. */
  method ScanColumns(g: MapGenerator, labels: array2<int>, ghost img: map<Point, Color>, ghost L0: map<Point, int>)
    returns (areas: seq<CoastlineArea?>, ghost L: map<Point, int>, ghost seeds: seq<Point>,
             ghost reach: map<Point, seq<Point>>, ghost owner: map<Point, int>)
    requires Mirrors(g.mapImage, img) && Mirrors(labels, L0)
    requires labels.Length0 * labels.Length1 < NO_COASTLINE_AREA_IDX
    requires ScanInv(img, L0, 1, [Point(0, 0)], map[], map[]) && Scanned(img, L0, 0, 0)
    modifies labels
    ensures Mirrors(labels, L) && ScanInv(img, L, |areas|, seeds, reach, owner) && AreasAgree(img, owner, seeds, areas)
    ensures forall p :: p in L && img[p] == EMPTY_AREA_COLOR ==> 1 <= L[p] < |areas|
  {
    var w, h := labels.Length0, labels.Length1;
    areas, L := [null], L0;
    var idx := 1;
    seeds, reach, owner := [Point(0, 0)], map[], map[];
    for x := 0 to w
      invariant Mirrors(labels, L) && ScanInv(img, L, idx, seeds, reach, owner)
      invariant AreasAgree(img, owner, seeds, areas) && |areas| == idx
      invariant Scanned(img, L, x, 0) && idx <= x * h + 1
    {
      idx, areas, L, seeds, reach, owner := ScanColumn(g, labels, x, idx, areas, img, L, seeds, reach, owner);
      NextColumn(img, L, x, h);
      ScanCountBound(x, h, w, h);
    }
    EveryEmptyPixelLabelled(img, L, |areas|, seeds, reach, owner, w);
  }

  /** The inner loop of the labelling: the pixels of column `x`, Y increasing. */
  method ScanColumn(g: MapGenerator, labels: array2<int>, x: int, idx: int, areas: seq<CoastlineArea?>,
                    ghost img: map<Point, Color>, ghost L: map<Point, int>, ghost seeds: seq<Point>,
                    ghost reach: map<Point, seq<Point>>, ghost owner: map<Point, int>)
    returns (idx': int, areas': seq<CoastlineArea?>, ghost L': map<Point, int>, ghost seeds': seq<Point>,
             ghost reach': map<Point, seq<Point>>, ghost owner': map<Point, int>)
    requires Mirrors(g.mapImage, img) && Mirrors(labels, L)
    requires 0 <= x < labels.Length0 && labels.Length0 * labels.Length1 < NO_COASTLINE_AREA_IDX
    requires ScanInv(img, L, idx, seeds, reach, owner) && AreasAgree(img, owner, seeds, areas) && |areas| == idx
    requires Scanned(img, L, x, 0) && idx <= x * labels.Length1 + 1
    modifies labels
    ensures Mirrors(labels, L') && ScanInv(img, L', idx', seeds', reach', owner')
    ensures AreasAgree(img, owner', seeds', areas') && |areas'| == idx'
    ensures Scanned(img, L', x, labels.Length1) && idx' <= x * labels.Length1 + labels.Length1 + 1
  {
    var w, h := labels.Length0, labels.Length1;
    idx', areas', L', seeds', reach', owner' := idx, areas, L, seeds, reach, owner;
    for y := 0 to h
      invariant Mirrors(labels, L') && ScanInv(img, L', idx', seeds', reach', owner')
      invariant AreasAgree(img, owner', seeds', areas') && |areas'| == idx'
      invariant Scanned(img, L', x, y) && idx' <= x * h + y + 1
    {
      ScanCountBound(x, y, w, h);
      idx', areas', L', seeds', reach', owner' := ScanPixel(g, labels, x, y, idx', areas', img, L', seeds', reach', owner');
    }
  }

  /** `coastlinieAreaIsWater`: slot `i` says whether region `i` is water; the empty slot 0 never is. */
  method ClassifyAreas(areas: seq<CoastlineArea?>) returns (isWater: seq<bool>)
    ensures |isWater| == |areas|
    ensures forall i :: 0 <= i < |areas| ==> isWater[i] == (areas[i] != null && areas[i].IsWater())
  {
    isWater := [];
    for i := 0 to |areas|
      invariant |isWater| == i
      invariant forall j :: 0 <= j < i ==> isWater[j] == (areas[j] != null && areas[j].IsWater())
    {
      isWater := isWater + [areas[i] != null && areas[i].IsWater()];
    }
  }

  /** With the region list agreeing with the scan, region `i` is water iff it owns more water-side than border pixels. */
  lemma WaterRegionsOwnMoreWaterSide(img: map<Point, Color>, owner: map<Point, int>, seeds: seq<Point>,
                                     areas: seq<CoastlineArea?>, isWater: seq<bool>, i: int)
    requires AreasAgree(img, owner, seeds, areas) && |isWater| == |areas|
    requires forall j :: 0 <= j < |areas| ==> isWater[j] == (areas[j] != null && areas[j].IsWater())
    requires 0 <= i < |areas|
    ensures isWater[i] <==> i >= 1 && |CountedBy(img, owner, i, COASTLINE_WATER_SIDE_COLOR)| >
                                      |CountedBy(img, owner, i, COASTLINE_BORDER_COLOR)|
  {
    if i >= 1 {
      assert areas[i] != null;
    }
  }

  /** `GetOvermapTile`: the overmap tile of a pixel, C#'s truncating `/` by 24 on each axis. */
  function GetOvermapTile(p: Point): (t: Point)
    ensures p.x >= 0 && p.y >= 0 ==>
      && OVERMAP_TILE_SIZE * t.x <= p.x < OVERMAP_TILE_SIZE * t.x + OVERMAP_TILE_SIZE
      && OVERMAP_TILE_SIZE * t.y <= p.y < OVERMAP_TILE_SIZE * t.y + OVERMAP_TILE_SIZE
  {
    Point(TruncDiv(p.x, OVERMAP_TILE_SIZE), TruncDiv(p.y, OVERMAP_TILE_SIZE))
  }

  /** A label marks a water pixel: a region label (not the no-region label) whose region is water. */
  ghost predicate WaterLabel(isWater: seq<bool>, areaIdx: int)
  {
    areaIdx != NO_COASTLINE_AREA_IDX && 0 <= areaIdx < |isWater| && isWater[areaIdx]
  }

  /** The water pixels among `water` that fall in overmap tile `t`. */
  ghost function TileWater(water: set<Point>, t: Point): set<Point>
  {
    set p | p in water && GetOvermapTile(p) == t
  }

  /** One more water pixel adds one to its own tile's count and leaves other tiles alone. */
  lemma AddToTile(water: set<Point>, p: Point)
    requires p !in water
    ensures |TileWater(water + {p}, GetOvermapTile(p))| == |TileWater(water, GetOvermapTile(p))| + 1
    ensures forall t :: t != GetOvermapTile(p) ==> TileWater(water + {p}, t) == TileWater(water, t)
  {
    assert TileWater(water + {p}, GetOvermapTile(p)) == TileWater(water, GetOvermapTile(p)) + {p};
  }

  /** The raster holds `img` with the pixels of `water` painted water-side colour. */
  ghost predicate PaintedOver(a: array2<Color>, img: map<Point, Color>, water: set<Point>)
    reads a
  {
    forall p :: p in img ==> (0 <= p.x < a.Length0 && 0 <= p.y < a.Length1 &&
      a[p.x, p.y] == if p in water then COASTLINE_WATER_SIDE_COLOR else img[p])
  }

  /** The per-tile counts agree with the water pixels found so far. */
  ghost predicate CountsAgree(counts: array2<int>, water: set<Point>)
    reads counts
  {
    forall tx, ty :: 0 <= tx < counts.Length0 && 0 <= ty < counts.Length1 ==>
      counts[tx, ty] == |TileWater(water, Point(tx, ty))|
  }

  /**
   * One pixel of the counting loop: a pixel of a water region is painted
   * water-side colour and counted in its overmap tile. The source draws it
   * at `(x, MapSize.Height - y - 1)` on the vertically flipped canvas, which
   * is raster pixel `(x, y)` because the height is even.
   */
  method CountPixel(g: MapGenerator, labels: array2<int>, isWater: seq<bool>, counts: array2<int>, x: int, y: int,
                    ghost img: map<Point, Color>, ghost L: map<Point, int>, ghost water: set<Point>)
    returns (ghost water': set<Point>)
    requires g.Valid() && Mirrors(labels, L) && LabelsBelow(L, |isWater|)
    requires counts.Length0 == g.overmapSize.width && counts.Length1 == g.overmapSize.height
    requires 0 <= x < g.mapSize.width && 0 <= y < g.mapSize.height && Point(x, y) in L && Point(x, y) !in water
    requires PaintedOver(g.mapImage, img, water) && CountsAgree(counts, water)
    modifies g.mapImage, counts
    ensures PaintedOver(g.mapImage, img, water') && CountsAgree(counts, water')
    ensures water' == if WaterLabel(isWater, L[Point(x, y)]) then water + {Point(x, y)} else water
  {
    water' := water;
    var cAreaIdx := labels[x, y];
    if cAreaIdx != NO_COASTLINE_AREA_IDX && isWater[cAreaIdx] {
      PaintWaterPixel(g.mapImage, img, water, x, y);
      var overmapTile := GetOvermapTile(Point(x, y));
      assert 0 <= overmapTile.x < counts.Length0 && 0 <= overmapTile.y < counts.Length1;
      CountWaterPixel(counts, water, Point(x, y));
      water' := water + {Point(x, y)};
    }
  }

  /** Painting a pixel water-side colour adds it to the painted water. */
  method PaintWaterPixel(a: array2<Color>, ghost img: map<Point, Color>, ghost water: set<Point>, x: int, y: int)
    requires 0 <= x < a.Length0 && 0 <= y < a.Length1
    requires PaintedOver(a, img, water)
    modifies a
    ensures PaintedOver(a, img, water + {Point(x, y)})
  {
    a[x, y] := COASTLINE_WATER_SIDE_COLOR;
  }

  /** Counting a new water pixel in its tile keeps the counts in step with the water. */
  method CountWaterPixel(counts: array2<int>, ghost water: set<Point>, p: Point)
    requires p !in water && CountsAgree(counts, water)
    requires 0 <= GetOvermapTile(p).x < counts.Length0 && 0 <= GetOvermapTile(p).y < counts.Length1
    modifies counts
    ensures CountsAgree(counts, water + {p})
  {
    var overmapTile := GetOvermapTile(p);
    AddToTile(water, p);
    counts[overmapTile.x, overmapTile.y] := counts[overmapTile.x, overmapTile.y] + 1;
  }

  /** The water pixels among the pixels scanned before `(x, y)`. */
  ghost predicate WaterUpTo(L: map<Point, int>, isWater: seq<bool>, water: set<Point>, x: int, y: int)
  {
    forall p :: p in water <==> p in L && Before(p, x, y) && WaterLabel(isWater, L[p])
  }

  /** Looking at pixel `(x, y)` extends the water found so far by that pixel exactly when it is water. */
  lemma NextRow(L: map<Point, int>, isWater: seq<bool>, water: set<Point>, water': set<Point>, x: int, y: int)
    requires WaterUpTo(L, isWater, water, x, y) && Point(x, y) in L
    requires water' == if WaterLabel(isWater, L[Point(x, y)]) then water + {Point(x, y)} else water
    ensures WaterUpTo(L, isWater, water', x, y + 1)
  {
    forall p ensures p in water' <==> p in L && Before(p, x, y + 1) && WaterLabel(isWater, L[p]) {
      if p == Point(x, y) {
      } else {
        assert Before(p, x, y + 1) <==> Before(p, x, y);
      }
    }
  }

  /** Finishing column `x` moves the scanned prefix to the top of column `x + 1`. */
  lemma NextWaterColumn(L: map<Point, int>, isWater: seq<bool>, water: set<Point>, x: int, h: int)
    requires WaterUpTo(L, isWater, water, x, h) && forall p :: p in L ==> 0 <= p.y < h
    ensures WaterUpTo(L, isWater, water, x + 1, 0)
  {
    forall p | p in L
      ensures Before(p, x + 1, 0) <==> Before(p, x, h)
    {
    }
  }

  /**
   * The counting loop: every pixel of a water region is painted water-side
   * colour and counted in its overmap tile; nothing else is painted.
   */
  method CountWaterPixels(g: MapGenerator, labels: array2<int>, isWater: seq<bool>,
                          ghost img: map<Point, Color>, ghost L: map<Point, int>)
    returns (counts: array2<int>, ghost water: set<Point>)
    requires g.Valid() && Mirrors(g.mapImage, img) && Mirrors(labels, L) && LabelsBelow(L, |isWater|)
    requires labels.Length0 == g.mapSize.width && labels.Length1 == g.mapSize.height
    modifies g.mapImage
    ensures fresh(counts) && counts.Length0 == g.overmapSize.width && counts.Length1 == g.overmapSize.height
    ensures forall p :: p in water <==> p in L && WaterLabel(isWater, L[p])
    ensures PaintedOver(g.mapImage, img, water) && CountsAgree(counts, water)
  {
    var w, h := g.mapSize.width, g.mapSize.height;
    counts := new int[g.overmapSize.width, g.overmapSize.height]((_, _) => 0);
    water := {};
    assert WaterUpTo(L, isWater, water, 0, 0);
    for x := 0 to w
      invariant Mirrors(labels, L) && PaintedOver(g.mapImage, img, water) && CountsAgree(counts, water)
      invariant WaterUpTo(L, isWater, water, x, 0)
    {
      for y := 0 to h
        invariant Mirrors(labels, L) && PaintedOver(g.mapImage, img, water) && CountsAgree(counts, water)
        invariant WaterUpTo(L, isWater, water, x, y)
      {
        assert Point(x, y) in L && Point(x, y) !in water;
        ghost var before := water;
        water := CountPixel(g, labels, isWater, counts, x, y, img, L, water);
        NextRow(L, isWater, before, water, x, y);
      }
      assert forall p :: p in L ==> 0 <= p.y < h;
      NextWaterColumn(L, isWater, water, x, h);
    }
    forall p | p in L && WaterLabel(isWater, L[p]) ensures p in water {
      assert Before(p, w, 0);
    }
  }

  /**
   * The threshold for one overmap tile: all 576 of its pixels water makes it
   * `Water100Percent`, at least half (288) makes it `Water`, fewer leaves it
   * as it was.
   */
  function WaterThreshold(count: int, current: OvermapTerrainType): (t: OvermapTerrainType)
    ensures t != current ==> 2 * count >= OVERMAP_TILE_SIZE * OVERMAP_TILE_SIZE
    ensures t == OvermapTerrainType.Water100Percent && current != t ==> count == OVERMAP_TILE_SIZE * OVERMAP_TILE_SIZE
    ensures 2 * count >= OVERMAP_TILE_SIZE * OVERMAP_TILE_SIZE ==> t.Water100Percent? || t.Water?
  {
    if count == OVERMAP_TILE_SIZE * OVERMAP_TILE_SIZE then OvermapTerrainType.Water100Percent
    else if count >= OVERMAP_TILE_SIZE * OVERMAP_TILE_SIZE / 2 then OvermapTerrainType.Water
    else current
  }

  /** The threshold loop over the overmap grid, in place. */
  method ApplyWaterThreshold(g: MapGenerator, counts: array2<int>)
    requires g.Valid() && counts.Length0 == g.overmapSize.width && counts.Length1 == g.overmapSize.height
    modifies g.overmap
    ensures forall x, y :: 0 <= x < g.overmapSize.width && 0 <= y < g.overmapSize.height ==>
      g.overmap[x, y] == WaterThreshold(counts[x, y], old(g.overmap[x, y]))
  {
    var overmapTiles := OVERMAP_TILE_SIZE * OVERMAP_TILE_SIZE;
    var minWaterTilesForWaterOvermapTile := overmapTiles / 2;
    for x := 0 to g.overmapSize.width
      invariant forall i, j :: 0 <= i < x && 0 <= j < g.overmapSize.height ==>
        g.overmap[i, j] == WaterThreshold(counts[i, j], old(g.overmap[i, j]))
      invariant forall i, j :: x <= i < g.overmapSize.width && 0 <= j < g.overmapSize.height ==>
        g.overmap[i, j] == old(g.overmap[i, j])
    {
      for y := 0 to g.overmapSize.height
        invariant forall i, j :: 0 <= i < x && 0 <= j < g.overmapSize.height ==>
          g.overmap[i, j] == WaterThreshold(counts[i, j], old(g.overmap[i, j]))
        invariant forall j :: 0 <= j < y ==> g.overmap[x, j] == WaterThreshold(counts[x, j], old(g.overmap[x, j]))
        invariant forall i, j :: x <= i < g.overmapSize.width && 0 <= j < g.overmapSize.height && (i > x || j >= y) ==>
          g.overmap[i, j] == old(g.overmap[i, j])
      {
        if counts[x, y] == overmapTiles {
          g.overmap[x, y] := OvermapTerrainType.Water100Percent;
        } else if counts[x, y] >= minWaterTilesForWaterOvermapTile {
          g.overmap[x, y] := OvermapTerrainType.Water;
        }
      }
    }
  }

  /** Pixels `(x, y0) .. (x, y0 + m - 1)`. */
  ghost function Column(x: int, y0: int, m: nat): set<Point>
  {
    set j | y0 <= j < y0 + m :: Point(x, j)
  }

  /** The `n` by `m` pixel box with corner `(x0, y0)`. */
  ghost function Box(x0: int, y0: int, n: nat, m: nat): set<Point>
  {
    set i, j | x0 <= i < x0 + n && y0 <= j < y0 + m :: Point(i, j)
  }

  lemma ColumnMembers(x: int, y0: int, m: nat, p: Point)
    ensures p in Column(x, y0, m) <==> p.x == x && y0 <= p.y < y0 + m
  {
    if p.x == x && y0 <= p.y < y0 + m {
      assert p == Point(x, p.y);
    }
  }

  lemma BoxMembers(x0: int, y0: int, n: nat, m: nat, p: Point)
    ensures p in Box(x0, y0, n, m) <==> x0 <= p.x < x0 + n && y0 <= p.y < y0 + m
  {
    if x0 <= p.x < x0 + n && y0 <= p.y < y0 + m {
      assert p == Point(p.x, p.y);
    }
  }

  lemma {:induction false} ColumnSize(x: int, y0: int, m: nat)
    ensures |Column(x, y0, m)| == m
  {
    if m > 0 {
      ColumnSize(x, y0, m - 1);
      var c, top := Column(x, y0, m - 1), Point(x, y0 + m - 1);
      forall p ensures p in Column(x, y0, m) <==> p in c + {top} {
        ColumnMembers(x, y0, m, p);
        ColumnMembers(x, y0, m - 1, p);
      }
      assert Column(x, y0, m) == c + {top};
      ColumnMembers(x, y0, m - 1, top);
    }
  }

  /** A box holds `n * m` pixels. */
  lemma {:induction false} BoxSize(x0: int, y0: int, n: nat, m: nat)
    ensures |Box(x0, y0, n, m)| == n * m
  {
    if n > 0 {
      BoxSize(x0, y0, n - 1, m);
      ColumnSize(x0 + n - 1, y0, m);
      var b, c := Box(x0, y0, n - 1, m), Column(x0 + n - 1, y0, m);
      forall p ensures p in Box(x0, y0, n, m) <==> p in b + c {
        BoxMembers(x0, y0, n, m, p);
        BoxMembers(x0, y0, n - 1, m, p);
        ColumnMembers(x0 + n - 1, y0, m, p);
      }
      assert Box(x0, y0, n, m) == b + c;
      forall p | p in c ensures p !in b {
        BoxMembers(x0, y0, n - 1, m, p);
        ColumnMembers(x0 + n - 1, y0, m, p);
      }
      assert |b + c| == |b| + |c|;
      assert (n - 1) * m + m == n * m;
    }
  }

  /** The pixels of overmap tile `t`. */
  ghost function TilePixels(t: Point): set<Point>
  {
    Box(OVERMAP_TILE_SIZE * t.x, OVERMAP_TILE_SIZE * t.y, OVERMAP_TILE_SIZE, OVERMAP_TILE_SIZE)
  }

  lemma SubsetOfSameSize<T>(a: set<T>, b: set<T>)
    requires a <= b && |a| == |b|
    ensures a == b
  {
    if a != b {
      ProperSubsetIsSmaller(a, b);
    }
  }

  /**
   * Over pixels with non-negative coordinates, a tile never counts more than
   * its 576 pixels, and it counts all 576 exactly when every one of its
   * pixels is water: `Water100Percent` means a tile entirely of water.
   */
  lemma FullTileIsAllWater(water: set<Point>, t: Point)
    requires forall p :: p in water ==> p.x >= 0 && p.y >= 0
    requires t.x >= 0 && t.y >= 0
    ensures |TileWater(water, t)| <= OVERMAP_TILE_SIZE * OVERMAP_TILE_SIZE
    ensures |TileWater(water, t)| == OVERMAP_TILE_SIZE * OVERMAP_TILE_SIZE <==> TilePixels(t) <= water
  {
    var box, tw := TilePixels(t), TileWater(water, t);
    BoxSize(OVERMAP_TILE_SIZE * t.x, OVERMAP_TILE_SIZE * t.y, OVERMAP_TILE_SIZE, OVERMAP_TILE_SIZE);
    TileWaterInBox(water, t);
    if tw != box {
      ProperSubsetIsSmaller(tw, box);
    }
    if |tw| == OVERMAP_TILE_SIZE * OVERMAP_TILE_SIZE {
      SubsetOfSameSize(tw, box);
    }
    if box <= water {
      BoxInTileWater(water, t);
    }
  }

  /** The water pixels of a tile lie in its box. */
  lemma TileWaterInBox(water: set<Point>, t: Point)
    requires forall p :: p in water ==> p.x >= 0 && p.y >= 0
    ensures TileWater(water, t) <= TilePixels(t)
  {
    forall p | p in TileWater(water, t) ensures p in TilePixels(t) {
      BoxMembers(OVERMAP_TILE_SIZE * t.x, OVERMAP_TILE_SIZE * t.y, OVERMAP_TILE_SIZE, OVERMAP_TILE_SIZE, p);
    }
  }

  /** A tile whose whole box is water has its box as its water pixels. */
  lemma BoxInTileWater(water: set<Point>, t: Point)
    requires forall p :: p in water ==> p.x >= 0 && p.y >= 0
    requires t.x >= 0 && t.y >= 0
    requires TilePixels(t) <= water
    ensures TilePixels(t) <= TileWater(water, t)
  {
    forall p | p in TilePixels(t) ensures p in TileWater(water, t) {
      BoxMembers(OVERMAP_TILE_SIZE * t.x, OVERMAP_TILE_SIZE * t.y, OVERMAP_TILE_SIZE, OVERMAP_TILE_SIZE, p);
      TileOfBoxPixel(p, t);
    }
  }

  /** Every pixel of a tile's box belongs to that tile. */
  lemma TileOfBoxPixel(p: Point, t: Point)
    requires OVERMAP_TILE_SIZE * t.x <= p.x < OVERMAP_TILE_SIZE * t.x + OVERMAP_TILE_SIZE
    requires OVERMAP_TILE_SIZE * t.y <= p.y < OVERMAP_TILE_SIZE * t.y + OVERMAP_TILE_SIZE
    requires t.x >= 0 && t.y >= 0
    ensures GetOvermapTile(p) == t
  {
    var q := GetOvermapTile(p);
    assert OVERMAP_TILE_SIZE * (q.x - t.x) < OVERMAP_TILE_SIZE && OVERMAP_TILE_SIZE * (t.x - q.x) < OVERMAP_TILE_SIZE;
    assert OVERMAP_TILE_SIZE * (q.y - t.y) < OVERMAP_TILE_SIZE && OVERMAP_TILE_SIZE * (t.y - q.y) < OVERMAP_TILE_SIZE;
  }

  /** Region `i`, a real region (index 1 up), is water: it first reached more water-side than border pixels. */
  ghost predicate WaterRegion(img: map<Point, Color>, owner: map<Point, int>, i: int)
  {
    i >= 1 && |CountedBy(img, owner, i, COASTLINE_WATER_SIDE_COLOR)| > |CountedBy(img, owner, i, COASTLINE_BORDER_COLOR)|
  }

  /**
   * `FillCoastlineDefinedWater`: labels the empty regions of the raster
   * `img` it starts from, paints exactly the pixels of water regions
   * water-side colour, and sets each overmap tile by the number of its
   * pixels that are water.
   */
  method FillCoastlineDefinedWater(g: MapGenerator)
    returns (ghost img: map<Point, Color>, ghost L: map<Point, int>, ghost regions: int, ghost seeds: seq<Point>,
             ghost reach: map<Point, seq<Point>>, ghost owner: map<Point, int>, ghost water: set<Point>)
    requires g.Valid() && g.mapSize.width * g.mapSize.height < NO_COASTLINE_AREA_IDX
    modifies g.mapImage, g.overmap
    ensures old(Mirrors(g.mapImage, img))
    ensures ScanInv(img, L, regions, seeds, reach, owner)
    ensures forall p :: p in L && img[p] == EMPTY_AREA_COLOR ==> 1 <= L[p] < regions
    ensures forall p :: p in water <==> p in L && L[p] != NO_COASTLINE_AREA_IDX && WaterRegion(img, owner, L[p])
    ensures PaintedOver(g.mapImage, img, water)
    ensures forall x, y :: 0 <= x < g.overmapSize.width && 0 <= y < g.overmapSize.height ==>
      g.overmap[x, y] == WaterThreshold(|TileWater(water, Point(x, y))|, old(g.overmap[x, y]))
  {
    img := Snapshot(g.mapImage);
    var labels, areas;
    labels, areas, L, seeds, reach, owner := LabelCoastlineAreas(g, img);
    regions := |areas|;
    var isWater := ClassifyAreas(areas);
    forall i | 0 <= i < |areas| ensures isWater[i] <==> WaterRegion(img, owner, i) {
      WaterRegionsOwnMoreWaterSide(img, owner, seeds, areas, isWater, i);
    }
    var counts;
    counts, water := CountWaterPixels(g, labels, isWater, img, L);
    ApplyWaterThreshold(g, counts);
  }

  /** Paints colour `c` over the listed pixels, clipped to the raster: the rasterised shape of a drawn path or area. */
  method PaintPixels(a: array2<Color>, pixels: seq<Point>, c: Color)
    modifies a
    ensures forall x, y :: 0 <= x < a.Length0 && 0 <= y < a.Length1 ==>
      a[x, y] == if Point(x, y) in pixels then c else old(a[x, y])
  {
    for i := 0 to |pixels|
      invariant forall x, y :: 0 <= x < a.Length0 && 0 <= y < a.Length1 ==>
        a[x, y] == if Point(x, y) in pixels[..i] then c else old(a[x, y])
    {
      var p := pixels[i];
      assert pixels[..i + 1] == pixels[..i] + [p];
      if 0 <= p.x < a.Length0 && 0 <= p.y < a.Length1 {
        a[p.x, p.y] := c;
      }
    }
    assert pixels[..|pixels|] == pixels;
  }

  /**
   * `GenerateCoastlines`: draws every coastline's water-side strip, then its
   * red border, resolves the water, and finally erases the borders back to
   * empty. The two pixel lists are the rasterised strips and borders of all
   * coastlines.
   */
  method GenerateCoastlines(g: MapGenerator, sideIndicatorPixels: seq<Point>, borderPixels: seq<Point>)
    returns (ghost img: map<Point, Color>, ghost L: map<Point, int>, ghost regions: int, ghost seeds: seq<Point>,
             ghost reach: map<Point, seq<Point>>, ghost owner: map<Point, int>, ghost water: set<Point>)
    requires g.Valid() && g.mapSize.width * g.mapSize.height < NO_COASTLINE_AREA_IDX
    modifies g.mapImage, g.overmap
    ensures forall p :: p in img <==> 0 <= p.x < g.mapImage.Length0 && 0 <= p.y < g.mapImage.Length1
    ensures forall p :: p in img ==> img[p] == if p in borderPixels then COASTLINE_BORDER_COLOR
                                               else if p in sideIndicatorPixels then COASTLINE_WATER_SIDE_COLOR
                                               else old(g.mapImage[p.x, p.y])
    ensures ScanInv(img, L, regions, seeds, reach, owner)
    ensures forall p :: p in L && img[p] == EMPTY_AREA_COLOR ==> 1 <= L[p] < regions
    ensures forall p :: p in water <==> p in L && L[p] != NO_COASTLINE_AREA_IDX && WaterRegion(img, owner, L[p])
    ensures forall p :: p in img ==> g.mapImage[p.x, p.y] == if p in borderPixels then EMPTY_AREA_COLOR
                                                            else if p in water then COASTLINE_WATER_SIDE_COLOR
                                                            else img[p]
    ensures forall x, y :: 0 <= x < g.overmapSize.width && 0 <= y < g.overmapSize.height ==>
      g.overmap[x, y] == WaterThreshold(|TileWater(water, Point(x, y))|, old(g.overmap[x, y]))
  {
    PaintPixels(g.mapImage, sideIndicatorPixels, COASTLINE_WATER_SIDE_COLOR);
    PaintPixels(g.mapImage, borderPixels, COASTLINE_BORDER_COLOR);
    img, L, regions, seeds, reach, owner, water := FillCoastlineDefinedWater(g);
    PaintPixels(g.mapImage, borderPixels, EMPTY_AREA_COLOR);
  }
}
