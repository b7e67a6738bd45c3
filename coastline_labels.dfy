/**
 * The state of the region scan of `FillCoastlineDefinedWater`: which pixels
 * carry which region label, which region counted each water-side or border
 * pixel, and what the region list records about every region.
 */
module CoastlineLabels {
  import opened Terrain
  import opened TileCoords
  import opened MapGen
  import opened Coastline
  import opened FloodFill

  /** Pixel `p` comes before `(x, y)` in the scan (x outer, y inner). */
  predicate Before(p: Point, x: int, y: int)
  {
    p.x < x || (p.x == x && p.y < y)
  }

  /** The pixels of colour `c` that region `i` counted. */
  ghost function CountedBy(img: map<Point, Color>, owner: map<Point, int>, i: int, c: Color): set<Point>
  {
    set p | p in owner && owner[p] == i && p in img && img[p] == c
  }

  /** Each counted pixel is a neighbour of a pixel of the region that owns it. */
  ghost predicate OwnersTouch(L: map<Point, int>, owner: map<Point, int>)
  {
    forall p :: p in owner ==> exists q :: q in L && L[q] == owner[p] && Adjacent(q, p)
  }

  /**
   * Each counted pixel is owned by the first region, in scan order, that
   * has a pixel next to it.
   */
  ghost predicate OwnersFirst(L: map<Point, int>, idx: int, owner: map<Point, int>)
  {
    forall p, q {:trigger Adjacent(q, p)} :: p in owner && q in L && Adjacent(q, p) && 1 <= L[q] < idx ==>
      owner[p] <= L[q]
  }

  /**
   * Regions `1 .. idx - 1` are finished: the labelling is closed and
   * coherent, each region pixel has a path of empty pixels from its
   * region's seed, and the no-region label sits exactly on the counted
   * pixels, each owned by the first finished region next to it.
   */
  ghost predicate ScanInv(img: map<Point, Color>, L: map<Point, int>, idx: int, seeds: seq<Point>,
                          reach: map<Point, seq<Point>>, owner: map<Point, int>)
  {
    && L.Keys == img.Keys && 1 <= idx <= NO_COASTLINE_AREA_IDX && |seeds| == idx
    && LabelsBelow(L, idx) && ColoursAgree(img, L) && Closed(img, L, 1, idx) && Coherent(img, L)
    && (forall p :: p in reach <==> p in L && 1 <= L[p] < idx)
    && (forall p {:trigger reach[p]} :: p in reach ==> EmptyPath(img, reach[p], seeds[L[p]], p))
    && (forall p :: p in owner <==> p in L && L[p] == NO_COASTLINE_AREA_IDX)
    && (forall p :: p in owner ==> 1 <= owner[p] < idx)
    && OwnersTouch(L, owner) && OwnersFirst(L, idx, owner)
  }

  /** Every empty pixel before `(x, y)` has been given a region. */
  ghost predicate Scanned(img: map<Point, Color>, L: map<Point, int>, x: int, y: int)
    requires L.Keys == img.Keys
  {
    forall p :: p in L && Before(p, x, y) && img[p] == EMPTY_AREA_COLOR ==> L[p] != 0
  }

  /**
   * The region list: slot 0 is empty, slot `i` is region `i`, started at
   * `seeds[i]`, with as many water-side and border pixels as it owns.
   */
  ghost predicate AreasAgree(img: map<Point, Color>, owner: map<Point, int>, seeds: seq<Point>,
                             areas: seq<CoastlineArea?>)
    reads areas
  {
    && |areas| == |seeds| && |areas| >= 1 && areas[0] == null
    && forall i :: 1 <= i < |areas| ==>
         && areas[i] != null && areas[i].initialPoint == (seeds[i].x, seeds[i].y)
         && areas[i].adjacentWaterBorderPixels == |CountedBy(img, owner, i, COASTLINE_WATER_SIDE_COLOR)|
         && areas[i].adjacentLandBorderPixels == |CountedBy(img, owner, i, COASTLINE_BORDER_COLOR)|
  }

  /** `owner` extended with the pixels `counted`, all owned by region `idx`. */
  ghost function AddOwner(owner: map<Point, int>, counted: set<Point>, idx: int): (o: map<Point, int>)
    ensures o.Keys == owner.Keys + counted
    ensures forall p :: p in o ==> o[p] == if p in counted then idx else owner[p]
  {
    owner + map p | p in counted :: idx
  }

  /** Before any region: nothing labelled, nothing counted. */
  lemma StartScan(img: map<Point, Color>, L: map<Point, int>)
    requires L.Keys == img.Keys && forall p :: p in L ==> L[p] == 0 && 0 <= p.x && 0 <= p.y
    ensures ScanInv(img, L, 1, [Point(0, 0)], map[], map[])
    ensures Scanned(img, L, 0, 0)
  {
    forall p | p in L ensures !Before(p, 0, 0) {
    }
  }

  /** The new region's pixels join the reach map with paths from the new seed. */
  lemma ReachAfterFill(img: map<Point, Color>, L: map<Point, int>, idx: int, seeds: seq<Point>,
                       reach: map<Point, seq<Point>>, owner: map<Point, int>, seed: Point,
                       L': map<Point, int>, paths: map<Point, seq<Point>>, waterSide: set<Point>, border: set<Point>)
    requires ScanInv(img, L, idx, seeds, reach, owner) && idx < NO_COASTLINE_AREA_IDX
    requires FilledFrom(img, L, idx, seed, L', paths, waterSide, border)
    ensures forall p :: p in reach + paths <==> p in L' && 1 <= L'[p] < idx + 1
    ensures forall p {:trigger (reach + paths)[p]} :: p in reach + paths ==>
      EmptyPath(img, (reach + paths)[p], (seeds + [seed])[L'[p]], p)
  {
    var seeds' := seeds + [seed];
    var reach' := reach + paths;
    forall p | p in paths ensures L[p] == 0 {
      assert L'[p] == idx;
    }
    forall p | p in reach'
      ensures EmptyPath(img, reach'[p], seeds'[L'[p]], p)
    {
      if p in paths {
        assert reach'[p] == paths[p];
      } else {
        assert reach'[p] == reach[p] && L'[p] == L[p];
        assert seeds'[L[p]] == seeds[L[p]];
      }
    }
  }

  /** The pixels the fill counted are owned by region `idx`; older owners are unchanged. */
  lemma OwnersAfterFill(img: map<Point, Color>, L: map<Point, int>, idx: int, seeds: seq<Point>,
                        reach: map<Point, seq<Point>>, owner: map<Point, int>, seed: Point,
                        L': map<Point, int>, paths: map<Point, seq<Point>>, waterSide: set<Point>, border: set<Point>)
    requires ScanInv(img, L, idx, seeds, reach, owner) && idx < NO_COASTLINE_AREA_IDX
    requires FilledFrom(img, L, idx, seed, L', paths, waterSide, border)
    ensures forall p :: p in AddOwner(owner, waterSide + border, idx) <==>
      p in L' && L'[p] == NO_COASTLINE_AREA_IDX
    ensures forall p :: p in AddOwner(owner, waterSide + border, idx) ==>
      1 <= (AddOwner(owner, waterSide + border, idx))[p] < idx + 1
    ensures CountedBy(img, AddOwner(owner, waterSide + border, idx), idx, COASTLINE_WATER_SIDE_COLOR) == waterSide
    ensures CountedBy(img, AddOwner(owner, waterSide + border, idx), idx, COASTLINE_BORDER_COLOR) == border
    ensures forall i, c :: i != idx ==>
      CountedBy(img, AddOwner(owner, waterSide + border, idx), i, c) == CountedBy(img, owner, i, c)
  {
    var counted := waterSide + border;
    forall p | p in L && L[p] == 0 && L'[p] == NO_COASTLINE_AREA_IDX ensures p in counted {
      assert img[p] == COASTLINE_WATER_SIDE_COLOR || img[p] == COASTLINE_BORDER_COLOR;
    }
    OwnerKeysAfter(L, L', owner, counted, idx);
    CountedAfter(img, owner, waterSide, border, idx);
  }

  /** The owned pixels after the fill are the older ones and the newly counted ones. */
  lemma OwnerKeysAfter(L: map<Point, int>, L': map<Point, int>, owner: map<Point, int>, counted: set<Point>, idx: int)
    requires Grows(L, L') && forall p :: p in owner <==> p in L && L[p] == NO_COASTLINE_AREA_IDX
    requires forall p :: p in counted <==> p in L && L[p] == 0 && L'[p] == NO_COASTLINE_AREA_IDX
    requires forall p :: p in L && L[p] == 0 ==> L'[p] == 0 || L'[p] == idx || L'[p] == NO_COASTLINE_AREA_IDX
    ensures forall p :: p in AddOwner(owner, counted, idx) <==> p in L' && L'[p] == NO_COASTLINE_AREA_IDX
  {
  }

  /** Region `idx` owns exactly the pixels it counted, by colour; older regions own what they owned. */
  lemma CountedAfter(img: map<Point, Color>, owner: map<Point, int>, waterSide: set<Point>, border: set<Point>,
                     idx: int)
    requires forall p :: p in owner ==> owner[p] < idx
    requires forall p :: p in waterSide + border ==> p !in owner
    requires forall p :: p in waterSide ==> p in img && img[p] == COASTLINE_WATER_SIDE_COLOR
    requires forall p :: p in border ==> p in img && img[p] == COASTLINE_BORDER_COLOR
    ensures CountedBy(img, AddOwner(owner, waterSide + border, idx), idx, COASTLINE_WATER_SIDE_COLOR) == waterSide
    ensures CountedBy(img, AddOwner(owner, waterSide + border, idx), idx, COASTLINE_BORDER_COLOR) == border
    ensures forall i, c :: i != idx ==>
      CountedBy(img, AddOwner(owner, waterSide + border, idx), i, c) == CountedBy(img, owner, i, c)
  {
    var owner' := AddOwner(owner, waterSide + border, idx);
    assert CountedBy(img, owner', idx, COASTLINE_WATER_SIDE_COLOR) == waterSide;
    assert CountedBy(img, owner', idx, COASTLINE_BORDER_COLOR) == border;
  }

  /**
   * The pixels the fill counted touch the new region and no older one: an
   * older region next to one of them would have labelled it already.
   */
  lemma OwnersFirstAfterFill(img: map<Point, Color>, L: map<Point, int>, idx: int, seeds: seq<Point>,
                             reach: map<Point, seq<Point>>, owner: map<Point, int>, seed: Point,
                             L': map<Point, int>, paths: map<Point, seq<Point>>, waterSide: set<Point>, border: set<Point>)
    requires ScanInv(img, L, idx, seeds, reach, owner) && idx < NO_COASTLINE_AREA_IDX
    requires FilledFrom(img, L, idx, seed, L', paths, waterSide, border)
    ensures OwnersTouch(L', AddOwner(owner, waterSide + border, idx))
    ensures OwnersFirst(L', idx + 1, AddOwner(owner, waterSide + border, idx))
  {
    var counted := waterSide + border;
    assert forall p :: p in counted ==> p in L && L[p] == 0 && !Untouched(img[p]);
    OwnersTouchKept(L, L', owner, idx, paths, counted);
    OwnersFirstKept(img, L, L', owner, idx, counted);
  }

  /** Older owners keep their neighbours; the new ones have theirs in the new region. */
  lemma OwnersTouchKept(L: map<Point, int>, L': map<Point, int>, owner: map<Point, int>, idx: int,
                        paths: map<Point, seq<Point>>, counted: set<Point>)
    requires Grows(L, L') && OwnersTouch(L, owner) && (forall p :: p in owner ==> owner[p] != 0)
    requires TouchedBy(paths, counted) && forall p :: p in paths ==> p in L' && L'[p] == idx
    ensures OwnersTouch(L', AddOwner(owner, counted, idx))
  {
    var owner' := AddOwner(owner, counted, idx);
    forall p | p in owner' ensures exists q :: q in L' && L'[q] == owner'[p] && Adjacent(q, p) {
      if p in counted {
        var q :| q in paths && Adjacent(q, p);
        assert L'[q] == idx;
      } else {
        var q :| q in L && L[q] == owner[p] && Adjacent(q, p);
        assert L'[q] == L[q];
      }
    }
  }

  /**
   * A pixel the new region counted was unlabelled, so no older, closed
   * region is next to it; older owners already came first.
   */
  lemma OwnersFirstKept(img: map<Point, Color>, L: map<Point, int>, L': map<Point, int>, owner: map<Point, int>,
                        idx: int, counted: set<Point>)
    requires L.Keys == img.Keys && Grows(L, L') && Closed(img, L, 1, idx) && idx < NO_COASTLINE_AREA_IDX
    requires OwnersFirst(L, idx, owner) && forall p :: p in owner ==> owner[p] < idx
    requires forall p :: p in counted ==> p in L && L[p] == 0 && !Untouched(img[p])
    requires forall p :: p in L && L[p] == 0 ==> L'[p] == 0 || L'[p] == idx || L'[p] == NO_COASTLINE_AREA_IDX
    ensures OwnersFirst(L', idx + 1, AddOwner(owner, counted, idx))
  {
    var owner' := AddOwner(owner, counted, idx);
    forall p, q | p in owner' && q in L' && Adjacent(q, p) && 1 <= L'[q] < idx + 1
      ensures owner'[p] <= L'[q]
    {
      if L'[q] != idx {
        assert L[q] != 0 && L'[q] == L[q];
        if p in counted {
          assert false;
        }
      }
    }
  }

  /** A finished fill adds one region to the scan state. */
  lemma AddRegion(img: map<Point, Color>, L: map<Point, int>, idx: int, seeds: seq<Point>,
                  reach: map<Point, seq<Point>>, owner: map<Point, int>, seed: Point,
                  L': map<Point, int>, paths: map<Point, seq<Point>>, waterSide: set<Point>, border: set<Point>)
    requires ScanInv(img, L, idx, seeds, reach, owner) && idx < NO_COASTLINE_AREA_IDX
    requires FilledFrom(img, L, idx, seed, L', paths, waterSide, border)
    ensures ScanInv(img, L', idx + 1, seeds + [seed], reach + paths, AddOwner(owner, waterSide + border, idx))
    ensures CountedBy(img, AddOwner(owner, waterSide + border, idx), idx, COASTLINE_WATER_SIDE_COLOR) == waterSide
    ensures CountedBy(img, AddOwner(owner, waterSide + border, idx), idx, COASTLINE_BORDER_COLOR) == border
    ensures forall i, c :: i != idx ==>
      CountedBy(img, AddOwner(owner, waterSide + border, idx), i, c) == CountedBy(img, owner, i, c)
  {
    ReachAfterFill(img, L, idx, seeds, reach, owner, seed, L', paths, waterSide, border);
    OwnersAfterFill(img, L, idx, seeds, reach, owner, seed, L', paths, waterSide, border);
    OwnersFirstAfterFill(img, L, idx, seeds, reach, owner, seed, L', paths, waterSide, border);
  }

  /** Labels only grow, so the scanned prefix stays labelled. */
  lemma ScannedKept(img: map<Point, Color>, L: map<Point, int>, L': map<Point, int>, x: int, y: int)
    requires L.Keys == img.Keys && Grows(L, L') && Scanned(img, L, x, y)
    ensures Scanned(img, L', x, y)
  {
  }

  /** The end of column `x` is the start of column `x + 1`. */
  lemma NextColumn(img: map<Point, Color>, L: map<Point, int>, x: int, h: int)
    requires L.Keys == img.Keys && Scanned(img, L, x, h)
    requires forall p :: p in L ==> 0 <= p.y < h
    ensures Scanned(img, L, x + 1, 0)
  {
    forall p | p in L && Before(p, x + 1, 0) && img[p] == EMPTY_AREA_COLOR
      ensures L[p] != 0
    {
      assert Before(p, x, h);
    }
  }

  /** A pixel that is labelled, or not empty, extends the scanned prefix by itself. */
  lemma ScannedAt(img: map<Point, Color>, L: map<Point, int>, x: int, y: int)
    requires L.Keys == img.Keys && Scanned(img, L, x, y)
    requires Point(x, y) in L ==> L[Point(x, y)] != 0 || img[Point(x, y)] != EMPTY_AREA_COLOR
    ensures Scanned(img, L, x, y + 1)
  {
    forall p | p in L && Before(p, x, y + 1) && img[p] == EMPTY_AREA_COLOR
      ensures L[p] != 0
    {
      if p != Point(x, y) { assert Before(p, x, y); }
    }
  }

  /** A region opened at pixel `(x, y)` is at most the `x * h + y + 1`-th, and stays below `w * h + 1`. */
  lemma ScanCountBound(x: int, y: int, w: int, h: int)
    requires 0 <= x < w && 0 <= y <= h
    ensures y < h ==> x * h + y + 1 <= w * h
    ensures (x + 1) * h == x * h + h
  {
    assert x * h + h == (x + 1) * h;
    assert (x + 1) * h <= w * h by {
      assert x + 1 <= w;
    }
  }

  /** The region list grows by the area of the region just filled. */
  lemma AreasExtend(img: map<Point, Color>, owner: map<Point, int>, owner': map<Point, int>, seeds: seq<Point>,
                    areas: seq<CoastlineArea?>, area: CoastlineArea, seed: Point, idx: int)
    requires AreasAgree(img, owner, seeds, areas) && |areas| == idx
    requires forall i, c :: i != idx ==> CountedBy(img, owner', i, c) == CountedBy(img, owner, i, c)
    requires area.initialPoint == (seed.x, seed.y)
    requires area.adjacentWaterBorderPixels == |CountedBy(img, owner', idx, COASTLINE_WATER_SIDE_COLOR)|
    requires area.adjacentLandBorderPixels == |CountedBy(img, owner', idx, COASTLINE_BORDER_COLOR)|
    ensures AreasAgree(img, owner', seeds + [seed], areas + [area])
  {
    var areas' := areas + [area];
    forall i | 1 <= i < |areas'|
      ensures areas'[i] != null && areas'[i].initialPoint == ((seeds + [seed])[i].x, (seeds + [seed])[i].y)
      ensures areas'[i].adjacentWaterBorderPixels == |CountedBy(img, owner', i, COASTLINE_WATER_SIDE_COLOR)|
      ensures areas'[i].adjacentLandBorderPixels == |CountedBy(img, owner', i, COASTLINE_BORDER_COLOR)|
    {
      if i < idx {
        assert areas'[i] == areas[i];
        assert CountedBy(img, owner', i, COASTLINE_WATER_SIDE_COLOR) == CountedBy(img, owner, i, COASTLINE_WATER_SIDE_COLOR);
        assert CountedBy(img, owner', i, COASTLINE_BORDER_COLOR) == CountedBy(img, owner, i, COASTLINE_BORDER_COLOR);
      }
    }
  }

  /**
   * After the scan, a water-side or border pixel is counted exactly when it
   * lies next to a pixel of some region, and then by the region with the
   * smallest index among those next to it.
   */
  lemma CountedByFirstRegionAlongside(img: map<Point, Color>, L: map<Point, int>, idx: int, seeds: seq<Point>,
                                      reach: map<Point, seq<Point>>, owner: map<Point, int>, p: Point)
    requires ScanInv(img, L, idx, seeds, reach, owner)
    requires p in img && (img[p] == COASTLINE_WATER_SIDE_COLOR || img[p] == COASTLINE_BORDER_COLOR)
    ensures p in owner <==> exists q :: q in L && Adjacent(q, p) && 1 <= L[q] < idx
    ensures p in owner ==> exists q :: q in L && Adjacent(q, p) && L[q] == owner[p]
    ensures p in owner ==> forall q :: q in L && Adjacent(q, p) && 1 <= L[q] < idx ==> owner[p] <= L[q]
  {
    if p in owner {
      var q :| q in L && L[q] == owner[p] && Adjacent(q, p);
      assert 1 <= L[q] < idx;
    }
    if exists q :: q in L && Adjacent(q, p) && 1 <= L[q] < idx {
      var q :| q in L && Adjacent(q, p) && 1 <= L[q] < idx;
      assert L[p] != 0;
    }
  }

  /** Once every pixel is scanned, every empty pixel carries a region index. */
  lemma EveryEmptyPixelLabelled(img: map<Point, Color>, L: map<Point, int>, idx: int, seeds: seq<Point>,
                                reach: map<Point, seq<Point>>, owner: map<Point, int>, w: int)
    requires ScanInv(img, L, idx, seeds, reach, owner) && Scanned(img, L, w, 0)
    requires forall p :: p in L ==> p.x < w
    ensures forall p :: p in L && img[p] == EMPTY_AREA_COLOR ==> 1 <= L[p] < idx
  {
    forall p | p in L && img[p] == EMPTY_AREA_COLOR
      ensures 1 <= L[p] < idx
    {
      assert Before(p, w, 0);
    }
  }
}
