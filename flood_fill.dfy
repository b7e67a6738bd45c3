/**
 * The theory of the coastline flood fill, over snapshots of the raster and
 * of the label array as maps from pixel to value: what a region is, what a
 * fill in progress keeps true, and why each step of the fill keeps it.
 */
module FloodFill {
  import opened Terrain
  import opened TileCoords
  import opened MapGen

  /** The label of pixels that belong to no region (water-side and border pixels once reached). */
  const NO_COASTLINE_AREA_IDX: int := 0x7fff_ffff
  const EMPTY_AREA_COLOR: Color := WhiteColor
  const COASTLINE_BORDER_COLOR: Color := RedColor
  const COASTLINE_WATER_SIDE_COLOR: Color := DeepWaterColor

  /** The `k`-th neighbour of `p`, in the order of `ADJACENT_COORDS`. */
  function Neighbour(p: Point, k: int): Point
    requires 0 <= k < 4
  {
    Point(p.x + ADJACENT_COORDS[k].x, p.y + ADJACENT_COORDS[k].y)
  }

  lemma NeighbourIsAdjacent(p: Point, k: int)
    requires 0 <= k < 4
    ensures Adjacent(p, Neighbour(p, k))
  {
  }

  /** The four neighbours are exactly the adjacent pixels. */
  lemma NeighboursAreAdjacent(p: Point, q: Point)
    ensures (exists k :: 0 <= k < 4 && q == Neighbour(p, k)) <==> Adjacent(p, q)
  {
    AdjacentCoordsAreTheUnitSteps(p, q);
    if Adjacent(p, q) {
      var k :| 0 <= k < 4 && q == Point(p.x + ADJACENT_COORDS[k].x, p.y + ADJACENT_COORDS[k].y);
      assert q == Neighbour(p, k);
    }
  }

  /** A colour the fill neither enters nor counts. */
  predicate Untouched(c: Color)
  {
    c != EMPTY_AREA_COLOR && c != COASTLINE_WATER_SIDE_COLOR && c != COASTLINE_BORDER_COLOR
  }

  /** A neighbour inside the image has been labelled, or is never labelled by the fill. */
  ghost predicate Settled(img: map<Point, Color>, L: map<Point, int>, q: Point)
  {
    q in img ==> q in L && (L[q] != 0 || Untouched(img[q]))
  }

  /** `L2` labels the same pixels as `L` and keeps every label `L` had already given. */
  ghost predicate Grows(L: map<Point, int>, L2: map<Point, int>)
  {
    L2.Keys == L.Keys && forall p :: p in L && L[p] != 0 ==> L2[p] == L[p]
  }

  lemma SettledKept(img: map<Point, Color>, L: map<Point, int>, L2: map<Point, int>, q: Point)
    requires Settled(img, L, q) && Grows(L, L2)
    ensures Settled(img, L2, q)
  {
  }

  /** A 4-connected path of empty pixels from `from` to `to`. */
  ghost predicate EmptyPath(img: map<Point, Color>, path: seq<Point>, from: Point, to: Point)
  {
    && |path| > 0 && path[0] == from && path[|path| - 1] == to
    && (forall i :: 0 <= i < |path| ==> path[i] in img && img[path[i]] == EMPTY_AREA_COLOR)
    && (forall i {:trigger Adjacent(path[i - 1], path[i])} :: 0 < i < |path| ==> Adjacent(path[i - 1], path[i]))
  }

  /** Every label is below `bound` or is the no-region label. */
  ghost predicate LabelsBelow(L: map<Point, int>, bound: int)
  {
    forall p :: p in L ==> (0 <= L[p] < bound || L[p] == NO_COASTLINE_AREA_IDX)
  }

  /** Region labels sit only on empty pixels, the no-region label only on water-side or border pixels. */
  ghost predicate ColoursAgree(img: map<Point, Color>, L: map<Point, int>)
    requires L.Keys == img.Keys
  {
    forall p :: p in L && L[p] != 0 ==>
      if L[p] == NO_COASTLINE_AREA_IDX
      then img[p] == COASTLINE_WATER_SIDE_COLOR || img[p] == COASTLINE_BORDER_COLOR
      else img[p] == EMPTY_AREA_COLOR
  }

  /**
   * Regions `lo` .. `hi - 1` are closed: each neighbour of one of their
   * pixels is labelled, or has a colour the fill ignores.
   */
  ghost predicate Closed(img: map<Point, Color>, L: map<Point, int>, lo: int, hi: int)
    requires L.Keys == img.Keys
  {
    forall p, q {:trigger Adjacent(p, q)} :: p in L && q in L && Adjacent(p, q) && lo <= L[p] < hi ==>
      L[q] != 0 || Untouched(img[q])
  }

  /** Neighbouring empty pixels that are both labelled carry the same label. */
  ghost predicate Coherent(img: map<Point, Color>, L: map<Point, int>)
    requires L.Keys == img.Keys
  {
    forall p, q {:trigger Adjacent(p, q)} ::
      (p in L && q in L && Adjacent(p, q) && img[p] == EMPTY_AREA_COLOR && img[q] == EMPTY_AREA_COLOR
       && L[p] != 0 && L[q] != 0)
      ==> L[p] == L[q]
  }

  /** The labelling outside the running fill stays a valid partial labelling. */
  ghost predicate RegionsInv(img: map<Point, Color>, L: map<Point, int>, idx: int, orig: map<Point, int>)
  {
    && L.Keys == img.Keys && orig.Keys == img.Keys
    && LabelsBelow(L, idx + 1) && ColoursAgree(img, L)
    && Closed(img, L, 1, idx) && Coherent(img, L)
    && (forall p :: p in L && orig[p] != 0 ==> L[p] == orig[p])
    && (forall p :: p in L && orig[p] == 0 ==> L[p] == 0 || L[p] == idx || L[p] == NO_COASTLINE_AREA_IDX)
  }

  /** `zeros` are the unlabelled pixels and `paths` is keyed by the pixels of region `idx`. */
  ghost predicate TrackInv(L: map<Point, int>, idx: int, zeros: set<Point>, paths: map<Point, seq<Point>>)
  {
    && (forall p :: p in zeros <==> p in L && L[p] == 0)
    && (forall p :: p in paths <==> p in L && L[p] == idx)
  }

  /** Every pixel of the region is reached from the seed through empty pixels; the queue holds region pixels. */
  ghost predicate PathsInv(img: map<Point, Color>, seed: Point, paths: map<Point, seq<Point>>, queue: seq<Point>)
  {
    && seed in paths
    && (forall p {:trigger paths[p]} :: p in paths ==> EmptyPath(img, paths[p], seed, p))
    && (forall i :: 0 <= i < |queue| ==> queue[i] in paths)
  }

  /** A region pixel no longer queued (and not `exempt`) has all its neighbours settled. */
  ghost predicate FrontierInv(img: map<Point, Color>, L: map<Point, int>, paths: map<Point, seq<Point>>,
                              queue: seq<Point>, exempt: set<Point>)
    requires L.Keys == img.Keys
  {
    forall p, q {:trigger Adjacent(p, q)} :: p in paths && p !in queue && p !in exempt && q in L && Adjacent(p, q) ==>
      L[q] != 0 || Untouched(img[q])
  }

  /** `waterSide` and `border` are the pixels this fill has counted. */
  ghost predicate CountedInv(img: map<Point, Color>, L: map<Point, int>, orig: map<Point, int>,
                             waterSide: set<Point>, border: set<Point>)
    requires L.Keys == img.Keys && orig.Keys == img.Keys
  {
    && (forall p :: p in waterSide <==>
          p in L && orig[p] == 0 && L[p] == NO_COASTLINE_AREA_IDX && img[p] == COASTLINE_WATER_SIDE_COLOR)
    && (forall p :: p in border <==>
          p in L && orig[p] == 0 && L[p] == NO_COASTLINE_AREA_IDX && img[p] == COASTLINE_BORDER_COLOR)
  }

  /** Each pixel of `counted` is a neighbour of a pixel of the region `paths`. */
  ghost predicate TouchedBy(paths: map<Point, seq<Point>>, counted: set<Point>)
  {
    forall p :: p in counted ==> exists q :: q in paths && Adjacent(q, p)
  }

  /**
   * The state of one fill between two steps: `orig` holds the labels before
   * the fill, `zeros` the still unlabelled pixels, `paths` a path of empty
   * pixels from the seed to each pixel of the new region, and every region
   * pixel that is neither queued nor in `exempt` has all its neighbours
   * examined.
   */
  ghost predicate FillInv(img: map<Point, Color>, L: map<Point, int>, idx: int, seed: Point, orig: map<Point, int>,
                          zeros: set<Point>, paths: map<Point, seq<Point>>, queue: seq<Point>, exempt: set<Point>,
                          waterSide: set<Point>, border: set<Point>)
  {
    && RegionsInv(img, L, idx, orig) && TrackInv(L, idx, zeros, paths) && PathsInv(img, seed, paths, queue)
    && FrontierInv(img, L, paths, queue, exempt) && CountedInv(img, L, orig, waterSide, border)
    && TouchedBy(paths, waterSide + border)
  }

  /**
   * What a finished fill of region `idx` from `seed` has done to the labels
   * `L`, giving `L'`: earlier labels are kept and the labelling stays closed
   * and coherent; the pixels now labelled `idx` are the keys of `paths`, each
   * with a path of empty pixels from the seed; the pixels newly given the
   * no-region label are exactly the water-side pixels `waterSide` and the
   * border pixels `border`, each a neighbour of a pixel of the region; no
   * other pixel changed.
   */
  ghost predicate FilledFrom(img: map<Point, Color>, L: map<Point, int>, idx: int, seed: Point, L': map<Point, int>,
                             paths: map<Point, seq<Point>>, waterSide: set<Point>, border: set<Point>)
    requires L.Keys == img.Keys
  {
    && L'.Keys == L.Keys
    && LabelsBelow(L', idx + 1) && ColoursAgree(img, L') && Closed(img, L', 1, idx + 1) && Coherent(img, L')
    && Grows(L, L')
    && (forall p :: p in L && L[p] == 0 ==> L'[p] == 0 || L'[p] == idx || L'[p] == NO_COASTLINE_AREA_IDX)
    && (forall p :: p in L' ==> (L'[p] == idx <==> p in paths)) && seed in paths
    && (forall p :: p in paths ==> EmptyPath(img, paths[p], seed, p))
    && (forall p :: p in waterSide <==>
          p in L && L[p] == 0 && L'[p] == NO_COASTLINE_AREA_IDX && img[p] == COASTLINE_WATER_SIDE_COLOR)
    && (forall p :: p in border <==>
          p in L && L[p] == 0 && L'[p] == NO_COASTLINE_AREA_IDX && img[p] == COASTLINE_BORDER_COLOR)
    && TouchedBy(paths, waterSide + border)
  }

  /** The fill's start: the seed alone is labelled and queued. */
  lemma StartFill(img: map<Point, Color>, L: map<Point, int>, idx: int, seed: Point)
    requires L.Keys == img.Keys && seed in L && L[seed] == 0 && img[seed] == EMPTY_AREA_COLOR
    requires 1 <= idx < NO_COASTLINE_AREA_IDX
    requires LabelsBelow(L, idx) && ColoursAgree(img, L) && Closed(img, L, 1, idx) && Coherent(img, L)
    ensures FillInv(img, L[seed := idx], idx, seed, L, set p | p in L && L[p] == 0 && p != seed,
                    map[seed := [seed]], [seed], {}, {}, {})
  {
    var L' := L[seed := idx];
    forall p, q | p in L' && q in L' && Adjacent(p, q) && img[p] == EMPTY_AREA_COLOR && img[q] == EMPTY_AREA_COLOR
      && L'[p] != 0 && L'[q] != 0
      ensures L'[p] == L'[q]
    {
      assert Adjacent(q, p);
    }
  }

  /** An unlabelled empty neighbour joins the region and the queue. */
  lemma JoinStep(img: map<Point, Color>, L: map<Point, int>, idx: int, seed: Point, orig: map<Point, int>,
                 zeros: set<Point>, paths: map<Point, seq<Point>>, queue: seq<Point>, point: Point,
                 waterSide: set<Point>, border: set<Point>, a: Point)
    requires 1 <= idx < NO_COASTLINE_AREA_IDX
    requires FillInv(img, L, idx, seed, orig, zeros, paths, queue, {point}, waterSide, border)
    requires point in paths && Adjacent(point, a) && a in L && L[a] == 0 && img[a] == EMPTY_AREA_COLOR
    ensures FillInv(img, L[a := idx], idx, seed, orig, zeros - {a}, paths[a := paths[point] + [a]],
                    queue + [a], {point}, waterSide, border)
  {
    var L', paths' := L[a := idx], paths[a := paths[point] + [a]];
    JoinKeepsRegions(img, L, idx, orig, a);
    JoinKeepsPaths(img, seed, paths, queue, point, a);
    assert TrackInv(L', idx, zeros - {a}, paths');
    JoinKeepsFrontier(img, L, idx, paths, queue, point, a);
    assert CountedInv(img, L', orig, waterSide, border);
    assert TouchedBy(paths', waterSide + border) by {
      forall p | p in waterSide + border ensures exists q :: q in paths' && Adjacent(q, p) {
        var q :| q in paths && Adjacent(q, p);
        assert q in paths';
      }
    }
  }

  /**
   * Giving an unlabelled empty pixel the running label keeps the labelling
   * valid: no older region is next to it, since those are closed.
   */
  lemma JoinKeepsRegions(img: map<Point, Color>, L: map<Point, int>, idx: int, orig: map<Point, int>, a: Point)
    requires 1 <= idx < NO_COASTLINE_AREA_IDX && RegionsInv(img, L, idx, orig)
    requires a in L && L[a] == 0 && img[a] == EMPTY_AREA_COLOR
    ensures RegionsInv(img, L[a := idx], idx, orig)
  {
    var L' := L[a := idx];
    forall p, q | p in L' && q in L' && Adjacent(p, q) && img[p] == EMPTY_AREA_COLOR && img[q] == EMPTY_AREA_COLOR
      && L'[p] != 0 && L'[q] != 0
      ensures L'[p] == L'[q]
    {
      assert Adjacent(q, p);
    }
    assert LabelsBelow(L', idx + 1);
    assert ColoursAgree(img, L');
    assert Closed(img, L', 1, idx);
  }

  /** The joining pixel's path is its neighbour's path and one more step. */
  lemma JoinKeepsPaths(img: map<Point, Color>, seed: Point, paths: map<Point, seq<Point>>, queue: seq<Point>,
                       point: Point, a: Point)
    requires PathsInv(img, seed, paths, queue)
    requires point in paths && Adjacent(point, a) && a in img && img[a] == EMPTY_AREA_COLOR
    ensures PathsInv(img, seed, paths[a := paths[point] + [a]], queue + [a])
  {
    var path := paths[point] + [a];
    assert EmptyPath(img, path, seed, a) by {
      assert forall i :: 0 <= i < |paths[point]| ==> path[i] == paths[point][i];
    }
    var paths' := paths[a := path];
    assert forall p :: p in paths' ==> EmptyPath(img, paths'[p], seed, p);
  }

  /** The joining pixel is queued, so it needs no settled neighbours yet. */
  lemma JoinKeepsFrontier(img: map<Point, Color>, L: map<Point, int>, idx: int, paths: map<Point, seq<Point>>,
                          queue: seq<Point>, point: Point, a: Point)
    requires L.Keys == img.Keys && FrontierInv(img, L, paths, queue, {point}) && point in paths && a in L && idx != 0
    ensures FrontierInv(img, L[a := idx], paths[a := paths[point] + [a]], queue + [a], {point})
  {
  }

  /** An unlabelled water-side or border neighbour gets the no-region label. */
  lemma MarkStep(img: map<Point, Color>, L: map<Point, int>, idx: int, seed: Point, orig: map<Point, int>,
                 zeros: set<Point>, paths: map<Point, seq<Point>>, queue: seq<Point>, point: Point,
                 waterSide: set<Point>, border: set<Point>, a: Point)
    requires 1 <= idx < NO_COASTLINE_AREA_IDX
    requires FillInv(img, L, idx, seed, orig, zeros, paths, queue, {point}, waterSide, border)
    requires point in paths && Adjacent(point, a) && a in L && L[a] == 0
    requires img[a] == COASTLINE_WATER_SIDE_COLOR || img[a] == COASTLINE_BORDER_COLOR
    ensures img[a] == COASTLINE_WATER_SIDE_COLOR ==>
      FillInv(img, L[a := NO_COASTLINE_AREA_IDX], idx, seed, orig, zeros - {a}, paths, queue, {point},
              waterSide + {a}, border) && a !in waterSide
    ensures img[a] == COASTLINE_BORDER_COLOR ==>
      FillInv(img, L[a := NO_COASTLINE_AREA_IDX], idx, seed, orig, zeros - {a}, paths, queue, {point},
              waterSide, border + {a}) && a !in border
  {
    var L' := L[a := NO_COASTLINE_AREA_IDX];
    MarkKeepsRegions(img, L, idx, orig, a);
    assert TrackInv(L', idx, zeros - {a}, paths);
    MarkKeepsFrontier(img, L, paths, queue, point, a);
    MarkCounts(img, L, orig, waterSide, border, a);
    if img[a] == COASTLINE_WATER_SIDE_COLOR {
      assert TouchedBy(paths, waterSide + {a} + border);
    } else {
      assert TouchedBy(paths, waterSide + (border + {a}));
    }
  }

  /** The no-region label on an unlabelled water-side or border pixel keeps the labelling valid. */
  lemma MarkKeepsRegions(img: map<Point, Color>, L: map<Point, int>, idx: int, orig: map<Point, int>, a: Point)
    requires 1 <= idx < NO_COASTLINE_AREA_IDX && RegionsInv(img, L, idx, orig)
    requires a in L && L[a] == 0
    requires img[a] == COASTLINE_WATER_SIDE_COLOR || img[a] == COASTLINE_BORDER_COLOR
    ensures RegionsInv(img, L[a := NO_COASTLINE_AREA_IDX], idx, orig)
  {
    var L' := L[a := NO_COASTLINE_AREA_IDX];
    assert LabelsBelow(L', idx + 1);
    assert ColoursAgree(img, L');
    assert Closed(img, L', 1, idx);
    assert Coherent(img, L');
  }

  /** A newly labelled pixel only settles more neighbours. */
  lemma MarkKeepsFrontier(img: map<Point, Color>, L: map<Point, int>, paths: map<Point, seq<Point>>,
                          queue: seq<Point>, point: Point, a: Point)
    requires L.Keys == img.Keys && FrontierInv(img, L, paths, queue, {point}) && a in L
    ensures FrontierInv(img, L[a := NO_COASTLINE_AREA_IDX], paths, queue, {point})
  {
  }

  /** The marked pixel joins the count of its colour. */
  lemma MarkCounts(img: map<Point, Color>, L: map<Point, int>, orig: map<Point, int>,
                   waterSide: set<Point>, border: set<Point>, a: Point)
    requires L.Keys == img.Keys && orig.Keys == img.Keys && CountedInv(img, L, orig, waterSide, border)
    requires a in L && L[a] == 0 && orig[a] == 0
    requires img[a] == COASTLINE_WATER_SIDE_COLOR || img[a] == COASTLINE_BORDER_COLOR
    ensures img[a] == COASTLINE_WATER_SIDE_COLOR ==>
      CountedInv(img, L[a := NO_COASTLINE_AREA_IDX], orig, waterSide + {a}, border) && a !in waterSide
    ensures img[a] == COASTLINE_BORDER_COLOR ==>
      CountedInv(img, L[a := NO_COASTLINE_AREA_IDX], orig, waterSide, border + {a}) && a !in border
  {
  }

  /** Dequeuing the head exempts it from closure until its neighbours are examined. */
  lemma DequeueStep(img: map<Point, Color>, L: map<Point, int>, idx: int, seed: Point, orig: map<Point, int>,
                    zeros: set<Point>, paths: map<Point, seq<Point>>, queue: seq<Point>,
                    waterSide: set<Point>, border: set<Point>)
    requires FillInv(img, L, idx, seed, orig, zeros, paths, queue, {}, waterSide, border) && queue != []
    ensures FillInv(img, L, idx, seed, orig, zeros, paths, queue[1..], {queue[0]}, waterSide, border)
    ensures queue[0] in paths
  {
    assert queue == [queue[0]] + queue[1..];
  }

  /** Once its four neighbours are examined, the dequeued pixel needs no exemption. */
  lemma ExpandDone(img: map<Point, Color>, L: map<Point, int>, idx: int, seed: Point, orig: map<Point, int>,
                   zeros: set<Point>, paths: map<Point, seq<Point>>, queue: seq<Point>, point: Point,
                   waterSide: set<Point>, border: set<Point>)
    requires FillInv(img, L, idx, seed, orig, zeros, paths, queue, {point}, waterSide, border)
    requires L.Keys == img.Keys
    requires Settled(img, L, Neighbour(point, 0)) && Settled(img, L, Neighbour(point, 1))
    requires Settled(img, L, Neighbour(point, 2)) && Settled(img, L, Neighbour(point, 3))
    ensures FillInv(img, L, idx, seed, orig, zeros, paths, queue, {}, waterSide, border)
  {
    forall q | q in L && Adjacent(point, q)
      ensures L[q] != 0 || Untouched(img[q])
    {
      NeighboursAreAdjacent(point, q);
    }
  }

  /** With the queue empty, the new region is closed too. */
  lemma FinishFill(img: map<Point, Color>, L: map<Point, int>, idx: int, seed: Point, orig: map<Point, int>,
                   zeros: set<Point>, paths: map<Point, seq<Point>>, waterSide: set<Point>, border: set<Point>)
    requires FillInv(img, L, idx, seed, orig, zeros, paths, [], {}, waterSide, border)
    ensures Closed(img, L, 1, idx + 1)
    ensures forall p :: p in L && orig[p] == 0 ==> L[p] == 0 || L[p] == idx || L[p] == NO_COASTLINE_AREA_IDX
  {
    forall p, q | p in L && q in L && Adjacent(p, q) && 1 <= L[p] < idx + 1
      ensures L[q] != 0 || Untouched(img[q])
    {
      if L[p] == idx {
        assert p in paths;
      }
    }
  }

  /** Labelling an unlabelled pixel keeps every earlier label and settles that pixel. */
  lemma LabelOne(img: map<Point, Color>, L: map<Point, int>, zeros: set<Point>, a: Point, v: int)
    requires L.Keys == img.Keys && a in L && L[a] == 0 && v != 0 && a in zeros
    ensures Grows(L, L[a := v]) && Settled(img, L[a := v], a) && |zeros - {a}| < |zeros|
  {
    ProperSubsetIsSmaller(zeros - {a}, zeros);
  }

  /** Counting one more pixel. */
  lemma CountOne<T>(s: set<T>, x: T)
    requires x !in s
    ensures |s + {x}| == |s| + 1
  {
  }

  lemma ProperSubsetIsSmaller<T>(a: set<T>, b: set<T>)
    requires a < b
    ensures |a| < |b|
  {
    assert b == a + (b - a);
    assert a !! (b - a);
  }

}
