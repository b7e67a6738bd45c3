/**
 * The run-length compression of tile lists in the save format: a run is
 * either a bare tile (a run of one) or a `[tile, count]` pair. Terrain
 * lists write runs of one bare; overmap layers write every run as a pair.
 */
module RunLength {
  datatype Run<T> = Bare(tile: T) | Counted(tile: T, count: nat)

  function RunLen<T>(r: Run<T>): nat
  {
    match r
    case Bare(_) => 1
    case Counted(_, n) => n
  }

  function Repeat<T>(t: T, n: nat): (s: seq<T>)
    ensures |s| == n && forall i :: 0 <= i < n ==> s[i] == t
  {
    seq(n, _ => t)
  }

  function Expand<T>(r: Run<T>): seq<T>
  {
    Repeat(r.tile, RunLen(r))
  }

  /** The tile list a run list stands for. */
  function Decode<T>(runs: seq<Run<T>>): seq<T>
  {
    if runs == [] then [] else Decode(runs[..|runs| - 1]) + Expand(runs[|runs| - 1])
  }

  /**
   * A run as the writer emits it: with `singleTileAsArray` every run is a
   * pair of count at least 1; otherwise a bare tile stands for a run of one
   * and pairs have count at least 2.
   */
  predicate WellFormedRun<T>(r: Run<T>, singleTileAsArray: bool)
  {
    match r
    case Bare(_) => !singleTileAsArray
    case Counted(_, n) => n >= (if singleTileAsArray then 1 else 2)
  }

  /** Every run well formed and no two neighbouring runs with the same tile. */
  predicate Canonical<T(==)>(runs: seq<Run<T>>, singleTileAsArray: bool)
  {
    && (forall i :: 0 <= i < |runs| ==> WellFormedRun(runs[i], singleTileAsArray))
    && (forall i :: 0 < i < |runs| ==> runs[i - 1].tile != runs[i].tile)
  }

  /**
   * `ProcessTile`: append the pending run (`tile` seen `count` times); a
   * pending run of zero is dropped.
   */
  function ProcessTile<T>(simplified: seq<Run<T>>, tile: T, count: nat, singleTileAsArray: bool): (r: seq<Run<T>>)
    ensures Decode(r) == Decode(simplified) + Repeat(tile, count)
    ensures count == 0 ==> r == simplified
    ensures count > 0 ==> |r| == |simplified| + 1 && WellFormedRun(r[|r| - 1], singleTileAsArray)
    ensures r[..|simplified|] == simplified
  {
    if count == 1 && !singleTileAsArray then
      simplified + [Bare(tile)]
    else if count >= 1 then
      simplified + [Counted(tile, count)]
    else
      assert Repeat(tile, count) == [];
      simplified
  }

  /**
   * `SimplifyTiles`: one pass over the tiles keeping the pending run. The
   * sentinel is the pending tile before the first one (`""` in C#, `None` in
   * Python); its zero-length run never reaches the output.
   */
  method SimplifyTiles<T(==)>(terrain: seq<T>, sentinel: T, singleTileAsArray: bool)
    returns (simplified: seq<Run<T>>)
    ensures Decode(simplified) == terrain
    ensures Canonical(simplified, singleTileAsArray)
    ensures |simplified| <= |terrain|
  {
    simplified := [];
    var tile, count := sentinel, 0;
    var i := 0;
    while i < |terrain|
      invariant 0 <= i <= |terrain|
      invariant Decode(simplified) + Repeat(tile, count) == terrain[..i]
      invariant Canonical(simplified, singleTileAsArray)
      invariant i > 0 ==> count > 0
      invariant count == 0 ==> simplified == []
      invariant simplified != [] ==> simplified[|simplified| - 1].tile != tile
      invariant |simplified| + (if count > 0 then 1 else 0) <= i
    {
      if terrain[i] == tile {
        PendingGrows(Decode(simplified), tile, count, terrain, i);
        count := count + 1;
      } else {
        simplified := AppendPending(simplified, tile, count, singleTileAsArray);
        PendingGrows(Decode(simplified), terrain[i], 0, terrain, i);
        tile, count := terrain[i], 1;
      }
      i := i + 1;
    }
    simplified := AppendPending(simplified, tile, count, singleTileAsArray);
    assert terrain[..i] == terrain;
  }

  /** One more tile equal to the pending one extends the pending run. */
  lemma PendingGrows<T>(done: seq<T>, tile: T, count: nat, terrain: seq<T>, i: nat)
    requires i < |terrain| && terrain[i] == tile
    requires done + Repeat(tile, count) == terrain[..i]
    ensures done + Repeat(tile, count + 1) == terrain[..i + 1]
  {
    assert Repeat(tile, count + 1) == Repeat(tile, count) + [tile];
    assert terrain[..i + 1] == terrain[..i] + [terrain[i]];
  }

  /** Closing the pending run keeps the list canonical. */
  function AppendPending<T(==)>(simplified: seq<Run<T>>, tile: T, count: nat, m: bool): (r: seq<Run<T>>)
    requires Canonical(simplified, m)
    requires count == 0 ==> simplified == []
    requires simplified != [] ==> simplified[|simplified| - 1].tile != tile
    ensures Canonical(r, m)
    ensures Decode(r) == Decode(simplified) + Repeat(tile, count)
    ensures r != [] ==> r[|r| - 1].tile == tile
    ensures |r| == |simplified| + (if count > 0 then 1 else 0)
  {
    var r := ProcessTile(simplified, tile, count, m);
    assert count > 0 ==> r == simplified + [r[|r| - 1]];
    r
  }

  /** `SimplifyTerrain` (tile lists of submaps): runs of one are bare. */
  method SimplifyTerrain(terrain: seq<string>) returns (simplified: seq<Run<string>>)
    ensures Decode(simplified) == terrain
    ensures Canonical(simplified, false)
  {
    simplified := SimplifyTiles(terrain, "", false);
  }

  /** `SimplifyOvermap` (overmap layers): every run is a `[tile, count]` pair. */
  method SimplifyOvermap(terrain: seq<string>) returns (simplified: seq<Run<string>>)
    ensures Decode(simplified) == terrain
    ensures Canonical(simplified, true)
  {
    simplified := SimplifyTiles(terrain, "", true);
  }

  lemma {:induction false} DecodeLength<T>(runs: seq<Run<T>>)
    ensures |Decode(runs)| == SumLen(runs)
  {
    if runs != [] {
      DecodeLength(runs[..|runs| - 1]);
    }
  }

  /** The total of the run lengths. */
  function SumLen<T>(runs: seq<Run<T>>): nat
  {
    if runs == [] then 0 else SumLen(runs[..|runs| - 1]) + RunLen(runs[|runs| - 1])
  }

  /**
   * In a canonical list, the last run is the whole trailing block of equal
   * tiles of the decoded list: the tile just before it is different.
   */
  lemma TrailingBlock<T>(runs: seq<Run<T>>, m: bool)
    requires Canonical(runs, m) && runs != []
    ensures var d, last := Decode(runs), runs[|runs| - 1];
      && RunLen(last) >= 1
      && |d| >= RunLen(last)
      && d[|d| - RunLen(last)..] == Repeat(last.tile, RunLen(last))
      && d[..|d| - RunLen(last)] == Decode(runs[..|runs| - 1])
      && (|d| > RunLen(last) ==> d[|d| - RunLen(last) - 1] != last.tile)
  {
    var prefix := runs[..|runs| - 1];
    if prefix != [] {
      var p := prefix[|prefix| - 1];
      assert p == runs[|runs| - 2];
      assert WellFormedRun(p, m);
      assert Decode(prefix) == Decode(prefix[..|prefix| - 1]) + Expand(p);
      assert Decode(prefix)[|Decode(prefix)| - 1] == p.tile;
    }
  }

  /**
   * The writer's output is the only canonical encoding of a tile list: two
   * canonical run lists that decode to the same tiles are equal.
   */
  lemma {:induction false} CanonicalIsUnique<T>(r1: seq<Run<T>>, r2: seq<Run<T>>, m: bool)
    requires Canonical(r1, m) && Canonical(r2, m)
    requires Decode(r1) == Decode(r2)
    ensures r1 == r2
  {
    if r1 == [] || r2 == [] {
      if r1 != [] { TrailingBlock(r1, m); }
      if r2 != [] { TrailingBlock(r2, m); }
    } else {
      LastRunsAgree(r1, r2, m);
      var p1, p2 := r1[..|r1| - 1], r2[..|r2| - 1];
      CanonicalPrefix(r1, m);
      CanonicalPrefix(r2, m);
      CanonicalIsUnique(p1, p2, m);
      assert r1 == p1 + [r1[|r1| - 1]];
      assert r2 == p2 + [r2[|r2| - 1]];
    }
  }

  /** Dropping the last run keeps a list canonical. */
  lemma CanonicalPrefix<T>(runs: seq<Run<T>>, m: bool)
    requires Canonical(runs, m) && runs != []
    ensures Canonical(runs[..|runs| - 1], m)
  {
    var p := runs[..|runs| - 1];
    assert forall i :: 0 <= i < |p| ==> p[i] == runs[i];
  }

  /** Two canonical lists with the same tiles end on the same run, after the same tiles. */
  lemma LastRunsAgree<T>(r1: seq<Run<T>>, r2: seq<Run<T>>, m: bool)
    requires Canonical(r1, m) && Canonical(r2, m) && r1 != [] && r2 != []
    requires Decode(r1) == Decode(r2)
    ensures r1[|r1| - 1] == r2[|r2| - 1]
    ensures Decode(r1[..|r1| - 1]) == Decode(r2[..|r2| - 1])
  {
    TrailingBlock(r1, m);
    TrailingBlock(r2, m);
    var d := Decode(r1);
    var l1, l2 := r1[|r1| - 1], r2[|r2| - 1];
    var n1, n2 := RunLen(l1), RunLen(l2);
    assert l1.tile == d[|d| - n1] == d[|d| - 1];
    assert l2.tile == d[|d| - n2] == d[|d| - 1];
    assert n1 == n2;
    assert WellFormedRun(l1, m) && WellFormedRun(l2, m);
  }

  /** Empty input gives empty output, in both modes. */
  lemma EmptyInput<T>(runs: seq<Run<T>>, m: bool)
    requires Canonical(runs, m) && Decode(runs) == []
    ensures runs == []
  {
    CanonicalIsUnique(runs, [], m);
  }
}
