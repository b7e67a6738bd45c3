/**
 * Integer ranges built on `Enumerable.Range(start, count)`, which rejects a
 * negative count with an exception (None here).
 */
module EnumExt {
  import opened Wrappers

  /** `Enumerable.Range(start, count)`: start, start+1, ..., start+count-1. */
  function EnumerableRange(start: int, count: int): (r: Option<seq<int>>)
    ensures r.Some? <==> count >= 0
    ensures r.Some? ==> |r.value| == count
    ensures r.Some? ==> forall i :: 0 <= i < |r.value| ==> r.value[i] - i == start
  {
    if count < 0 then None else Some(seq(count, i => start + i))
  }

  /** `Range(count)`: 0 .. count-1, in increasing order. */
  function Range(count: int): (r: Option<seq<int>>)
    ensures r.Some? <==> count >= 0
    ensures r.Some? ==> |r.value| == count
    ensures r.Some? ==> forall i :: 0 <= i < |r.value| ==> r.value[i] == i
    ensures r.Some? ==> forall x :: x in r.value <==> 0 <= x < count
  {
    var r := EnumerableRange(0, count);
    if r.Some? then
      RangeMembers(r.value, 0, count - 1);
      r
    else r
  }

  /**
   * `RangeCount(from, to)`: from .. to, both ends included (the second
   * parameter is the last value, despite its name in the source).
   */
  function RangeCount(from: int, to: int): (r: Option<seq<int>>)
    ensures r.Some? <==> to >= from - 1
    ensures r.Some? ==> |r.value| == to - from + 1
    ensures r.Some? ==> forall x :: x in r.value <==> from <= x <= to
    ensures r.Some? ==> |r.value| > 0 ==> r.value[0] == from
    ensures r.Some? ==> forall i :: 0 <= i < |r.value| - 1 ==> r.value[i + 1] == r.value[i] + 1
  {
    var r := EnumerableRange(from, (to - from) + 1);
    if r.Some? then
      RangeMembers(r.value, from, to);
      r
    else r
  }

  /** A sequence of consecutive integers holds exactly its interval. */
  lemma RangeMembers(s: seq<int>, from: int, to: int)
    requires |s| == to - from + 1
    requires forall i :: 0 <= i < |s| ==> s[i] - i == from
    ensures forall x :: x in s <==> from <= x <= to
  {
    forall x | from <= x <= to
      ensures x in s
    {
      assert s[x - from] == x;
    }
  }

  /** The boundary cases: an empty range is allowed, a shorter one throws. */
  lemma RangeCountBoundary(from: int)
    ensures RangeCount(from, from - 1) == Some([])
    ensures RangeCount(from, from - 2) == None
    ensures RangeCount(from, from) == Some([from])
  {
    var r := RangeCount(from, from);
    assert r.value == [from];
  }

  /** Row `x` of a nested `foreach`: `(x, y)` for each `y` of `ys`, in order. */
  function Row(x: int, ys: seq<int>): (r: seq<(int, int)>)
    ensures |r| == |ys| && forall j :: 0 <= j < |ys| ==> r[j] == (x, ys[j])
  {
    seq(|ys|, j requires 0 <= j < |ys| => (x, ys[j]))
  }

  /**
   * The pairs a nested `foreach` visits, `xs` in the outer loop and `ys` in
   * the inner one.
   */
  function Product(xs: seq<int>, ys: seq<int>): (r: seq<(int, int)>)
    ensures |r| == |xs| * |ys|
  {
    if xs == [] then []
    else
      var r := Product(xs[..|xs| - 1], ys) + Row(xs[|xs| - 1], ys);
      assert (|xs| - 1) * |ys| + |ys| == |xs| * |ys|;
      r
  }

  /** Pair `(xs[i], ys[j])` is visited in step `i * |ys| + j`: the outer loop is the major index. */
  lemma {:induction false} ProductIndex(xs: seq<int>, ys: seq<int>, i: int, j: int)
    requires 0 <= i < |xs| && 0 <= j < |ys|
    ensures 0 <= i * |ys| + j < |Product(xs, ys)|
    ensures Product(xs, ys)[i * |ys| + j] == (xs[i], ys[j])
  {
    var n := |xs| - 1;
    var front := xs[..n];
    assert Product(xs, ys) == Product(front, ys) + Row(xs[n], ys);
    if i < n {
      ProductIndex(front, ys, i, j);
      assert i * |ys| + j < n * |ys| by { LessTimes(i, n, j, |ys|); }
    } else {
      assert i * |ys| == |Product(front, ys)|;
    }
  }

  lemma LessTimes(i: int, n: int, j: int, m: int)
    requires 0 <= i < n && 0 <= j < m
    ensures i * m + j < n * m
  {
    assert (i + 1) * m <= n * m;
  }

  /** A pair is visited iff each of its parts is in its range. */
  lemma {:induction false} ProductMembers(xs: seq<int>, ys: seq<int>, a: int, b: int)
    ensures (a, b) in Product(xs, ys) <==> a in xs && b in ys
  {
    if xs != [] {
      var n := |xs| - 1;
      ProductMembers(xs[..n], ys, a, b);
      assert xs == xs[..n] + [xs[n]];
      assert (a, b) in Row(xs[n], ys) <==> a == xs[n] && b in ys;
    }
  }

  /** The visiting order appends one full row per outer iteration. */
  lemma ProductStep(xs: seq<int>, ys: seq<int>, i: int)
    requires 0 <= i < |xs|
    ensures Product(xs[..i + 1], ys) == Product(xs[..i], ys) + Row(xs[i], ys)
  {
    assert xs[..i + 1][..i] == xs[..i];
  }
}
