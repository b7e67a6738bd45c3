/**
 * What a ring closing guarantees: it stops either closed or with no open
 * way left at its loose ends, each way it merges in leaves both the open
 * ways and the unprocessed members, and the chain is made of exactly the
 * segments of the ways it merged.
 */
module OsmCloseProps {
  import opened Wrappers
  import opened OsmGeo
  import opened OsmClose

  /** An undirected segment between two nodes. */
  datatype Edge = Edge(lo: int, hi: int)

  function EdgeOf(a: int, b: int): (e: Edge)
    ensures e.lo <= e.hi && (e.lo == a || e.lo == b) && (e.hi == a || e.hi == b)
  {
    if a <= b then Edge(a, b) else Edge(b, a)
  }

  /** The segments of a node chain, each taken without its direction. */
  function EdgesOf(s: seq<int>): multiset<Edge>
    decreases |s|
  {
    if |s| < 2 then multiset{} else multiset{EdgeOf(s[0], s[1])} + EdgesOf(s[1..])
  }

  /** The segments of the ways merged into a chain. */
  function AbsorbedEdges(ways: seq<CompleteWay>): multiset<Edge>
    reads Ways(ways)`nodes
  {
    if |ways| == 0 then multiset{} else EdgesOf(ways[0].nodes) + AbsorbedEdges(ways[1..])
  }

  /** The node count of the ways merged into a chain. */
  function AbsorbedNodes(ways: seq<CompleteWay>): nat
    reads Ways(ways)`nodes
  {
    if |ways| == 0 then 0 else |ways[0].nodes| + AbsorbedNodes(ways[1..])
  }

  /** Appending a chain that starts where another ends adds exactly its segments. */
  lemma {:induction false} EdgesOfJoined(x: seq<int>, y: seq<int>)
    requires |x| > 0 && |y| > 0 && x[|x| - 1] == y[0]
    ensures EdgesOf(x + y[1..]) == EdgesOf(x) + EdgesOf(y)
    decreases |x|
  {
    var xy := x + y[1..];
    if |x| == 1 {
      assert xy == y;
    } else {
      assert xy[0] == x[0] && xy[1] == x[1];
      assert xy[1..] == x[1..] + y[1..];
      EdgesOfJoined(x[1..], y);
      calc {
        EdgesOf(xy);
        multiset{EdgeOf(x[0], x[1])} + EdgesOf(x[1..] + y[1..]);
        multiset{EdgeOf(x[0], x[1])} + EdgesOf(x[1..]) + EdgesOf(y);
      }
    }
  }

  /** A reversed chain has the same segments. */
  lemma {:induction false} EdgesOfReverse(s: seq<int>)
    ensures EdgesOf(Reverse(s)) == EdgesOf(s)
    decreases |s|
  {
    if |s| >= 2 {
      var back := Reverse(s[1..]);
      assert Reverse(s) == back + [s[1], s[0]][1..];
      EdgesOfJoined(back, [s[1], s[0]]);
      EdgesOfReverse(s[1..]);
      assert EdgesOf([s[1], s[0]]) == multiset{EdgeOf(s[0], s[1])};
    }
  }

  /** Whichever of the four cases applies, a merge adds exactly the way's segments. */
  lemma JoinAddsTheWaysEdges(chain: seq<int>, a: seq<int>)
    requires |chain| > 0 && |a| > 0 && Touches(a, chain[0], chain[|chain| - 1])
    ensures EdgesOf(Join(chain, a)) == EdgesOf(chain) + EdgesOf(a)
  {
    var first, last := chain[0], chain[|chain| - 1];
    if last == a[0] {
      EdgesOfJoined(chain, a);
    } else if first == a[|a| - 1] {
      EdgesOfJoined(a, chain);
    } else if last == a[|a| - 1] {
      EdgesOfJoined(chain, Reverse(a));
      EdgesOfReverse(a);
    } else {
      EdgesOfJoined(Reverse(a), chain);
      EdgesOfReverse(a);
    }
  }

  /** No open way left touches either end of the chain. */
  predicate HasLooseEnds(c: Closing)
    reads Ways(c.open)`nodes
  {
    |c.chain| > 0 && AllNonEmpty(c.open) &&
    forall j :: 0 <= j < |c.open| ==> !Touches(c.open[j].nodes, c.chain[0], c.chain[|c.chain| - 1])
  }

  /**
   * A closing that does not close stops because no open way left touches
   * either end of the chain.
   */
  lemma {:induction false} OpenChainHasLooseEnds(chain: seq<int>, open: seq<CompleteWay>, unprocessed: seq<Member>)
    ensures var r := CloseRing(chain, open, unprocessed);
      r.Ok? && !r.value.closed ==> HasLooseEnds(r.value)
    decreases |open|
  {
    var r := CloseRing(chain, open, unprocessed);
    if r.Ok? && !r.value.closed {
      assert |chain| > 0 && chain[0] != chain[|chain| - 1] && AllNonEmpty(open);
      var i := FirstTouching(open, chain[0], chain[|chain| - 1]);
      if i.Some? {
        var adjacentWay := open[i.value];
        var j := SingleMemberOf(unprocessed, adjacentWay);
        var next, open', unprocessed' := Join(chain, adjacentWay.nodes), RemoveFirst(open, adjacentWay),
          RemoveAt(unprocessed, j.value);
        OpenChainHasLooseEnds(next, open', unprocessed');
        var c := CloseRing(next, open', unprocessed').value;
        assert r.value == c.(absorbed := [adjacentWay] + c.absorbed);
      }
    }
  }

  /**
   * Each merged way leaves the open ways and takes exactly one unprocessed
   * member with it; so there are at most as many merges as open ways.
   */
  lemma {:induction false} ClosingConsumesWays(chain: seq<int>, open: seq<CompleteWay>, unprocessed: seq<Member>)
    ensures var r := CloseRing(chain, open, unprocessed);
      r.Ok? ==>
        && multiset(open) == multiset(r.value.open) + multiset(r.value.absorbed)
        && |unprocessed| == |r.value.unprocessed| + |r.value.absorbed|
        && multiset(r.value.unprocessed) <= multiset(unprocessed)
        && |r.value.absorbed| <= |open|
    decreases |open|
  {
    if |chain| > 0 && chain[0] != chain[|chain| - 1] && AllNonEmpty(open) {
      var i := FirstTouching(open, chain[0], chain[|chain| - 1]);
      if i.Some? {
        var adjacentWay := open[i.value];
        var j := SingleMemberOf(unprocessed, adjacentWay);
        if j.Some? {
          var open' := RemoveFirst(open, adjacentWay);
          var unprocessed' := RemoveAt(unprocessed, j.value);
          ClosingConsumesWays(Join(chain, adjacentWay.nodes), open', unprocessed');
          assert adjacentWay in open;
          assert multiset(unprocessed') <= multiset(unprocessed);
        }
      }
    }
  }

  /** No member of a way merged in is left to be processed. */
  lemma {:induction false} AbsorbedWaysLeaveNoMember(chain: seq<int>, open: seq<CompleteWay>, unprocessed: seq<Member>)
    ensures var r := CloseRing(chain, open, unprocessed);
      r.Ok? ==> forall k :: 0 <= k < |r.value.absorbed| ==> NoMemberOf(r.value.unprocessed, r.value.absorbed[k])
    decreases |open|
  {
    var r := CloseRing(chain, open, unprocessed);
    if r.Ok? && |chain| > 0 && chain[0] != chain[|chain| - 1] && AllNonEmpty(open) {
      var i := FirstTouching(open, chain[0], chain[|chain| - 1]);
      if i.Some? {
        var adjacentWay := open[i.value];
        var j := SingleMemberOf(unprocessed, adjacentWay);
        if j.Some? {
          var next, open', unprocessed' := Join(chain, adjacentWay.nodes), RemoveFirst(open, adjacentWay),
            RemoveAt(unprocessed, j.value);
          AbsorbedWaysLeaveNoMember(next, open', unprocessed');
          ClosingConsumesWays(next, open', unprocessed');
          var c := CloseRing(next, open', unprocessed').value;
          RemovingTheSingleMember(unprocessed, j.value, adjacentWay);
          NoMemberInSubMultiset(c.unprocessed, unprocessed', adjacentWay);
          assert r.value.absorbed == [adjacentWay] + c.absorbed;
        }
      }
    }
  }

  /** Taking out the one member of a way leaves no member of it. */
  lemma RemovingTheSingleMember(members: seq<Member>, j: nat, w: CompleteWay)
    requires j < |members| && forall k :: 0 <= k < |members| && k != j ==> !IsMemberOf(members[k], w)
    ensures NoMemberOf(RemoveAt(members, j), w)
  {
    var rest := RemoveAt(members, j);
    forall k | 0 <= k < |rest| ensures !IsMemberOf(rest[k], w) {
      if k < j {
        assert rest[k] == members[k];
      } else {
        assert rest[k] == members[k + 1];
      }
    }
  }

  /** A sub-multiset of members with no member of a way has none either. */
  lemma NoMemberInSubMultiset(sub: seq<Member>, members: seq<Member>, w: CompleteWay)
    requires multiset(sub) <= multiset(members) && NoMemberOf(members, w)
    ensures NoMemberOf(sub, w)
  {
    forall k | 0 <= k < |sub| ensures !IsMemberOf(sub[k], w) {
      assert sub[k] in multiset(members);
    }
  }

  /**
   * The final chain is made of the starting chain's segments and every
   * segment of every way merged in, each once: shared end nodes are kept
   * once and a reversed way keeps its segments.
   */
  lemma {:induction false} ClosingKeepsEverySegment(chain: seq<int>, open: seq<CompleteWay>, unprocessed: seq<Member>)
    ensures var r := CloseRing(chain, open, unprocessed);
      r.Ok? ==> EdgesOf(r.value.chain) == EdgesOf(chain) + AbsorbedEdges(r.value.absorbed)
    decreases |open|
  {
    var r := CloseRing(chain, open, unprocessed);
    if r.Ok? && |chain| > 0 && chain[0] != chain[|chain| - 1] && AllNonEmpty(open) {
      var i := FirstTouching(open, chain[0], chain[|chain| - 1]);
      if i.Some? {
        var adjacentWay := open[i.value];
        var j := SingleMemberOf(unprocessed, adjacentWay);
        if j.Some? {
          var next, open', unprocessed' := Join(chain, adjacentWay.nodes), RemoveFirst(open, adjacentWay),
            RemoveAt(unprocessed, j.value);
          ClosingKeepsEverySegment(next, open', unprocessed');
          JoinAddsTheWaysEdges(chain, adjacentWay.nodes);
          var c := CloseRing(next, open', unprocessed').value;
          assert r.value.absorbed == [adjacentWay] + c.absorbed;
          assert ([adjacentWay] + c.absorbed)[1..] == c.absorbed;
        }
      }
    }
  }

  /** Each merge adds the way's nodes but one, the shared end node. */
  lemma {:induction false} ClosingKeepsSharedNodesOnce(chain: seq<int>, open: seq<CompleteWay>, unprocessed: seq<Member>)
    ensures var r := CloseRing(chain, open, unprocessed);
      r.Ok? ==> |r.value.chain| + |r.value.absorbed| == |chain| + AbsorbedNodes(r.value.absorbed)
    decreases |open|
  {
    var r := CloseRing(chain, open, unprocessed);
    if r.Ok? && |chain| > 0 && chain[0] != chain[|chain| - 1] && AllNonEmpty(open) {
      var i := FirstTouching(open, chain[0], chain[|chain| - 1]);
      if i.Some? {
        var adjacentWay := open[i.value];
        var j := SingleMemberOf(unprocessed, adjacentWay);
        if j.Some? {
          var next, open', unprocessed' := Join(chain, adjacentWay.nodes), RemoveFirst(open, adjacentWay),
            RemoveAt(unprocessed, j.value);
          ClosingKeepsSharedNodesOnce(next, open', unprocessed');
          var c := CloseRing(next, open', unprocessed').value;
          assert r.value.absorbed == [adjacentWay] + c.absorbed;
          assert ([adjacentWay] + c.absorbed)[1..] == c.absorbed;
        }
      }
    }
  }

  /**
   * Two halves of a ring close into one: the second is merged onto the end
   * of the first, and the stored ring drops the repeated first node.
   */
  lemma TwoHalvesClose(half: CompleteWay, member: Member)
    requires half.nodes == [3, 4, 1] && member == Member("outer", GeoWay(half))
    ensures CloseRing([1, 2, 3], [half], [member]) == Ok(Closing(true, [1, 2, 3, 4, 1], [], [], [half]))
    ensures [1, 2, 3, 4, 1][1..] == [2, 3, 4, 1]
  {
    assert Touches(half.nodes, 1, 3);
    assert FirstTouching([half], 1, 3) == Some(0);
    assert Join([1, 2, 3], half.nodes) == [1, 2, 3, 4, 1];
    assert SingleMemberOf([member], half) == Some(0);
    assert RemoveFirst([half], half) == [];
    assert RemoveAt([member], 0) == [];
    assert CloseRing([1, 2, 3, 4, 1], [], []) == Ok(Closing(true, [1, 2, 3, 4, 1], [], [], []));
    assert [half] + [] == [half];
  }

  /**
   * An open way whose member was already taken off the unprocessed list
   * (a member with a role the reader skips) makes `Single` throw when a
   * later chain reaches it.
   */
  lemma SkippedOpenWayMakesSingleThrow(skipped: CompleteWay)
    requires skipped.nodes == [1, 2]
    ensures CloseRing([2, 3, 1], [skipped], []) == Err(NotSingleMember)
  {
    assert Touches(skipped.nodes, 2, 1);
    assert FirstTouching([skipped], 2, 1) == Some(0);
    assert SingleMemberOf([], skipped) == None;
  }
}
