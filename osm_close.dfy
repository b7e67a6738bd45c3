/**
 * Closing an open way of a relation into a ring: `TryCloseOpenWay` chains
 * the relation's other open ways onto it by shared end nodes until the
 * chain's last node is its first, or no open way touches its ends.
 */
module OsmClose {
  import opened Wrappers
  import opened OsmGeo

  /** The way objects of a list, the footprint of a closing. */
  function Ways(ways: seq<CompleteWay>): set<CompleteWay>
  {
    set w | w in ways
  }

  predicate AllNonEmpty(ways: seq<CompleteWay>)
    reads Ways(ways)`nodes
  {
    forall w :: w in ways ==> |w.nodes| > 0
  }

  function Reverse(s: seq<int>): (r: seq<int>)
    ensures |r| == |s| && forall i :: 0 <= i < |s| ==> r[i] == s[|s| - 1 - i]
  {
    if |s| == 0 then [] else Reverse(s[1..]) + [s[0]]
  }

  /**
   * The adjacency test: the way starts where the chain ends, ends where it
   * starts, starts where it starts, or ends where it ends.
   */
  predicate Touches(nodes: seq<int>, first: int, last: int)
    requires |nodes| > 0
  {
    nodes[0] == last || nodes[|nodes| - 1] == first || nodes[0] == first || nodes[|nodes| - 1] == last
  }

  /** `FirstOrDefault` over the touching open ways: the index of the first one. */
  function FirstTouching(open: seq<CompleteWay>, first: int, last: int): (r: Option<nat>)
    requires AllNonEmpty(open)
    reads Ways(open)`nodes
    ensures r.Some? ==> r.value < |open| && Touches(open[r.value].nodes, first, last)
    ensures r.Some? ==> forall j :: 0 <= j < r.value ==> !Touches(open[j].nodes, first, last)
    ensures r.None? ==> forall j :: 0 <= j < |open| ==> !Touches(open[j].nodes, first, last)
  {
    if |open| == 0 then None
    else if Touches(open[0].nodes, first, last) then Some(0)
    else
      match FirstTouching(open[1..], first, last)
      case None => None
      case Some(i) => Some(i + 1)
  }

  /**
   * One merge step, the four cases tried in order: the way continues the
   * chain's end, leads into its start, or does either reversed. The shared
   * node is kept once.
   */
  function Join(chain: seq<int>, a: seq<int>): (r: seq<int>)
    requires |chain| > 0 && |a| > 0 && Touches(a, chain[0], chain[|chain| - 1])
    ensures |r| == |chain| + |a| - 1
  {
    var first, last := chain[0], chain[|chain| - 1];
    if last == a[0] then chain + a[1..]
    else if first == a[|a| - 1] then a + chain[1..]
    else if last == a[|a| - 1] then chain + Reverse(a)[1..]
    else Reverse(a) + chain[1..]
  }

  function RemoveAt<T>(s: seq<T>, i: nat): (r: seq<T>)
    requires i < |s|
    ensures |r| == |s| - 1
    ensures multiset(r) + multiset{s[i]} == multiset(s)
  {
    assert s == s[..i] + [s[i]] + s[i + 1..];
    s[..i] + s[i + 1..]
  }

  /** `List.Remove`: drops the first occurrence, if there is one. */
  function RemoveFirst<T(==)>(s: seq<T>, x: T): (r: seq<T>)
    ensures x in s ==> |r| == |s| - 1 && multiset(r) + multiset{x} == multiset(s)
    ensures x !in s ==> r == s
    ensures forall y :: y in r ==> y in s
  {
    if |s| == 0 then s
    else
      assert s == [s[0]] + s[1..];
      if s[0] == x then s[1..] else [s[0]] + RemoveFirst(s[1..], x)
  }

  /** A relation member whose object is this way. */
  predicate IsMemberOf(m: Member, w: CompleteWay)
  {
    m.geo.GeoWay? && m.geo.way == w
  }

  predicate NoMemberOf(members: seq<Member>, w: CompleteWay)
  {
    forall j :: 0 <= j < |members| ==> !IsMemberOf(members[j], w)
  }

  /**
   * `Single`: the index of the one member whose object is the way; none
   * when there is no such member or more than one.
   */
  function SingleMemberOf(members: seq<Member>, w: CompleteWay): (r: Option<nat>)
    ensures r.Some? ==> r.value < |members| && IsMemberOf(members[r.value], w)
    ensures r.Some? ==> forall j :: 0 <= j < |members| && j != r.value ==> !IsMemberOf(members[j], w)
    ensures r.None? ==>
      NoMemberOf(members, w) || exists i, j :: 0 <= i < j < |members| && IsMemberOf(members[i], w) && IsMemberOf(members[j], w)
  {
    if |members| == 0 then None
    else if IsMemberOf(members[0], w) then
      if NoMemberOf(members[1..], w) then Some(0)
      else
        var j :| 0 <= j < |members[1..]| && IsMemberOf(members[1..][j], w);
        assert IsMemberOf(members[j + 1], w);
        None
    else
      match SingleMemberOf(members[1..], w)
      case Some(i) => Some(i + 1)
      case None =>
        if NoMemberOf(members[1..], w) then None
        else
          var i, j :| 0 <= i < j < |members[1..]| && IsMemberOf(members[1..][i], w) && IsMemberOf(members[1..][j], w);
          assert IsMemberOf(members[i + 1], w) && IsMemberOf(members[j + 1], w);
          None
  }

  /**
   * The exceptions the reader can raise: `First` on no nodes, `Single` not
   * finding exactly one member, and a node cast to a relation.
   */
  datatype OsmError = NoElements | NotSingleMember | InvalidCast

  /**
   * Where a closing stops: whether the chain closed, the chain, what is
   * left of the open ways and the unprocessed members, and the ways merged
   * in, in order.
   */
  datatype Closing = Closing(closed: bool, chain: seq<int>, open: seq<CompleteWay>,
                             unprocessed: seq<Member>, absorbed: seq<CompleteWay>)

  /**
   * The loop of `TryCloseOpenWay` from a chain, the open ways not yet
   * merged and the members not yet processed.
   */
  function CloseRing(chain: seq<int>, open: seq<CompleteWay>, unprocessed: seq<Member>): (r: Result<Closing, OsmError>)
    reads Ways(open)`nodes
    decreases |open|
  {
    if |chain| == 0 then Err(NoElements)
    else if chain[0] == chain[|chain| - 1] then Ok(Closing(true, chain, open, unprocessed, []))
    else if !AllNonEmpty(open) then Err(NoElements)
    else
      match FirstTouching(open, chain[0], chain[|chain| - 1])
      case None => Ok(Closing(false, chain, open, unprocessed, []))
      case Some(i) =>
        var adjacentWay := open[i];
        assert adjacentWay in open && |adjacentWay.nodes| > 0;
        var next := Join(chain, adjacentWay.nodes);
        var rest := RemoveFirst(open, adjacentWay);
        assert |rest| < |open| && Ways(rest) <= Ways(open);
        match SingleMemberOf(unprocessed, adjacentWay)
        case None => Err(NotSingleMember)
        case Some(j) =>
          match CloseRing(next, rest, RemoveAt(unprocessed, j))
          case Err(e) => Err(e)
          case Ok(c) => Ok(c.(absorbed := [adjacentWay] + c.absorbed))
  }

  /** A successful closing stops on a chain that is not empty, closed exactly when it starts where it ends. */
  predicate ReportsEnds(r: Result<Closing, OsmError>)
  {
    r.Ok? ==> |r.value.chain| > 0 && (r.value.closed <==> r.value.chain[0] == r.value.chain[|r.value.chain| - 1])
  }

  /** The merge loop reports a closed ring exactly when the chain it stops on, never empty, starts where it ends. */
  lemma {:induction false} ClosedIffEndsMeet(chain: seq<int>, open: seq<CompleteWay>, unprocessed: seq<Member>)
    ensures ReportsEnds(CloseRing(chain, open, unprocessed))
    decreases |open|
  {
    if |chain| > 0 && chain[0] != chain[|chain| - 1] && AllNonEmpty(open) {
      var i := FirstTouching(open, chain[0], chain[|chain| - 1]);
      if i.Some? {
        var adjacentWay := open[i.value];
        var j := SingleMemberOf(unprocessed, adjacentWay);
        if j.Some? {
          var next, open', unprocessed' := Join(chain, adjacentWay.nodes), RemoveFirst(open, adjacentWay),
            RemoveAt(unprocessed, j.value);
          assert adjacentWay in open;
          ClosedIffEndsMeet(next, open', unprocessed');
          var rest := CloseRing(next, open', unprocessed');
          assert CloseRing(chain, open, unprocessed) == AfterAbsorbing([adjacentWay], rest);
          AbsorbingKeepsEnds([adjacentWay], rest);
        }
      }
    }
  }

  lemma AbsorbingKeepsEnds(before: seq<CompleteWay>, r: Result<Closing, OsmError>)
    requires ReportsEnds(r)
    ensures ReportsEnds(AfterAbsorbing(before, r))
  {
  }

  /** A closing outcome with ways merged in before it put in front of its own. */
  function AfterAbsorbing(before: seq<CompleteWay>, r: Result<Closing, OsmError>): Result<Closing, OsmError>
  {
    match r
    case Err(e) => Err(e)
    case Ok(c) => Ok(c.(absorbed := before + c.absorbed))
  }

  lemma AfterAbsorbingNothing(r: Result<Closing, OsmError>)
    ensures AfterAbsorbing([], r) == r
  {
    if r.Ok? {
      assert [] + r.value.absorbed == r.value.absorbed;
    }
  }

  lemma AfterAbsorbingTwice(a: seq<CompleteWay>, b: seq<CompleteWay>, r: Result<Closing, OsmError>)
    ensures AfterAbsorbing(a, AfterAbsorbing(b, r)) == AfterAbsorbing(a + b, r)
  {
    if r.Ok? {
      assert a + (b + r.value.absorbed) == (a + b) + r.value.absorbed;
    }
  }

  /**
   * `TryCloseOpenWay`: takes the way out of the open ways and runs the
   * merge loop on a copy of its nodes. The way's nodes change only when the
   * chain closes, to the chain without its first node; the open ways and
   * the unprocessed members lose every way merged in, closed or not.
   */
  method TryCloseOpenWay(openWayMember: Member, unprocessedMembers: seq<Member>, openWays: seq<CompleteWay>)
      returns (res: Result<bool, OsmError>, unprocessed: seq<Member>, open: seq<CompleteWay>)
    requires openWayMember.geo.GeoWay?
    modifies openWayMember.geo.way`nodes
    ensures var way := openWayMember.geo.way;
      var c := old(CloseRing(way.nodes, RemoveFirst(openWays, way), unprocessedMembers));
      && (c.Err? ==> res == Err(c.error))
      && (c.Ok? ==> res == Ok(c.value.closed) && unprocessed == c.value.unprocessed && open == c.value.open)
      && (c.Ok? && c.value.closed ==> |c.value.chain| > 0 && way.nodes == c.value.chain[1..])
      && (c.Err? || !c.value.closed ==> way.nodes == old(way.nodes))
  {
    var way := openWayMember.geo.way;
    open := RemoveFirst(openWays, way);
    unprocessed := unprocessedMembers;
    var merginWayNodes := way.nodes;
    ghost var goal := CloseRing(merginWayNodes, open, unprocessed);
    ghost var absorbed: seq<CompleteWay> := [];
    AfterAbsorbingNothing(goal);
    while true
      invariant way.nodes == old(way.nodes)
      invariant AfterAbsorbing(absorbed, CloseRing(merginWayNodes, open, unprocessed)) == goal
      decreases |open|
    {
      if |merginWayNodes| == 0 {
        return Err(NoElements), unprocessed, open;
      }
      var firstNode := merginWayNodes[0];
      var lastNode := merginWayNodes[|merginWayNodes| - 1];
      if firstNode == lastNode {
        way.nodes := merginWayNodes[1..];
        return Ok(true), unprocessed, open;
      }
      if !AllNonEmpty(open) {
        return Err(NoElements), unprocessed, open;
      }
      var adjacent := FirstTouching(open, firstNode, lastNode);
      if adjacent.None? {
        return Ok(false), unprocessed, open;
      }
      var adjacentWay := open[adjacent.value];
      merginWayNodes := Join(merginWayNodes, adjacentWay.nodes);
      var single := SingleMemberOf(unprocessed, adjacentWay);
      open := RemoveFirst(open, adjacentWay);
      if single.None? {
        return Err(NotSingleMember), unprocessed, open;
      }
      ghost var rest := CloseRing(merginWayNodes, open, RemoveAt(unprocessed, single.value));
      AfterAbsorbingTwice(absorbed, [adjacentWay], rest);
      unprocessed := RemoveAt(unprocessed, single.value);
      absorbed := absorbed + [adjacentWay];
    }
  }
}
