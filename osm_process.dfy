/**
 * `ProcessWayOrRelation`: turns a way, or a relation with its nested
 * relations, into the list of ways that make up its (multi)polygon, each
 * marked outer or inner, and hands the relation's tags down to its ways.
 */
module OsmProcess {
  import opened Wrappers
  import opened OsmGeo
  import opened OsmClose
  import opened OsmCloseProps

  /** The roles read as an outer ring: the empty role, `outer` and the waterway roles. */
  const RELATION_OUTER_ROLES: seq<string> := ["", "outer", "main_stream", "side_stream", "spring", "tributary"]
  const RELATION_INNER_ROLE := "inner"

  /** `CompleteWayInfo`: a way of the polygon and whether it is an outer ring. */
  datatype WayInfo = WayInfo(way: CompleteWay, isOuter: bool)

  /** `ComplexWay`: the ways of a polygon and its tags. */
  datatype ComplexWay = ComplexWay(wayInfos: seq<WayInfo>, tags: map<string, string>)

  /** A role gives an outer ring, or an inner one. */
  predicate RoleMarks(role: string, isOuter: bool)
  {
    if isOuter then role in RELATION_OUTER_ROLES else role == RELATION_INNER_ROLE
  }

  /**
   * The way info comes from a way member of the relation, or of a relation
   * nested in it, whose role says outer or inner as the info does.
   */
  predicate InfoFromTree(g: Geo, info: WayInfo)
    decreases g
  {
    match g
    case GeoRelation(_, members) =>
      exists i :: 0 <= i < |members| &&
        ((members[i].geo.GeoWay? && members[i].geo.way == info.way && RoleMarks(members[i].role, info.isOuter))
         || InfoFromTree(members[i].geo, info))
    case _ => false
  }

  /** How many way members the object holds, nested relations included; a way counts once. */
  function WayCount(g: Geo): nat
    decreases g, 1, 0
  {
    match g
    case GeoNode => 0
    case GeoWay(_) => 1
    case GeoRelation(_, members) => WayCountFrom(g, 0)
  }

  function WayCountFrom(g: Geo, i: nat): nat
    requires g.GeoRelation?
    decreases g, 0, |g.members| - i
  {
    if i >= |g.members| then 0 else WayCount(g.members[i].geo) + WayCountFrom(g, i + 1)
  }

  /** The way members of a member list, nested relations included. */
  function MembersWayCount(members: seq<Member>): nat
  {
    if |members| == 0 then 0 else WayCount(members[0].geo) + MembersWayCount(members[1..])
  }

  lemma {:induction false} MembersWayCountFrom(g: Geo, i: nat)
    requires g.GeoRelation? && i <= |g.members|
    ensures WayCountFrom(g, i) == MembersWayCount(g.members[i..])
    decreases |g.members| - i
  {
    if i < |g.members| {
      MembersWayCountFrom(g, i + 1);
      assert g.members[i..][1..] == g.members[i + 1..];
    }
  }

  lemma {:induction false} MembersWayCountRemoveAt(members: seq<Member>, i: nat)
    requires i < |members|
    ensures MembersWayCount(RemoveAt(members, i)) + WayCount(members[i].geo) == MembersWayCount(members)
    decreases i
  {
    if i > 0 {
      MembersWayCountRemoveAt(members[1..], i - 1);
      assert members[1..][..i - 1] == members[1..i] && members[1..][i..] == members[i + 1..];
      assert members[..i] == [members[0]] + members[1..i];
      assert RemoveAt(members, i) == [members[0]] + RemoveAt(members[1..], i - 1);
      assert RemoveAt(members, i)[1..] == RemoveAt(members[1..], i - 1);
    } else {
      assert RemoveAt(members, 0) == members[1..];
    }
  }

  /** Every member a closing takes off the list is a way member, counting one. */
  lemma {:induction false} ClosingTakesWayMembers(chain: seq<int>, open: seq<CompleteWay>, unprocessed: seq<Member>)
    ensures var r := CloseRing(chain, open, unprocessed);
      r.Ok? ==> MembersWayCount(r.value.unprocessed) + |r.value.absorbed| == MembersWayCount(unprocessed)
    decreases |open|
  {
    var r := CloseRing(chain, open, unprocessed);
    if r.Ok? && |chain| > 0 && chain[0] != chain[|chain| - 1] && AllNonEmpty(open) {
      var i := FirstTouching(open, chain[0], chain[|chain| - 1]);
      if i.Some? {
        var adjacentWay := open[i.value];
        var j := SingleMemberOf(unprocessed, adjacentWay);
        if j.Some? {
          var next, open', unprocessed' := Join(chain, adjacentWay.nodes), RemoveFirst(open, adjacentWay),
            RemoveAt(unprocessed, j.value);
          ClosingTakesWayMembers(next, open', unprocessed');
          MembersWayCountRemoveAt(unprocessed, j.value);
          var c := CloseRing(next, open', unprocessed').value;
          assert r.value == c.(absorbed := [adjacentWay] + c.absorbed);
        }
      }
    }
  }

  /** The relation's way members that are not closed, in member order. */
  function OpenWays(members: seq<Member>): (r: seq<CompleteWay>)
    reads set i | 0 <= i < |members| && members[i].geo.GeoWay? :: members[i].geo.way
    ensures forall k :: 0 <= k < |r| ==> !IsClosed(r[k].nodes) && exists i :: 0 <= i < |members| && IsMemberOf(members[i], r[k])
    ensures forall i :: 0 <= i < |members| && members[i].geo.GeoWay? && !IsClosed(members[i].geo.way.nodes) ==>
      members[i].geo.way in r
  {
    if |members| == 0 then []
    else
      var front := OpenWays(members[..|members| - 1]);
      var m := members[|members| - 1];
      assert forall i :: 0 <= i < |members| - 1 ==> members[..|members| - 1][i] == members[i];
      if m.geo.GeoWay? && !IsClosed(m.geo.way.nodes) then front + [m.geo.way] else front
  }

  /**
   * One way member of the member loop: it gets the relation's tags; with an
   * outer or an inner role it is kept when it is closed or closes with the
   * other open ways, which leave the unprocessed members.
   */
  method ProcessWayMember(relation: Geo, index: nat, allTags: seq<Tag>,
                          unprocessedMembers: seq<Member>, openWays: seq<CompleteWay>)
      returns (err: Option<OsmError>, kept: Option<WayInfo>, unprocessed: seq<Member>, open: seq<CompleteWay>)
    requires relation.GeoRelation? && index < |relation.members| && relation.members[index].geo.GeoWay?
    requires forall u :: u in unprocessedMembers ==> u in relation.members
    modifies relation.members[index].geo.way
    ensures var relMember := relation.members[index];
      err.None? ==>
        && (forall u :: u in unprocessed ==> u in relation.members)
        && |unprocessed| <= |unprocessedMembers|
        && MembersWayCount(unprocessed) + (if kept.Some? then 1 else 0) <= MembersWayCount(unprocessedMembers) + 1
        && (kept.Some? ==> kept.value.way == relMember.geo.way && RoleMarks(relMember.role, kept.value.isOuter))
    ensures var way := relation.members[index].geo.way;
      way.tags == Some(if old(way.tags).None? then TagsMap(allTags) else AddMissing(old(way.tags).value, allTags))
    ensures var relMember := relation.members[index];
      var way := relMember.geo.way;
      var c := old(CloseRing(way.nodes, RemoveFirst(openWays, way), unprocessedMembers));
      var closes := (relMember.role in RELATION_OUTER_ROLES || relMember.role == RELATION_INNER_ROLE)
                    && !IsClosed(old(way.nodes)) && c.Ok? && c.value.closed;
      && (closes ==> |c.value.chain| > 0 && way.nodes == c.value.chain[1..])
      && (!closes ==> way.nodes == old(way.nodes))
    ensures var relMember := relation.members[index];
      var way := relMember.geo.way;
      var c := old(CloseRing(way.nodes, RemoveFirst(openWays, way), unprocessedMembers));
      var hasRole := relMember.role in RELATION_OUTER_ROLES || relMember.role == RELATION_INNER_ROLE;
      var tries := hasRole && !IsClosed(old(way.nodes));
      && (err.None? ==> (kept.Some? <==> hasRole && (IsClosed(old(way.nodes)) || (c.Ok? && c.value.closed))))
      && (tries && c.Ok? ==> err.None? && unprocessed == c.value.unprocessed && open == c.value.open)
      && (tries && c.Err? ==> err == Some(c.error))
      && (!tries ==> err.None? && unprocessed == unprocessedMembers && open == openWays)
  {
    var relMember := relation.members[index];
    var way := relMember.geo.way;
    unprocessed, open := unprocessedMembers, openWays;
    err, kept := None, None;
    ghost var c := CloseRing(way.nodes, RemoveFirst(openWays, way), unprocessedMembers);
    AddTagsToWay(Some(allTags), way);
    assert forall w :: w in Ways(RemoveFirst(openWays, way)) ==> w.nodes == old(w.nodes);
    assert c == CloseRing(way.nodes, RemoveFirst(openWays, way), unprocessedMembers);
    var isOuterRole := relMember.role in RELATION_OUTER_ROLES;
    var isInnerRole := relMember.role == RELATION_INNER_ROLE;
    if !isOuterRole && !isInnerRole {
      return;
    }
    var keep := IsClosed(way.nodes);
    if !keep {
      ClosingConsumesWays(way.nodes, RemoveFirst(openWays, way), unprocessedMembers);
      ClosingTakesWayMembers(way.nodes, RemoveFirst(openWays, way), unprocessedMembers);
      var closed;
      closed, unprocessed, open := TryCloseOpenWay(relMember, unprocessedMembers, openWays);
      if closed.Err? {
        return Some(closed.error), None, unprocessed, open;
      }
      assert forall u :: u in unprocessed ==> u in multiset(unprocessedMembers);
      keep := closed.value;
    }
    if keep {
      kept := Some(WayInfo(way, isOuterRole));
    }
  }

  /**
   * `ProcessWayOrRelation`: a way gets the inherited tags and is its own
   * outer ring. In a relation the members are taken in order: a way member
   * with an outer or an inner role gets the relation's tags and is kept
   * when it is closed or can be closed with the relation's other open ways
   * (which are then not processed on their own); a way member with any other
   * role is skipped; a nested relation is processed with the tags handed
   * down and all its ways are kept, whatever its role; nodes are ignored.
   */
  method ProcessWayOrRelation(osm: Geo, tags: Option<seq<Tag>>) returns (res: Result<ComplexWay, OsmError>)
    modifies WaysOf(osm)
    decreases osm
    ensures osm.GeoNode? ==> res == Err(InvalidCast)
    ensures osm.GeoWay? ==> res == Ok(ComplexWay([WayInfo(osm.way, true)],
      if osm.way.tags.Some? then osm.way.tags.value else map[]))
    ensures osm.GeoWay? ==>
      osm.way.tags == (if tags.None? then old(osm.way.tags)
                       else if old(osm.way.tags).None? then Some(TagsMap(tags.value))
                       else Some(AddMissing(old(osm.way.tags).value, tags.value)))
    ensures osm.GeoRelation? && res.Ok? ==>
      && res.value.tags == TagsMap(osm.tags + (if tags.Some? then tags.value else []))
      && (forall k :: 0 <= k < |res.value.wayInfos| ==> InfoFromTree(osm, res.value.wayInfos[k]))
      && |res.value.wayInfos| <= WayCount(osm)
  {
    if osm.GeoWay? {
      AddTagsToWay(tags, osm.way);
      return Ok(ComplexWay([WayInfo(osm.way, true)], if osm.way.tags.Some? then osm.way.tags.value else map[]));
    }
    if osm.GeoNode? {
      return Err(InvalidCast);
    }
    var relation := osm;
    var allTags := relation.tags + (if tags.Some? then tags.value else []);
    var openWays := OpenWays(relation.members);
    var unprocessedMembers := relation.members;
    var waysInfos: seq<WayInfo> := [];
    MembersWayCountFrom(relation, 0);
    assert relation.members[0..] == relation.members;
    while |unprocessedMembers| > 0
      invariant forall u :: u in unprocessedMembers ==> u in relation.members
      invariant forall k :: 0 <= k < |waysInfos| ==> InfoFromTree(osm, waysInfos[k])
      invariant |waysInfos| + MembersWayCount(unprocessedMembers) <= WayCount(osm)
      decreases |unprocessedMembers|
    {
      var relMember := unprocessedMembers[0];
      assert relMember in relation.members;
      var index :| 0 <= index < |relation.members| && relation.members[index] == relMember;
      MemberWaysAreRelationWays(relation, index);
      unprocessedMembers := unprocessedMembers[1..];
      match relMember.geo {
        case GeoWay(way) =>
          var err, kept;
          err, kept, unprocessedMembers, openWays :=
            ProcessWayMember(relation, index, allTags, unprocessedMembers, openWays);
          if err.Some? {
            return Err(err.value);
          }
          if kept.Some? {
            assert InfoFromTree(osm, kept.value) by {
              assert relation.members[index].geo.way == kept.value.way;
            }
            waysInfos := waysInfos + [kept.value];
          }
        case GeoRelation(_, _) =>
          var relationComplexWay := ProcessWayOrRelation(
            relMember.geo, Some((if tags.Some? then tags.value else []) + relation.tags));
          if relationComplexWay.Err? {
            return Err(relationComplexWay.error);
          }
          var nested := relationComplexWay.value.wayInfos;
          forall k | 0 <= k < |nested|
            ensures InfoFromTree(osm, nested[k])
          {
            assert InfoFromTree(relation.members[index].geo, nested[k]);
          }
          waysInfos := waysInfos + nested;
        case GeoNode =>
      }
    }
    return Ok(ComplexWay(waysInfos, TagsMap(allTags)));
  }
}
