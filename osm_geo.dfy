/**
 * The OSM objects the reader walks: complete ways (node ids and a tag
 * collection, both replaced or extended in place), relations with roled
 * members, and the tag merges applied to ways.
 */
module OsmGeo {
  import opened Wrappers

  datatype Tag = Tag(key: string, value: string)

  /**
   * `CompleteWay`: its nodes, identified by node id, and its tag collection,
   * which may be `null`. Ways are shared: the same object can be a member
   * of several relations, and every change to it is seen by all of them.
   */
  class CompleteWay {
    var nodes: seq<int>
    var tags: Option<map<string, string>>

    constructor (nodes: seq<int>, tags: Option<map<string, string>>)
      ensures this.nodes == nodes && this.tags == tags
    {
      this.nodes := nodes;
      this.tags := tags;
    }
  }

  /**
   * A complete OSM object: a node, a way, or a relation with its own tags
   * and its members, each with a role.
   */
  datatype Geo = GeoNode | GeoWay(way: CompleteWay) | GeoRelation(tags: seq<Tag>, members: seq<Member>)
  datatype Member = Member(role: string, geo: Geo)

  /** `IsClosed`: more than one node, and the last node is the first. */
  predicate IsClosed(nodes: seq<int>)
  {
    |nodes| > 1 && nodes[0] == nodes[|nodes| - 1]
  }

  /** Every way object reachable from an OSM object, through nested relations. */
  function WaysOf(g: Geo): set<CompleteWay>
    decreases g
  {
    match g
    case GeoNode => {}
    case GeoWay(w) => {w}
    case GeoRelation(_, members) => set i, w | 0 <= i < |members| && w in WaysOf(members[i].geo) :: w
  }

  /** The ways of a relation's members are ways of the relation. */
  lemma MemberWaysAreRelationWays(g: Geo, i: int)
    requires g.GeoRelation? && 0 <= i < |g.members|
    ensures WaysOf(g.members[i].geo) <= WaysOf(g)
  {
  }

  /** Whether some tag in the list has this key. */
  predicate HasKey(tags: seq<Tag>, k: string)
  {
    exists i :: 0 <= i < |tags| && tags[i].key == k
  }

  /**
   * A new `TagsCollection` built from a tag list: a later tag replaces an
   * earlier one with the same key.
   */
  function TagsMap(tags: seq<Tag>): (m: map<string, string>)
    ensures forall i :: 0 <= i < |tags| ==> tags[i].key in m
    ensures forall k :: k in m ==> HasKey(tags, k)
  {
    if |tags| == 0 then map[]
    else
      var p := TagsMap(tags[..|tags| - 1]);
      assert forall i :: 0 <= i < |tags| - 1 ==> tags[..|tags| - 1][i] == tags[i];
      p[tags[|tags| - 1].key := tags[|tags| - 1].value]
  }

  /** In a new collection the last tag with a key wins. */
  lemma {:induction false} TagsMapKeepsLast(tags: seq<Tag>, i: int)
    requires 0 <= i < |tags|
    requires forall j :: i < j < |tags| ==> tags[j].key != tags[i].key
    ensures TagsMap(tags)[tags[i].key] == tags[i].value
  {
    if i < |tags| - 1 {
      var front := tags[..|tags| - 1];
      assert front[i] == tags[i];
      TagsMapKeepsLast(front, i);
    }
  }

  /**
   * The tags of a list added to an existing collection one by one, each
   * only when its key is missing.
   */
  function AddMissing(m: map<string, string>, tags: seq<Tag>): (r: map<string, string>)
    ensures forall k :: k in m ==> k in r && r[k] == m[k]
    ensures forall i :: 0 <= i < |tags| ==> tags[i].key in r
    ensures forall k :: k in r ==> k in m || HasKey(tags, k)
  {
    if |tags| == 0 then m
    else
      var p := AddMissing(m, tags[..|tags| - 1]);
      var t := tags[|tags| - 1];
      assert forall i :: 0 <= i < |tags| - 1 ==> tags[..|tags| - 1][i] == tags[i];
      if t.key in p then p else p[t.key := t.value]
  }

  /** A missing key gets the value of its first tag in the list. */
  lemma {:induction false} AddMissingKeepsFirst(m: map<string, string>, tags: seq<Tag>, i: int)
    requires 0 <= i < |tags| && tags[i].key !in m
    requires forall j :: 0 <= j < i ==> tags[j].key != tags[i].key
    ensures AddMissing(m, tags)[tags[i].key] == tags[i].value
  {
    var front, t, k := tags[..|tags| - 1], tags[|tags| - 1], tags[i].key;
    var p := AddMissing(m, front);
    assert AddMissing(m, tags) == if t.key in p then p else p[t.key := t.value];
    if i < |tags| - 1 {
      assert front[i] == tags[i];
      assert forall j :: 0 <= j < i ==> front[j] == tags[j];
      AddMissingKeepsFirst(m, front, i);
      assert k in p;
    } else {
      assert forall j :: 0 <= j < |front| ==> front[j] == tags[j];
      assert !HasKey(front, k);
      assert k !in p;
    }
  }

  /**
   * `AddTagsToWay`: no tags leave the way as it is; a way without a tag
   * collection gets a new one; otherwise each tag is added only when its key
   * is missing, so an existing value is never overwritten.
   */
  method AddTagsToWay(tags: Option<seq<Tag>>, way: CompleteWay)
    modifies way`tags
    ensures tags.None? ==> way.tags == old(way.tags)
    ensures tags.Some? && old(way.tags).None? ==> way.tags == Some(TagsMap(tags.value))
    ensures tags.Some? && old(way.tags).Some? ==> way.tags == Some(AddMissing(old(way.tags).value, tags.value))
  {
    if tags.None? {
      return;
    }
    if way.tags.None? {
      way.tags := Some(TagsMap(tags.value));
    } else {
      var all := tags.value;
      for i := 0 to |all|
        invariant way.tags == Some(AddMissing(old(way.tags).value, all[..i]))
      {
        assert all[..i + 1][..i] == all[..i];
        var tag := all[i];
        if tag.key !in way.tags.value {
          way.tags := Some(way.tags.value[tag.key := tag.value]);
        }
      }
      assert all[..|all|] == all;
    }
  }

  /** Adding tags twice adds nothing the second time. */
  lemma {:induction false} AddMissingIsIdempotent(m: map<string, string>, tags: seq<Tag>)
    ensures AddMissing(AddMissing(m, tags), tags) == AddMissing(m, tags)
  {
    var once := AddMissing(m, tags);
    var twice := AddMissing(once, tags);
    forall k | k in twice
      ensures k in once && twice[k] == once[k]
    {
    }
    assert forall k :: k in once ==> k in twice;
  }
}
