/**
 * `OsmGeoVersionKey`: an OSM object's type, id and version number, its
 * previous version, its equality and its hash code.
 */
module VersionKeys {
  import opened Wrappers

  /** A C# `long`. */
  newtype int64 = x: int | -0x8000_0000_0000_0000 <= x < 0x8000_0000_0000_0000

  /** The object types, with the underlying values of the enum: node 0, way 1, relation 2. */
  datatype OsmGeoType = Node | Way | Relation

  function TypeValue(t: OsmGeoType): (v: nat)
    ensures v < 3
  {
    match t
    case Node => 0
    case Way => 1
    case Relation => 2
  }

  datatype OsmGeoVersionKey = OsmGeoVersionKey(geoType: OsmGeoType, id: int64, version: int64)

  /** The members of an OSM object the key is read from; `null` ids and versions are `None`. */
  datatype OsmObject = OsmObject(geoType: OsmGeoType, id: Option<int64>, version: Option<int64>)

  /** `Nullable.Value` on `null`. */
  datatype NoValue = NoValue

  /** The key of an object: its type, id and version, which must all be set. */
  function KeyOf(o: OsmObject): (r: Result<OsmGeoVersionKey, NoValue>)
    ensures r.Ok? <==> o.id.Some? && o.version.Some?
    ensures r.Ok? ==> r.value.geoType == o.geoType && r.value.id == o.id.value && r.value.version == o.version.value
  {
    if o.id.None? || o.version.None? then Err(NoValue)
    else Ok(OsmGeoVersionKey(o.geoType, o.id.value, o.version.value))
  }

  /** `long` subtraction of one, which wraps from the smallest value to the largest. */
  function Decrement(v: int64): (r: int64)
    ensures v > -0x8000_0000_0000_0000 ==> r as int == v as int - 1
    ensures v == -0x8000_0000_0000_0000 ==> r == 0x7FFF_FFFF_FFFF_FFFF
  {
    if v == -0x8000_0000_0000_0000 then 0x7FFF_FFFF_FFFF_FFFF else v - 1
  }

  /** `Previous`: none for the first version, otherwise the same object one version back. */
  function Previous(k: OsmGeoVersionKey): (p: Option<OsmGeoVersionKey>)
    ensures p.None? <==> k.version == 1
    ensures p.Some? ==> p.value.geoType == k.geoType && p.value.id == k.id
    ensures p.Some? && k.version > 1 ==> p.value.version as int == k.version as int - 1
  {
    if k.version == 1 then None else Some(OsmGeoVersionKey(k.geoType, k.id, Decrement(k.version)))
  }

  /** `Previous` taken `n` times, if every step has a previous version. */
  function PreviousN(k: OsmGeoVersionKey, n: nat): Option<OsmGeoVersionKey>
    decreases n
  {
    if n == 0 then Some(k)
    else
      match Previous(k)
      case None => None
      case Some(p) => PreviousN(p, n - 1)
  }

  /**
   * From a positive version, `Previous` walks back through every earlier
   * version of the same object to version 1, which has none.
   */
  lemma {:induction false} PreviousReachesFirstVersion(k: OsmGeoVersionKey)
    requires k.version >= 1
    ensures PreviousN(k, k.version as nat - 1) == Some(k.(version := 1))
    ensures Previous(k.(version := 1)).None?
    decreases k.version
  {
    if k.version > 1 {
      var p := Previous(k).value;
      PreviousReachesFirstVersion(p);
      assert p.(version := 1) == k.(version := 1);
    }
  }

  /** A member read through a `null` reference. */
  datatype NullReference = NullReference

  /** `Equals(OsmGeoVersionKey)`: same id, type and version; a `null` argument raises. */

  function EqualsKey(k: OsmGeoVersionKey, other: Option<OsmGeoVersionKey>): (r: Result<bool, NullReference>)
    ensures r.Err? <==> other.None?
    ensures other.Some? ==> r == Ok(k == other.value)
  {
    if other.None? then Err(NullReference)
    else Ok(other.value.id == k.id && other.value.geoType == k.geoType && other.value.version == k.version)
  }

  /** The argument of `Equals(object)`: `null`, a key, or another kind of object. */
  datatype Object = Null | Key(key: OsmGeoVersionKey) | OtherObject

  /** `Equals(object)`: false for `null` and for anything but a key, otherwise the key equality. */
  function EqualsObject(k: OsmGeoVersionKey, obj: Object): (r: bool)
    ensures r <==> obj.Key? && obj.key == k
  {
    if obj.Null? then false
    else obj.Key? && EqualsKey(k, Some(obj.key)) == Ok(true)
  }

  /** The equality is reflexive and symmetric over keys, and never holds for anything else. */
  lemma EqualsIsAnEquivalence(a: OsmGeoVersionKey, b: OsmGeoVersionKey)
    ensures EqualsObject(a, Key(a))
    ensures EqualsObject(a, Key(b)) == EqualsObject(b, Key(a))
    ensures !EqualsObject(a, Null) && !EqualsObject(a, OtherObject)
  {
  }

  /** The 32-bit pattern of an integer's low 32 bits, as a C# `int` cast keeps them. */
  function LowBits(u: int): bv32
    requires 0 <= u
  {
    (u % 0x1_0000_0000) as bv32
  }

  /** `long.GetHashCode`: the low half of its two's complement bits xor the high half. */
  function LongHash(v: int64): (h: bv32)
  {
    var u := if v < 0 then v as int + 0x1_0000_0000_0000_0000 else v as int;
    LowBits(u) ^ LowBits(u / 0x1_0000_0000)
  }

  /** A value that fits in 32 unsigned bits hashes to itself. */
  lemma LongHashOfSmall(v: int64)
    requires 0 <= v < 0x1_0000_0000
    ensures LongHash(v) == v as int as bv32
  {
    assert (v as int) / 0x1_0000_0000 == 0;
    assert LowBits(0) == 0;
  }

  /** `GetHashCode`: the id's hash xor the type's value xor the version's hash. */
  function Hash(k: OsmGeoVersionKey): bv32
  {
    LongHash(k.id) ^ (TypeValue(k.geoType) as bv32) ^ LongHash(k.version)
  }

  /** Keys that are equal have the same hash code. */
  lemma EqualKeysHashAlike(a: OsmGeoVersionKey, obj: Object)
    requires EqualsObject(a, obj)
    ensures Hash(a) == Hash(obj.key)
  {
  }

  /**
   * The xor of id and version makes swapped values collide: version 2 of
   * node 1 and version 1 of node 2 are different keys with the same hash.
   */
  lemma SwappedIdAndVersionCollide()
    ensures OsmGeoVersionKey(Node, 1, 2) != OsmGeoVersionKey(Node, 2, 1)
    ensures Hash(OsmGeoVersionKey(Node, 1, 2)) == Hash(OsmGeoVersionKey(Node, 2, 1))
  {
    LongHashOfSmall(1);
    LongHashOfSmall(2);
  }
}
