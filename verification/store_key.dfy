/** Store identity: the `(packageType, type, name)` key of every artifact store, its canonical
    string form, the parser with its defaulting rules, the total order and the interning table. */
module StoreKeys {
  import opened Common

  /** The three kinds of store, in the declaration order the ordinals follow. */
  datatype StoreType = Group | Remote | Hosted

  function TypeName(t: StoreType): (r: string)
    ensures r != [] && ':' !in r && !IsBlank(r)
  {
    var r := match t
      case Group => "group"
      case Remote => "remote"
      case Hosted => "hosted";
    assert !JavaWhitespace(r[0]);
    r
  }

  function TypeOrdinal(t: StoreType): nat {
    match t
    case Group => 0
    case Remote => 1
    case Hosted => 2
  }

  /** `StoreType.get(name)`: the type whose name is `name`, if any. */
  function TypeFromName(s: string): (r: Option<StoreType>)
    ensures r.Some? ==> TypeName(r.value) == s
    ensures r.None? ==> forall t :: TypeName(t) != s
  {
    if s == "group" then Some(Group)
    else if s == "remote" then Some(Remote)
    else if s == "hosted" then Some(Hosted)
    else None
  }

  const MavenPkg: string := "maven"
  const NpmPkg: string := "npm"
  const PyPIPkg: string := "pypi"

  datatype StoreKey = StoreKey(packageType: string, storeType: StoreType, name: string)

  datatype KeyError = UnsupportedPackageType | IndexOutOfBounds

  /** The checked three-argument constructor; `pkg` is `None` for a null package type. */
  function NewStoreKey(supported: set<string>, pkg: Option<string>, t: StoreType, name: string)
    : (r: Result<StoreKey, KeyError>)
    ensures r.Ok? <==> pkg.Some? && pkg.value in supported
    ensures r.Ok? ==> r.value == StoreKey(pkg.value, t, name)
    ensures r.Err? ==> r.error == UnsupportedPackageType
  {
    if pkg.Some? && pkg.value in supported then Ok(StoreKey(pkg.value, t, name))
    else Err(UnsupportedPackageType)
  }

  /** `toString`: `packageType:type:name`. */
  function ToString(k: StoreKey): string {
    k.packageType + ":" + TypeName(k.storeType) + ":" + k.name
  }

  /** `equals`: field-wise on package type, name and type. */
  function Equals(a: StoreKey, b: StoreKey): (r: bool)
    ensures r <==> a == b
  {
    a.packageType == b.packageType && a.name == b.name && a.storeType == b.storeType
  }

  // ---------------------------------------------------------------------------
  // fromString

  /** What `fromString` does: a key, null (no such store type), or an exception. */
  datatype ParseOutcome = Parsed(key: StoreKey) | NoSuchType | Thrown(error: KeyError)

  function FromString(supported: set<string>, id: string): ParseOutcome {
    var parts := JavaSplit(id, ':');
    var defaultPkg: Option<string> := if |parts| < 3 || IsBlank(parts[0]) then Some(MavenPkg) else None;
    if |parts| < 2 || IsBlank(parts[1]) then
      FromConstructor(NewStoreKey(supported, defaultPkg, Remote, id))
    else if |parts| < 3 then
      // `parts[2]` is read before the type is checked
      Thrown(IndexOutOfBounds)
    else
      match TypeFromName(parts[1])
      case None => NoSuchType
      case Some(t) => FromConstructor(NewStoreKey(supported, Some(parts[0]), t, parts[2]))
  }

  function FromConstructor(r: Result<StoreKey, KeyError>): ParseOutcome {
    match r
    case Ok(k) => Parsed(k)
    case Err(e) => Thrown(e)
  }

  /** An id with no ':' names a Maven remote repository called by the whole id. */
  lemma FromStringNoColon(supported: set<string>, id: string)
    requires ':' !in id && MavenPkg in supported
    ensures FromString(supported, id) == Parsed(StoreKey(MavenPkg, Remote, id))
  {
  }

  /** A key whose package type and name hold no ':' and whose name is not empty is read back
      from its string form. */
  lemma FromStringRoundTrip(supported: set<string>, k: StoreKey)
    requires k.packageType in supported
    requires ':' !in k.packageType && ':' !in k.name && k.name != ""
    ensures FromString(supported, ToString(k)) == Parsed(k)
  {
    var tn := TypeName(k.storeType);
    ThreeFields(k.packageType, tn, k.name, ':');
    var s := ToString(k);
    assert s == k.packageType + [':'] + tn + [':'] + k.name;
    assert s[|k.packageType|] == ':';
    assert JavaSplit(s, ':') == [k.packageType, tn, k.name];
  }

  /** An id with at least three segments whose second segment names no store type parses to null. */
  lemma FromStringUnknownType(supported: set<string>, id: string)
    requires |JavaSplit(id, ':')| >= 3
    requires !IsBlank(JavaSplit(id, ':')[1]) && TypeFromName(JavaSplit(id, ':')[1]).None?
    ensures FromString(supported, id) == NoSuchType
  {
  }

  /** An id with exactly two segments and a non-blank second one fails reading the third. */
  lemma FromStringTwoSegments(supported: set<string>, id: string)
    requires |JavaSplit(id, ':')| == 2 && !IsBlank(JavaSplit(id, ':')[1])
    ensures FromString(supported, id) == Thrown(IndexOutOfBounds)
  {
  }

  /** Whatever the id, a parsed key that is not a defaulted Maven remote names a type literally. */
  lemma FromStringParsedShape(supported: set<string>, id: string)
    requires FromString(supported, id).Parsed?
    ensures var k := FromString(supported, id).key;
      k.packageType in supported &&
      ((k.packageType == MavenPkg && k.storeType == Remote && k.name == id) ||
       (|JavaSplit(id, ':')| >= 3 && TypeName(k.storeType) == JavaSplit(id, ':')[1] &&
        k.packageType == JavaSplit(id, ':')[0] && k.name == JavaSplit(id, ':')[2]))
  {
  }

  // ---------------------------------------------------------------------------
  // compareTo

  /** `String.compareTo`: the difference of the first differing characters, else of the lengths. */
  function CompareStrings(a: string, b: string): int {
    if a == [] || b == [] then |a| - |b|
    else if a[0] != b[0] then a[0] as int - b[0] as int
    else CompareStrings(a[1..], b[1..])
  }

  /** `compareTo`: package type first, then the type's ordinal, then the name. */
  function CompareKeys(a: StoreKey, b: StoreKey): int {
    var c := CompareStrings(a.packageType, b.packageType);
    if c != 0 then c
    else
      var t := TypeOrdinal(a.storeType) - TypeOrdinal(b.storeType);
      if t != 0 then t else CompareStrings(a.name, b.name)
  }

  lemma {:induction false} CompareStringsZero(a: string, b: string)
    ensures CompareStrings(a, b) == 0 <==> a == b
  {
    if a != [] && b != [] && a[0] == b[0] {
      CompareStringsZero(a[1..], b[1..]);
      assert a == [a[0]] + a[1..] && b == [b[0]] + b[1..];
    }
  }

  lemma {:induction false} CompareStringsAntisymmetric(a: string, b: string)
    ensures CompareStrings(a, b) < 0 <==> CompareStrings(b, a) > 0
  {
    if a != [] && b != [] && a[0] == b[0] {
      CompareStringsAntisymmetric(a[1..], b[1..]);
    }
  }

  lemma {:induction false} CompareStringsTransitive(a: string, b: string, c: string)
    requires CompareStrings(a, b) < 0 && CompareStrings(b, c) < 0
    ensures CompareStrings(a, c) < 0
  {
    if a != [] && b != [] && c != [] && a[0] == b[0] && b[0] == c[0] {
      CompareStringsTransitive(a[1..], b[1..], c[1..]);
    }
  }

  /** `compareTo` is 0 exactly on equal keys. */
  lemma CompareKeysZero(a: StoreKey, b: StoreKey)
    ensures CompareKeys(a, b) == 0 <==> a == b
  {
    CompareStringsZero(a.packageType, b.packageType);
    CompareStringsZero(a.name, b.name);
  }

  /** `compareTo` is antisymmetric in sign. */
  lemma CompareKeysAntisymmetric(a: StoreKey, b: StoreKey)
    ensures CompareKeys(a, b) < 0 <==> CompareKeys(b, a) > 0
  {
    CompareStringsZero(a.packageType, b.packageType);
    CompareStringsZero(b.packageType, a.packageType);
    CompareStringsAntisymmetric(a.packageType, b.packageType);
    CompareStringsAntisymmetric(b.packageType, a.packageType);
    CompareStringsAntisymmetric(a.name, b.name);
    CompareStringsAntisymmetric(b.name, a.name);
  }

  /** `compareTo` orders keys transitively (lexicographically on the three fields). */
  lemma CompareKeysTransitive(a: StoreKey, b: StoreKey, c: StoreKey)
    requires CompareKeys(a, b) < 0 && CompareKeys(b, c) < 0
    ensures CompareKeys(a, c) < 0
  {
    CompareStringsZero(a.packageType, b.packageType);
    CompareStringsZero(b.packageType, c.packageType);
    CompareStringsZero(a.packageType, c.packageType);
    CompareStringsAntisymmetric(a.packageType, b.packageType);
    CompareStringsAntisymmetric(b.packageType, c.packageType);
    if CompareStrings(a.packageType, b.packageType) < 0 && CompareStrings(b.packageType, c.packageType) < 0 {
      CompareStringsTransitive(a.packageType, b.packageType, c.packageType);
    }
    if a.packageType == b.packageType == c.packageType && a.storeType == b.storeType == c.storeType {
      CompareStringsTransitive(a.name, b.name, c.name);
    }
  }

  // ---------------------------------------------------------------------------
  // hashCode

  const TwoTo32: int := 0x1_0000_0000

  /** Java `int` arithmetic: the two's-complement wrap of `x`. */
  function Int32(x: int): (r: int)
    ensures -0x8000_0000 <= r < 0x8000_0000
    ensures (r - x) % TwoTo32 == 0
  {
    var m := x % TwoTo32;
    if m >= 0x8000_0000 then m - TwoTo32 else m
  }

  /** `String.hashCode`: `s[0]*31^(n-1) + ... + s[n-1]` in 32-bit arithmetic. */
  function StringHash(s: string): int {
    if s == [] then 0 else Int32(31 * StringHash(s[..|s| - 1]) + s[|s| - 1] as int)
  }

  /** `hashCode`; the enum constant's identity hash is a parameter. */
  function HashCode(k: StoreKey, typeHash: StoreType -> int): (r: int)
    ensures -0x8000_0000 <= r < 0x8000_0000
  {
    var h0 := Int32(31 + StringHash(k.packageType));
    var h1 := Int32(31 * h0 + StringHash(k.name));
    Int32(31 * h1 + typeHash(k.storeType))
  }

  /** Equal keys hash alike, whatever hash the type constants have. */
  lemma HashCodeConsistent(a: StoreKey, b: StoreKey, typeHash: StoreType -> int)
    requires Equals(a, b)
    ensures HashCode(a, typeHash) == HashCode(b, typeHash)
  {
  }

  // ---------------------------------------------------------------------------
  // dedupe

  /** A `StoreKey` object: its value and the identity of the Java instance. */
  datatype KeyInstance = KeyInstance(key: StoreKey, id: nat)

  /** The static `deduplications` table. */
  class KeyInterner {
    var deduplications: map<StoreKey, KeyInstance>

    ghost predicate Valid()
      reads this
    {
      forall k :: k in deduplications ==> deduplications[k].key == k
    }

    constructor ()
      ensures Valid() && deduplications == map[]
    {
      deduplications := map[];
    }

    /** Returns the instance first registered for an equal key, registering `inst` if none. */
    method Dedupe(inst: KeyInstance) returns (r: KeyInstance)
      requires Valid()
      modifies this
      ensures Valid()
      ensures r.key == inst.key
      ensures inst.key in old(deduplications) ==>
        r == old(deduplications)[inst.key] && deduplications == old(deduplications)
      ensures inst.key !in old(deduplications) ==>
        r == inst && deduplications == old(deduplications)[inst.key := inst]
      ensures forall k :: k in old(deduplications) ==>
        k in deduplications && deduplications[k] == old(deduplications)[k]
    {
      if inst.key in deduplications {
        r := deduplications[inst.key];
      } else {
        deduplications := deduplications[inst.key := inst];
        r := inst;
      }
    }
  }
}
