/** A cache-only storage location for a store key: it may be stored into but never published
    to or downloaded from, its snapshot/release flags follow the hosted repository it was
    built from, it carries a mutable attribute map, and it is identified by its key alone. */
module CacheOnlyLocations {
  import opened Common
  import opened StoreKeys
  import opened StoreRegistry

  /** The location; `V` is the type of attribute values. */
  class CacheOnlyLocation<V(==)> {
    /** The hosted repository it was built from, if any. */
    const repo: Option<ArtifactStore>
    const key: StoreKey
    var attributes: map<string, V>

    ghost predicate Valid()
      reads this
    {
      repo.Some? ==> repo.value.HostedRepository? && repo.value.key == key
    }

    /** Built from a hosted repository; `initial` stands for the storage-path attributes that
        the location utilities record for the repository. */
    constructor FromRepository(repo: ArtifactStore, initial: map<string, V>)
      requires repo.HostedRepository?
      ensures Valid() && this.repo == Some(repo) && key == repo.key && attributes == initial
    {
      this.repo := Some(repo);
      this.key := repo.key;
      this.attributes := initial;
    }

    /** Built from a bare key. */
    constructor FromKey(key: StoreKey)
      ensures Valid() && repo == None && this.key == key && attributes == map[]
    {
      this.repo := None;
      this.key := key;
      this.attributes := map[];
    }

    /** `isHostedRepository`: built from a repository. */
    function IsHostedRepository(): (r: bool)
      reads this
      requires Valid()
      ensures r <==> repo.Some?
      ensures r ==> repo.value.HostedRepository?
    {
      repo.Some?
    }

    function AllowsPublishing(): (r: bool)
      ensures !r
    {
      false
    }

    function AllowsDownloading(): (r: bool)
      ensures !r
    {
      false
    }

    function AllowsStoring(): (r: bool)
      ensures r
    {
      true
    }

    /** `allowsSnapshots`: only when a repository allowing snapshots backs it. */
    function AllowsSnapshots(): (r: bool)
      reads this
      requires Valid()
      ensures r <==> repo.Some? && repo.value.allowSnapshots
    {
      repo.Some? && repo.value.allowSnapshots
    }

    /** `allowsReleases`: without a repository, or when the repository allows releases. */
    function AllowsReleases(): (r: bool)
      reads this
      requires Valid()
      ensures r <==> repo.None? || repo.value.allowReleases
      ensures !IsHostedRepository() ==> r
    {
      repo.None? || repo.value.allowReleases
    }

    /** `getUri`. */
    function GetUri(): (r: string)
      reads this
      ensures r == "indy:" + GetName()
      ensures StartsWith(r, "indy:") && r[5..] == ToString(key)
    {
      "indy:" + ToString(key)
    }

    /** `getName`. */
    function GetName(): (r: string)
      reads this
      ensures r == ToString(key)
    {
      ToString(key)
    }

    /** `getAttribute(k, type, default)`, without the cast. */
    function GetAttribute(k: string, default: V): (r: V)
      reads this
      ensures k in attributes ==> r == attributes[k]
      ensures k !in attributes ==> r == default
    {
      if k in attributes then attributes[k] else default
    }

    /** `setAttribute`: the previous value comes back and only entry `k` changes. */
    method SetAttribute(k: string, v: V) returns (previous: Option<V>)
      modifies this
      ensures previous == if k in old(attributes) then Some(old(attributes)[k]) else None
      ensures attributes == old(attributes)[k := v]
      ensures forall d :: GetAttribute(k, d) == v
    {
      previous := if k in attributes then Some(attributes[k]) else None;
      attributes := attributes[k := v];
    }

    /** `removeAttribute`: the previous value comes back and only entry `k` goes. */
    method RemoveAttribute(k: string) returns (previous: Option<V>)
      modifies this
      ensures previous == if k in old(attributes) then Some(old(attributes)[k]) else None
      ensures attributes == old(attributes) - {k}
      ensures forall d :: GetAttribute(k, d) == d
    {
      previous := if k in attributes then Some(attributes[k]) else None;
      attributes := attributes - {k};
    }

    /** `equals` with another cache-only location: same object, or equal keys. */
    predicate SameLocation(other: CacheOnlyLocation<V>)
      reads this, other
    {
      this == other || Equals(key, other.key)
    }

    /** `hashCode`: 31 + the key's hash, in 32-bit arithmetic. */
    function LocationHash(typeHash: StoreType -> int): (r: int)
      reads this
      ensures -0x8000_0000 <= r < 0x8000_0000
    {
      Int32(31 + HashCode(key, typeHash))
    }
  }

  /** Equality is decided by the key alone, whatever the repositories and attributes. */
  lemma LocationEqualityByKey<V>(a: CacheOnlyLocation<V>, b: CacheOnlyLocation<V>)
    ensures a.SameLocation(b) <==> a.key == b.key
  {
  }

  /** Equal locations hash alike. */
  lemma LocationHashConsistent<V>(a: CacheOnlyLocation<V>, b: CacheOnlyLocation<V>, typeHash: StoreType -> int)
    requires a.SameLocation(b)
    ensures a.LocationHash(typeHash) == b.LocationHash(typeHash)
  {
    HashCodeConsistent(a.key, b.key, typeHash);
  }
}
