/** Artifact store definitions and the keyed registry that `StoreDataManager` describes:
    lookup, store (optionally skipping existing keys), delete, clear, default installation
    and the read-only test. */
module StoreRegistry {
  import opened Common
  import opened StoreKeys

  datatype ArtifactStore =
    | RemoteRepository(key: StoreKey, url: string, metadata: map<string, string>,
                       pathMaskPatterns: set<string>, prefetchListingType: string, prefetchPriority: int)
    | HostedRepository(key: StoreKey, readonly: bool, allowSnapshots: bool, allowReleases: bool)
    | Group(key: StoreKey, constituents: seq<StoreKey>)

  /** A store's key type matches its kind (each Java subclass fixes the key's type). */
  predicate WellKinded(s: ArtifactStore) {
    match s
    case RemoteRepository(k, _, _, _, _, _) => k.storeType == Remote
    case HostedRepository(k, _, _, _) => k.storeType == Hosted
    case Group(k, _) => k.storeType == StoreType.Group
  }

  /** `isReadonly(store)`: only a read-only hosted repository is read-only. */
  function IsReadonly(s: ArtifactStore): (r: bool)
    ensures r ==> s.HostedRepository?
    ensures s.HostedRepository? ==> (r <==> s.readonly)
  {
    s.HostedRepository? && s.readonly
  }

  /** `Group.removeConstituent`: the membership list without `k`, in the same order. */
  function RemoveConstituent(members: seq<StoreKey>, k: StoreKey): (r: seq<StoreKey>)
    ensures k !in r
    ensures forall m :: m in r <==> m in members && m != k
    ensures |r| <= |members|
  {
    if members == [] then []
    else if members[0] == k then RemoveConstituent(members[1..], k)
    else [members[0]] + RemoveConstituent(members[1..], k)
  }

  /** Removing a member that is not there changes nothing. */
  lemma {:induction false} RemoveAbsentConstituent(members: seq<StoreKey>, k: StoreKey)
    requires k !in members
    ensures RemoveConstituent(members, k) == members
  {
    if members != [] {
      RemoveAbsentConstituent(members[1..], k);
      assert members == [members[0]] + members[1..];
    }
  }

  /** Removal distributes over concatenation, so the kept members stay in their order. */
  lemma {:induction false} RemoveConstituentAppend(a: seq<StoreKey>, b: seq<StoreKey>, k: StoreKey)
    ensures RemoveConstituent(a + b, k) == RemoveConstituent(a, k) + RemoveConstituent(b, k)
  {
    if a != [] {
      assert (a + b)[1..] == a[1..] + b;
      RemoveConstituentAppend(a[1..], b, k);
    } else {
      assert a + b == b;
    }
  }

  /** A member listed once, at index `i`, is cut out of the list at that index. */
  lemma RemoveSingleOccurrence(members: seq<StoreKey>, k: StoreKey, i: nat)
    requires i < |members| && members[i] == k
    requires k !in members[..i] && k !in members[i + 1..]
    ensures RemoveConstituent(members, k) == members[..i] + members[i + 1..]
  {
    assert members == members[..i] + ([k] + members[i + 1..]);
    RemoveConstituentAppend(members[..i], [k] + members[i + 1..], k);
    RemoveConstituentAppend([k], members[i + 1..], k);
    RemoveAbsentConstituent(members[..i], k);
    RemoveAbsentConstituent(members[i + 1..], k);
  }

  const DefaultCentral: StoreKey := StoreKey(MavenPkg, Remote, "central")
  const DefaultLocalDeployments: StoreKey := StoreKey(MavenPkg, Hosted, "local-deployments")
  const DefaultPublic: StoreKey := StoreKey(MavenPkg, StoreType.Group, "public")

  /** The stores `install` adds to an empty registry. */
  function DefaultStores(): map<StoreKey, ArtifactStore> {
    map[
      DefaultCentral := RemoteRepository(DefaultCentral, "http://repo.maven.apache.org/maven2/", map[], {}, "html", 0),
      DefaultLocalDeployments := HostedRepository(DefaultLocalDeployments, false, true, true),
      DefaultPublic := ArtifactStore.Group(DefaultPublic, [DefaultCentral, DefaultLocalDeployments])
    ]
  }

  /** Every entry is filed under its own key and is well kinded. */
  ghost predicate KeyedConsistently(stores: map<StoreKey, ArtifactStore>) {
    forall k :: k in stores ==> stores[k].key == k && WellKinded(stores[k])
  }

  /** The defaults are consistent: a remote, a hosted repository that takes releases and
      snapshots, and a group holding both. */
  lemma DefaultStoresShape()
    ensures KeyedConsistently(DefaultStores())
    ensures DefaultStores().Keys == {DefaultCentral, DefaultLocalDeployments, DefaultPublic}
    ensures DefaultStores()[DefaultLocalDeployments].allowReleases
    ensures DefaultStores()[DefaultLocalDeployments].allowSnapshots
    ensures DefaultStores()[DefaultPublic].constituents == [DefaultCentral, DefaultLocalDeployments]
  {
  }

  /** A registry kept in memory, keyed by `StoreKey`. */
  class StoreDataManager {
    var stores: map<StoreKey, ArtifactStore>

    ghost predicate Valid()
      reads this
    {
      KeyedConsistently(stores)
    }

    constructor ()
      ensures Valid() && stores == map[]
    {
      stores := map[];
    }

    /** `hasArtifactStore`. */
    function HasArtifactStore(k: StoreKey): (r: bool)
      reads this
      ensures r <==> k in stores
    {
      k in stores
    }

    /** `getArtifactStore`: the store registered under `k`, or null. */
    function GetArtifactStore(k: StoreKey): (r: Option<ArtifactStore>)
      reads this
      requires Valid()
      ensures r.Some? <==> k in stores
      ensures r.Some? ==> r.value == stores[k] && r.value.key == k && WellKinded(r.value)
    {
      if k in stores then Some(stores[k]) else None
    }

    /** `getArtifactStoresByKey`: every registered key mapped to the store registered under it,
        which carries that key. */
    function GetArtifactStoresByKey(): (r: map<StoreKey, ArtifactStore>)
      reads this
      requires Valid()
      ensures r.Keys == stores.Keys
      ensures forall k :: k in r ==> r[k] == stores[k]
      ensures forall k :: k in r ==> r[k].key == k
    {
      stores
    }

    /** `getAllArtifactStores`: exactly the registered stores. */
    function GetAllArtifactStores(): (r: set<ArtifactStore>)
      reads this
      requires Valid()
      ensures forall k :: k in stores ==> stores[k] in r
      ensures forall s :: s in r ==> s.key in stores && stores[s.key] == s
    {
      set k | k in stores :: stores[k]
    }

    /** `isReadonly(key)`: the key names a read-only hosted repository; an unknown key is not
        read-only. */
    function IsReadonlyKey(k: StoreKey): (r: bool)
      reads this
      requires Valid()
      ensures r ==> k in stores && k.storeType == Hosted
      ensures r <==> k in stores && stores[k].HostedRepository? && stores[k].readonly
    {
      k in stores && IsReadonly(stores[k])
    }

    /** `storeArtifactStore`: aborts when the key exists and `skipIfExists` is set, otherwise
        adds or replaces the store; answers whether it was stored. */
    method StoreArtifactStore(s: ArtifactStore, skipIfExists: bool) returns (stored: bool)
      requires Valid() && WellKinded(s)
      modifies this
      ensures Valid()
      ensures stored <==> !(skipIfExists && s.key in old(stores))
      ensures stored ==> stores == old(stores)[s.key := s]
      ensures !stored ==> stores == old(stores)
    {
      if skipIfExists && s.key in stores {
        stored := false;
      } else {
        stores := stores[s.key := s];
        stored := true;
      }
    }

    /** `deleteArtifactStore`: removes the key; a missing key is a no-op. */
    method DeleteArtifactStore(k: StoreKey)
      requires Valid()
      modifies this
      ensures Valid()
      ensures stores == old(stores) - {k}
      ensures k !in old(stores) ==> stores == old(stores)
    {
      stores := stores - {k};
    }

    /** `clear`: the registry ends up empty. */
    method Clear()
      modifies this
      ensures Valid() && stores == map[]
    {
      stores := map[];
    }

    /** `install`: only an empty registry receives the defaults. */
    method Install()
      requires Valid()
      modifies this
      ensures Valid()
      ensures old(stores) == map[] ==> stores == DefaultStores()
      ensures old(stores) != map[] ==> stores == old(stores)
    {
      if stores == map[] {
        DefaultStoresShape();
        stores := DefaultStores();
      }
    }
  }
}
