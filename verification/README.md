# Indy core, modelled in Dafny

Indy is a Maven/npm/PyPI repository manager. It serves *artifact stores*, each named by a
`StoreKey` (package type, store type, name). A store is a *remote* (a proxy of an upstream
repository), a *hosted* repository (local storage) or a *group* (an ordered list of member
stores). This project models, in Dafny, the parts of Indy that decide identities, paths and
store updates:

- store keys: parsing, ordering, hashing and interning;
- the store registry;
- the archetype-catalog group handler;
- cache-only locations;
- the PyPI CDN redirection tables, their delete listener, the PyPI storage path and the
  listing stream that rewrites PyPI directory pages;
- the path-mapped group filter;
- Koji build consolidation and the Koji prefetch list builder;
- the promotion validator's rule loop;
- the relationship-set serialization envelope;
- the repository-proxy path utilities;
- the transport-metric configuration;
- the boot options.

Each core source file has its own module (`StoreKeys`, `StoreRegistry`, `ArchetypeCatalog`,
`CacheOnlyLocations`, `CdnRedirection`, `FlatCdnRedirection`, `PyPIStoragePath`,
`PyPIListing`, `GroupRepositoryFilter`, `KojiConsolidation`, `KojiContentListing`,
`PromotionValidation`, `Relationships`, `RepoProxy`, `TransportMetrics`, `BootOptions`).
Shared Java string semantics live in `Common`:

- `String.trim`, `isBlank`, `split` and `replaceAll` of a literal;
- the parent and file name of a `/`-separated path.

Code that mutates objects is modelled as classes whose methods state their whole new state:

- the registry, the interner, the CDN tables, the listing stream, the consolidator and its
  downloads, the validation result, the boot options and the metric provider.

Each method is proved against a specification function. Those functions carry the lemmas:

- round trips;
- equality/hash agreement and the order laws;
- first-match and exact-membership characterizations;
- drain termination and its retry bound;
- frame properties ("nothing else changes").

Java `int` arithmetic (hashes, `(char)` casts) is written out explicitly.

## Model

| member | source | states |
|---|---|---|
| StoreKeys.TypeName | models/core-java/src/main/java/org/commonjava/indy/model/core/StoreKey.java:87 | a store type's name is non-empty, holds no ':' and is not blank, so it can sit in the middle of a key string |
| StoreKeys.TypeFromName | models/core-java/src/main/java/org/commonjava/indy/model/core/StoreKey.java:164 | a type is found exactly when some type carries that name, and the type found carries it |
| StoreKeys.NewStoreKey | models/core-java/src/main/java/org/commonjava/indy/model/core/StoreKey.java:48-59 | construction succeeds exactly when the package type is non-null and supported, and otherwise fails with the unsupported-package-type error |
| StoreKeys.Equals | models/core-java/src/main/java/org/commonjava/indy/model/core/StoreKey.java:101-140 | two keys are equal exactly when package type, type and name all agree |
| StoreKeys.FromStringNoColon | models/core-java/src/main/java/org/commonjava/indy/model/core/StoreKey.java:151-160 | an id without ':' is read as a Maven remote repository named by the whole id |
| StoreKeys.FromStringRoundTrip | models/core-java/src/main/java/org/commonjava/indy/model/core/StoreKey.java:142-176 | reading back the `pkg:type:name` form of a key (supported package type, no ':' in package type or name, non-empty name) gives the key again |
| StoreKeys.FromStringUnknownType | models/core-java/src/main/java/org/commonjava/indy/model/core/StoreKey.java:161-171 | an id whose second segment names no store type yields null rather than an exception |
| StoreKeys.FromStringTwoSegments | models/core-java/src/main/java/org/commonjava/indy/model/core/StoreKey.java:161-166 | an id with only two segments fails with an index-out-of-bounds exception when the name is read |
| StoreKeys.FromStringParsedShape | models/core-java/src/main/java/org/commonjava/indy/model/core/StoreKey.java:142-176 | every key parsed from an id with a type segment carries exactly the type that segment names |
| StoreKeys.CompareStringsZero | models/core-java/src/main/java/org/commonjava/indy/model/core/StoreKey.java:178-193 | string comparison is zero exactly on equal strings |
| StoreKeys.CompareStringsAntisymmetric | models/core-java/src/main/java/org/commonjava/indy/model/core/StoreKey.java:178-193 | string comparison reverses its sign when the arguments are swapped |
| StoreKeys.CompareStringsTransitive | models/core-java/src/main/java/org/commonjava/indy/model/core/StoreKey.java:178-193 | string comparison is transitive |
| StoreKeys.CompareKeysZero | models/core-java/src/main/java/org/commonjava/indy/model/core/StoreKey.java:178-193 | `compareTo` is zero exactly on equal keys, so it agrees with `equals` |
| StoreKeys.CompareKeysAntisymmetric | models/core-java/src/main/java/org/commonjava/indy/model/core/StoreKey.java:178-193 | `compareTo` reverses its sign when the keys are swapped |
| StoreKeys.CompareKeysTransitive | models/core-java/src/main/java/org/commonjava/indy/model/core/StoreKey.java:178-193 | `compareTo` is a transitive order over keys |
| StoreKeys.Int32 | models/core-java/src/main/java/org/commonjava/indy/model/core/StoreKey.java:90-99 | the result lies in Java's int range and is congruent to the exact value modulo 2^32 |
| StoreKeys.HashCode | models/core-java/src/main/java/org/commonjava/indy/model/core/StoreKey.java:90-99 | the hash is a Java int |
| StoreKeys.HashCodeConsistent | models/core-java/src/main/java/org/commonjava/indy/model/core/StoreKey.java:90-140 | keys that are `equals` have the same hash, whatever hash the type constants have |
| StoreKeys.KeyInterner.constructor | models/core-java/src/main/java/org/commonjava/indy/model/core/StoreKey.java:195 | the deduplication table starts empty |
| StoreKeys.KeyInterner.Dedupe | models/core-java/src/main/java/org/commonjava/indy/model/core/StoreKey.java:197-207 | the instance returned carries an equal key; it is the instance registered first for that key when one exists, and the new one (now registered) otherwise; no other entry changes |
| StoreRegistry.IsReadonly | api/src/main/java/org/commonjava/indy/data/StoreDataManager.java:115-118 | a store is read-only only when it is a hosted repository marked read-only |
| StoreRegistry.RemoveConstituent | addons/koji/common/src/main/java/org/commonjava/indy/koji/content/KojiContentConsolidator.java:275-276 | the member is gone, every other member stays, and the list does not grow |
| StoreRegistry.RemoveConstituentAppend | addons/koji/common/src/main/java/org/commonjava/indy/koji/content/KojiContentConsolidator.java:275-276 | removal distributes over concatenation, so the kept members keep their order |
| StoreRegistry.RemoveSingleOccurrence | addons/koji/common/src/main/java/org/commonjava/indy/koji/content/KojiContentConsolidator.java:275-276 | a member listed once, at index i, is cut out at i and the other members keep their order |
| StoreRegistry.RemoveAbsentConstituent | addons/koji/common/src/main/java/org/commonjava/indy/koji/content/KojiContentConsolidator.java:275-276 | removing a member that is not there leaves the list as it is |
| StoreRegistry.DefaultStoresShape | api/src/main/java/org/commonjava/indy/data/StoreDataManager.java:93-102 | the default stores are the central remote, the local-deployments hosted repository (releases and snapshots allowed) and the public group of those two, each filed under its own key |
| StoreRegistry.StoreDataManager.constructor | api/src/main/java/org/commonjava/indy/data/StoreDataManager.java:34-39 | the registry starts empty and consistent |
| StoreRegistry.StoreDataManager.HasArtifactStore | api/src/main/java/org/commonjava/indy/data/StoreDataManager.java:41-44 | true exactly for a registered key |
| StoreRegistry.StoreDataManager.GetArtifactStore | api/src/main/java/org/commonjava/indy/data/StoreDataManager.java:46-51 | the store registered under the key, which carries that key and the matching kind; null exactly for an unknown key |
| StoreRegistry.StoreDataManager.GetArtifactStoresByKey | api/src/main/java/org/commonjava/indy/data/StoreDataManager.java:65-69 | the map covers exactly the registered keys and maps each key to the store registered under it, which carries that key |
| StoreRegistry.StoreDataManager.GetAllArtifactStores | api/src/main/java/org/commonjava/indy/data/StoreDataManager.java:53-57 | exactly the registered stores |
| StoreRegistry.StoreDataManager.IsReadonlyKey | api/src/main/java/org/commonjava/indy/data/StoreDataManager.java:120-123 | true exactly when the key names a registered read-only hosted repository; an unknown key is writable |
| StoreRegistry.StoreDataManager.StoreArtifactStore | api/src/main/java/org/commonjava/indy/data/StoreDataManager.java:71-78 | the store is filed under its key unless the key exists and skip-if-exists is set, in which case nothing changes; the return value says which happened |
| StoreRegistry.StoreDataManager.DeleteArtifactStore | api/src/main/java/org/commonjava/indy/data/StoreDataManager.java:80-85 | only the key's entry is removed; an unknown key changes nothing |
| StoreRegistry.StoreDataManager.Clear | api/src/main/java/org/commonjava/indy/data/StoreDataManager.java:87-91 | the registry ends empty |
| StoreRegistry.StoreDataManager.Install | api/src/main/java/org/commonjava/indy/data/StoreDataManager.java:93-102 | an empty registry receives the default stores; a non-empty one is left as it is |
| ArchetypeCatalog.SideFiles | core/src/main/java/org/commonjava/aprox/core/rest/util/retrieve/ArchetypeCatalogHandler.java:90 | the helper writes exactly its own side-file paths for the merged file |
| ArchetypeCatalog.RetrieveSpec | core/src/main/java/org/commonjava/aprox/core/rest/util/retrieve/ArchetypeCatalogHandler.java:60-100 | an existing group slot is served as is; without one, no merge result gives null, a failed write leaves the storage unchanged with an error, and a successful write stores the merged catalog with its side files |
| ArchetypeCatalog.RetrieveIdempotent | core/src/main/java/org/commonjava/aprox/core/rest/util/retrieve/ArchetypeCatalogHandler.java:64-99 | once the slot is served, a second retrieve returns the same path and changes nothing, whatever the merge would give |
| ArchetypeCatalog.StoreForcesRemerge | core/src/main/java/org/commonjava/aprox/core/rest/util/retrieve/ArchetypeCatalogHandler.java:103-126 | after a catalog is stored, the next retrieve writes a fresh merge result |
| ArchetypeCatalog.StoreSpec | core/src/main/java/org/commonjava/aprox/core/rest/util/retrieve/ArchetypeCatalogHandler.java:103-126 | storing a catalog path removes the group's merged slot (or fails leaving storage unchanged); other paths change nothing |
| ArchetypeCatalog.DeleteSpec | core/src/main/java/org/commonjava/aprox/core/rest/util/retrieve/ArchetypeCatalogHandler.java:128-144 | without a storage reference delete returns false; otherwise the slot and its side files are removed, or a failed deletion leaves storage unchanged with an error |
| ArchetypeCatalog.ArchetypeCatalogHandler.constructor | core/src/main/java/org/commonjava/aprox/core/rest/util/retrieve/ArchetypeCatalogHandler.java:41-52 | the handler holds the given helper and group storage |
| ArchetypeCatalog.ArchetypeCatalogHandler.Retrieve | core/src/main/java/org/commonjava/aprox/core/rest/util/retrieve/ArchetypeCatalogHandler.java:60-100 | the result and the new storage are those `RetrieveSpec` describes |
| ArchetypeCatalog.ArchetypeCatalogHandler.Store | core/src/main/java/org/commonjava/aprox/core/rest/util/retrieve/ArchetypeCatalogHandler.java:102-126 | the result and the new storage are those `StoreSpec` describes |
| ArchetypeCatalog.ArchetypeCatalogHandler.Delete | core/src/main/java/org/commonjava/aprox/core/rest/util/retrieve/ArchetypeCatalogHandler.java:128-144 | the result and the new storage are those `DeleteSpec` describes |
| CacheOnlyLocations.CacheOnlyLocation.FromRepository | api/src/main/java/org/commonjava/indy/model/galley/CacheOnlyLocation.java:41-49 | a location built from a hosted repository carries that repository, its key and the initial attributes |
| CacheOnlyLocations.CacheOnlyLocation.FromKey | api/src/main/java/org/commonjava/indy/model/galley/CacheOnlyLocation.java:51-55 | a location built from a key has no repository and no attributes |
| CacheOnlyLocations.CacheOnlyLocation.IsHostedRepository | api/src/main/java/org/commonjava/indy/model/galley/CacheOnlyLocation.java:57-60 | true exactly when a (hosted) repository backs the location |
| CacheOnlyLocations.CacheOnlyLocation.AllowsPublishing | api/src/main/java/org/commonjava/indy/model/galley/CacheOnlyLocation.java:62-66 | a cache-only location never allows publishing |
| CacheOnlyLocations.CacheOnlyLocation.AllowsStoring | api/src/main/java/org/commonjava/indy/model/galley/CacheOnlyLocation.java:68-72 | a cache-only location always allows storing |
| CacheOnlyLocations.CacheOnlyLocation.AllowsSnapshots | api/src/main/java/org/commonjava/indy/model/galley/CacheOnlyLocation.java:74-78 | snapshots are allowed exactly when a repository that allows them backs the location |
| CacheOnlyLocations.CacheOnlyLocation.AllowsReleases | api/src/main/java/org/commonjava/indy/model/galley/CacheOnlyLocation.java:80-84 | releases are allowed without a repository, or when the repository allows them |
| CacheOnlyLocations.CacheOnlyLocation.GetUri | api/src/main/java/org/commonjava/indy/model/galley/CacheOnlyLocation.java:86-90 | the URI is "indy:" followed by the key string |
| CacheOnlyLocations.CacheOnlyLocation.GetName | api/src/main/java/org/commonjava/indy/model/galley/CacheOnlyLocation.java:141-145 | the name is the key string |
| CacheOnlyLocations.CacheOnlyLocation.GetAttribute | api/src/main/java/org/commonjava/indy/model/galley/CacheOnlyLocation.java:104-109 | the stored value of the attribute, or the default when it is absent |
| CacheOnlyLocations.CacheOnlyLocation.RemoveAttribute | api/src/main/java/org/commonjava/indy/model/galley/CacheOnlyLocation.java:111-115 | the previous value comes back, only that entry is removed, and later reads give the default |
| CacheOnlyLocations.CacheOnlyLocation.SetAttribute | api/src/main/java/org/commonjava/indy/model/galley/CacheOnlyLocation.java:117-121 | the previous value comes back, only that entry changes, and later reads give the new value |
| CacheOnlyLocations.CacheOnlyLocation.AllowsDownloading | api/src/main/java/org/commonjava/indy/model/galley/CacheOnlyLocation.java:129-133 | a cache-only location never allows downloading |
| CacheOnlyLocations.CacheOnlyLocation.LocationHash | api/src/main/java/org/commonjava/indy/model/galley/CacheOnlyLocation.java:147-154 | the hash is a Java int |
| CacheOnlyLocations.LocationEqualityByKey | api/src/main/java/org/commonjava/indy/model/galley/CacheOnlyLocation.java:156-184 | two cache-only locations are equal exactly when their keys are, whatever their repositories and attributes |
| CacheOnlyLocations.LocationHashConsistent | api/src/main/java/org/commonjava/indy/model/galley/CacheOnlyLocation.java:147-184 | equal locations hash alike |
| CdnRedirection.ContentKeyEquals | addons/pkg-pypi/common/src/main/java/org/commonjava/indy/pkg/pypi/content/cdn/CDNContentKey.java:27-36 | content keys are equal exactly when store key and path agree |
| CdnRedirection.ContentKeyHash | addons/pkg-pypi/common/src/main/java/org/commonjava/indy/pkg/pypi/content/cdn/CDNContentKey.java:38-42 | the hash is a Java int |
| CdnRedirection.ContentKeyHashConsistent | addons/pkg-pypi/common/src/main/java/org/commonjava/indy/pkg/pypi/content/cdn/CDNContentKey.java:27-42 | equal content keys hash alike |
| CdnRedirection.WriteContentKey | addons/pkg-pypi/common/src/main/java/org/commonjava/indy/pkg/pypi/content/cdn/CDNContentKey.java:44-50 | three values are written, the first being the class version |
| CdnRedirection.ReadContentKey | addons/pkg-pypi/common/src/main/java/org/commonjava/indy/pkg/pypi/content/cdn/CDNContentKey.java:52-64 | a newer version is refused exactly when the first value is a version above the class's; a successful read consumes exactly three values |
| CdnRedirection.ContentKeyRoundTrip | addons/pkg-pypi/common/src/main/java/org/commonjava/indy/pkg/pypi/content/cdn/CDNContentKey.java:44-64 | reading what was written restores the key and leaves the rest of the stream unread |
| CdnRedirection.ContentKeyOlderVersionAccepted | addons/pkg-pypi/common/src/main/java/org/commonjava/indy/pkg/pypi/content/cdn/CDNContentKey.java:52-64 | a stream tagged with an older version is read exactly like the current one |
| CdnRedirection.CleanPath | addons/pkg-pypi/common/src/main/java/org/commonjava/indy/pkg/pypi/content/cdn/CDNRedirectionDatabase.java:54-57 | one trailing '/' is removed, and nothing else changes |
| CdnRedirection.LookupMapIn | addons/pkg-pypi/common/src/main/java/org/commonjava/indy/pkg/pypi/content/cdn/CDNRedirectionDatabase.java:25-28 | the map recorded under the cleaned path, and nothing when none is |
| CdnRedirection.LookupIn | addons/pkg-pypi/common/src/main/java/org/commonjava/indy/pkg/pypi/content/cdn/CDNRedirectionDatabase.java:30-52 | a path without a parent gives nothing; a result is the href recorded for the file name in the map of the parent directory |
| CdnRedirection.LookupAfterRegister | addons/pkg-pypi/common/src/main/java/org/commonjava/indy/pkg/pypi/content/cdn/CDNRedirectionDatabase.java:30-63 | after a directory's map is registered, looking up a file in that directory gives the file's href, or nothing when the map does not name it |
| CdnRedirection.ClearDoesNotClean | addons/pkg-pypi/common/src/main/java/org/commonjava/indy/pkg/pypi/content/cdn/CDNRedirectionDatabase.java:54-69 | clearing "d/" leaves the map registered for "d", because clear does not clean its path as register does |
| CdnRedirection.RegisterIsolated | addons/pkg-pypi/common/src/main/java/org/commonjava/indy/pkg/pypi/content/cdn/CDNRedirectionDatabase.java:59-63 | registering under one store key leaves both lookups for every other key unchanged |
| CdnRedirection.CdnRedirectionDatabase.constructor | addons/pkg-pypi/common/src/main/java/org/commonjava/indy/pkg/pypi/content/cdn/CDNRedirectionDatabase.java:17-21 | the table starts empty |
| CdnRedirection.CdnRedirectionDatabase.LookupMap | addons/pkg-pypi/common/src/main/java/org/commonjava/indy/pkg/pypi/content/cdn/CDNRedirectionDatabase.java:25-28 | the table's own map lookup, as `LookupMapIn` states it |
| CdnRedirection.CdnRedirectionDatabase.Lookup | addons/pkg-pypi/common/src/main/java/org/commonjava/indy/pkg/pypi/content/cdn/CDNRedirectionDatabase.java:30-52 | the table's own file lookup, as `LookupIn` states it |
| CdnRedirection.CdnRedirectionDatabase.Register | addons/pkg-pypi/common/src/main/java/org/commonjava/indy/pkg/pypi/content/cdn/CDNRedirectionDatabase.java:59-63 | the map is filed under the cleaned path, replacing an earlier one, and can be looked up again |
| CdnRedirection.CdnRedirectionDatabase.Clear | addons/pkg-pypi/common/src/main/java/org/commonjava/indy/pkg/pypi/content/cdn/CDNRedirectionDatabase.java:65-69 | only the entry for the path as given is removed |
| CdnRedirection.ClearedEntry | addons/pkg-pypi/common/src/main/java/org/commonjava/indy/pkg/pypi/content/change/ListingStoreListener.java:50-84 | an entry is cleared exactly for a cache-only check on a keyed PyPI location whose path ends in ".html", and it is the entry for that key and path unmodified |
| CdnRedirection.OnMetadataFileDelete | addons/pkg-pypi/common/src/main/java/org/commonjava/indy/pkg/pypi/content/change/ListingStoreListener.java:50-84 | the table loses the cleared entry, if any, and nothing else |
| CdnRedirection.ListenerOnlyClearsItsEntry | addons/pkg-pypi/common/src/main/java/org/commonjava/indy/pkg/pypi/content/change/ListingStoreListener.java:50-84 | every other entry, of this store and others, survives a deletion event unchanged |
| FlatCdnRedirection.KeyAndPathEquals | addons/pkg-pypi/common/src/main/java/org/commonjava/indy/pkg/pypi/content/CDNRedirectionDatabase.java:43-52 | pairs are equal exactly when key and path agree |
| FlatCdnRedirection.LookupIn | addons/pkg-pypi/common/src/main/java/org/commonjava/indy/pkg/pypi/content/CDNRedirectionDatabase.java:20-24 | the registered href, and nothing for a pair never registered |
| FlatCdnRedirection.LookupAfterRegister | addons/pkg-pypi/common/src/main/java/org/commonjava/indy/pkg/pypi/content/CDNRedirectionDatabase.java:20-30 | after registering a pair its lookup gives the last href registered; every other pair's lookup is unchanged |
| FlatCdnRedirection.CdnRedirectionTable.constructor | addons/pkg-pypi/common/src/main/java/org/commonjava/indy/pkg/pypi/content/CDNRedirectionDatabase.java:18 | the table starts empty |
| FlatCdnRedirection.CdnRedirectionTable.Lookup | addons/pkg-pypi/common/src/main/java/org/commonjava/indy/pkg/pypi/content/CDNRedirectionDatabase.java:20-24 | the table's own lookup, as `LookupIn` states it |
| FlatCdnRedirection.CdnRedirectionTable.Register | addons/pkg-pypi/common/src/main/java/org/commonjava/indy/pkg/pypi/content/CDNRedirectionDatabase.java:26-30 | the pair's href is set, overwriting an earlier one, and can be looked up again |
| PyPIStoragePath.CalculateStoragePath | addons/pkg-pypi/common/src/main/java/org/commonjava/indy/pkg/pypi/content/PyPIStoragePathCalculator.java:64-78 | a non-PyPI store keeps the path; a PyPI store maps a null, empty or "/" path to the root index file; any other path is kept |
| PyPIStoragePath.OnlyPackageTypeMatters | addons/pkg-pypi/common/src/main/java/org/commonjava/indy/pkg/pypi/content/PyPIStoragePathCalculator.java:64-78 | keys with the same package type store every path at the same place |
| GroupRepositoryFilter.CanProcess | addons/path-mapped/common/src/main/java/org/commonjava/indy/pathmapped/inject/PathMappedGroupRepositoryFilter.java:70-93 | the filter applies exactly when a path-mapped cache provider was injected |
| GroupRepositoryFilter.Candidates | addons/path-mapped/common/src/main/java/org/commonjava/indy/pathmapped/inject/PathMappedGroupRepositoryFilter.java:160-166 | the candidates are exactly the key strings of the hosted stores, no more of them than stores |
| GroupRepositoryFilter.StrategyPath | addons/path-mapped/common/src/main/java/org/commonjava/indy/pathmapped/inject/PathMappedGroupRepositoryFilter.java:168-198 | null exactly for a blank path; the parent directory for Maven and npm keys when the path has one; the path itself otherwise |
| GroupRepositoryFilter.Partition | addons/path-mapped/common/src/main/java/org/commonjava/indy/pathmapped/inject/PathMappedGroupRepositoryFilter.java:124-125 | partitioning fails exactly for a non-positive batch size |
| GroupRepositoryFilter.BatchesPartition | addons/path-mapped/common/src/main/java/org/commonjava/indy/pathmapped/inject/PathMappedGroupRepositoryFilter.java:124-139 | the batches, concatenated in order, are the candidate list, and each holds between one and the batch size candidates |
| GroupRepositoryFilter.Retained | addons/path-mapped/common/src/main/java/org/commonjava/indy/pathmapped/inject/PathMappedGroupRepositoryFilter.java:126-139 | a key string is retained exactly when some batch contributes it |
| GroupRepositoryFilter.CollectContaining | addons/path-mapped/common/src/main/java/org/commonjava/indy/pathmapped/inject/PathMappedGroupRepositoryFilter.java:126-139 | the loop collects exactly what the batches retain: the query's answer, or the whole batch when the query fails |
| GroupRepositoryFilter.Keep | addons/path-mapped/common/src/main/java/org/commonjava/indy/pathmapped/inject/PathMappedGroupRepositoryFilter.java:141-144 | exactly the remote stores and the stores whose key string was retained remain |
| GroupRepositoryFilter.KeepIsSubsequence | addons/path-mapped/common/src/main/java/org/commonjava/indy/pathmapped/inject/PathMappedGroupRepositoryFilter.java:141-144 | the filter keeps the order of the stores it is given |
| GroupRepositoryFilter.Filter | addons/path-mapped/common/src/main/java/org/commonjava/indy/pathmapped/inject/PathMappedGroupRepositoryFilter.java:99-145 | the stores come back unchanged without hosted candidates, for a blank path, or for non-snapshot Maven metadata once the GA cache has started; otherwise the result is the kept stores, and an error exactly when the batch size is not positive |
| GroupRepositoryFilter.HostedKept | addons/path-mapped/common/src/main/java/org/commonjava/indy/pathmapped/inject/PathMappedGroupRepositoryFilter.java:122-145 | a hosted store survives exactly when some batch contributes its key string |
| KojiConsolidation.AttemptPathConsolidation | addons/koji/common/src/main/java/org/commonjava/indy/koji/content/KojiContentConsolidator.java:369-436 | a retry is wanted exactly when the download's digest differs, the store throws, or the stored copy's digest differs and deleting it throws; a wrong download is dropped unless its deletion fails; the target gains the path only with the expected digest, or keeps a wrong stored copy when its deletion failed; nothing outside the path changes |
| KojiConsolidation.FailedDeleteKeepsWrongCopy | addons/koji/common/src/main/java/org/commonjava/indy/koji/content/KojiContentConsolidator.java:391-411 | a stored copy with a wrong digest whose deletion throws stays in the target and asks for a retry, and the retry then skips the path because it already exists |
| KojiConsolidation.DownloadStep | addons/koji/common/src/main/java/org/commonjava/indy/koji/content/KojiContentConsolidator.java:301-367 | a path already in the target (the existence check not throwing) is skipped without retry; otherwise a retry is wanted exactly when the retrieve throws or the consolidation attempt asks for one; a failed or empty retrieve changes nothing; other paths never change |
| KojiConsolidation.MarkFailed | addons/koji/common/src/main/java/org/commonjava/indy/koji/content/KojiContentConsolidator.java:354-361 | the remote keeps its key and other metadata and carries the consolidation-failed marker |
| KojiConsolidation.MarkFailedTwice | addons/koji/common/src/main/java/org/commonjava/indy/koji/content/KojiContentConsolidator.java:354-361 | marking a remote as failed twice is marking it once |
| KojiConsolidation.NewTarget | addons/koji/common/src/main/java/org/commonjava/indy/koji/content/KojiContentConsolidator.java:105-115 | the new target is a read-only hosted repository under the target key that takes no snapshots |
| KojiConsolidation.MetadataPathInjective | addons/koji/common/src/main/java/org/commonjava/indy/koji/content/KojiContentConsolidator.java:184-188 | distinct directories give distinct metadata files |
| KojiConsolidation.Formatted | addons/koji/common/src/main/java/org/commonjava/indy/koji/content/KojiContentConsolidator.java:180-196 | the formatted archives are archives of the build with a path, no more of them than archives |
| KojiConsolidation.MetadataPathsSpec | addons/koji/common/src/main/java/org/commonjava/indy/koji/content/KojiContentConsolidator.java:177-196 | the set holds the metadata file of each formatted path's directory and nothing else |
| KojiConsolidation.TargetFromStep | addons/koji/common/src/main/java/org/commonjava/indy/koji/content/KojiContentConsolidator.java:312-316 | a step that writes only an allowed checksum at its own path keeps every target entry either original or allowed |
| KojiConsolidation.ConsolidationDownload.constructor | addons/koji/common/src/main/java/org/commonjava/indy/koji/content/KojiContentConsolidator.java:143-147 | a new download carries its path and checksum and has made no attempt |
| KojiConsolidation.ConsolidationDownload.IncrementTries | addons/koji/common/src/main/java/org/commonjava/indy/koji/content/KojiContentConsolidator.java:149-152 | the counter grows by one and the new value comes back |
| KojiConsolidation.MutableGroup.constructor | addons/koji/common/src/main/java/org/commonjava/indy/koji/content/KojiContentConsolidator.java:117-119 | the group carries its key and member list |
| KojiConsolidation.MutableGroup.AsStore | addons/koji/common/src/main/java/org/commonjava/indy/koji/content/KojiContentConsolidator.java:117-125 | the group as a store, with its key and current members |
| KojiConsolidation.BudgetAppend | addons/koji/common/src/main/java/org/commonjava/indy/koji/content/KojiContentConsolidator.java:198-214 | requeueing a download adds exactly its remaining attempts to the outstanding work |
| KojiConsolidation.QueueStep | addons/koji/common/src/main/java/org/commonjava/indy/koji/content/KojiContentConsolidator.java:208-214 | one turn keeps the queue free of repeats with every counter below 3, and strictly reduces the outstanding work |
| KojiConsolidation.NextTurn | addons/koji/common/src/main/java/org/commonjava/indy/koji/content/KojiContentConsolidator.java:346-364 | one turn keeps the queue well formed, shrinks the outstanding work, and leaves the remote a remote with the same key |
| KojiConsolidation.DrainSpec | addons/koji/common/src/main/java/org/commonjava/indy/koji/content/KojiContentConsolidator.java:198-214 | the drain replayed turn by turn ends with the remote under the same key and a counter for every download |
| KojiConsolidation.TurnCounts | addons/koji/common/src/main/java/org/commonjava/indy/koji/content/KojiContentConsolidator.java:346-364 | one turn moves only the head's counter, by one on a retry; the head is queued again exactly on a retry below 3; the remote is marked exactly on a retry at 3 |
| KojiConsolidation.DrainMarksRemote | addons/koji/common/src/main/java/org/commonjava/indy/koji/content/KojiContentConsolidator.java:198-214 | every download ends with at most 3 counted retries and no fewer than it started with; the remote is marked failed exactly when some download wanted a retry on its third attempt, and is unchanged otherwise |
| KojiConsolidation.TurnSucceeds | addons/koji/common/src/main/java/org/commonjava/indy/koji/content/KojiContentConsolidator.java:301-367 | a turn whose attempt succeeds wants no retry, drops the head, and lands its path unless already present |
| KojiConsolidation.DrainAllSucceed | addons/koji/common/src/main/java/org/commonjava/indy/koji/content/KojiContentConsolidator.java:198-214 | when every first attempt succeeds with the expected digest, no counter moves, the remote stays unmarked, and every download lands in the target in queue order |
| KojiConsolidation.LandedSpec | addons/koji/common/src/main/java/org/commonjava/indy/koji/content/KojiContentConsolidator.java:312-316 | after landing, the target holds its old entries unchanged plus exactly the queued paths, each with the checksum of the first download for it |
| KojiConsolidation.DrainKeepsTargetFrom | addons/koji/common/src/main/java/org/commonjava/indy/koji/content/KojiContentConsolidator.java:198-214 | when no deletion throws, every target path after the drain holds its original checksum or one a download gives for that path |
| KojiConsolidation.Consolidator.constructor | addons/koji/common/src/main/java/org/commonjava/indy/koji/content/KojiContentConsolidator.java:75-92 | the run starts from the given registry, remote, contents and group files |
| KojiConsolidation.Consolidator.GetOrCreateConsolidationTarget | addons/koji/common/src/main/java/org/commonjava/indy/koji/content/KojiContentConsolidator.java:94-135 | the existing target is returned, or a new read-only hosted target is stored; a target not yet in the group is put first among its members, and only then is the group stored, when asked; a failed lookup returns null and changes nothing, a failed store of a new target returns it unstored with the group untouched, and a failed store of the group leaves the target inserted into it but the group unstored |
| KojiConsolidation.Consolidator.DownloadAndConsolidate | addons/koji/common/src/main/java/org/commonjava/indy/koji/content/KojiContentConsolidator.java:301-367 | contents change as `DownloadStep` states; the download comes back for resubmission exactly on a retry under three tries, and the remote is marked failed on the third failure |
| KojiConsolidation.Consolidator.Drain | addons/koji/common/src/main/java/org/commonjava/indy/koji/content/KojiContentConsolidator.java:198-214 | the contents, the remote and every download's try counter end as `DrainSpec` replays the drain from untried downloads and the starting state |
| KojiConsolidation.Consolidator.DrainStep | addons/koji/common/src/main/java/org/commonjava/indy/koji/content/KojiContentConsolidator.java:208-214 | one turn runs the head's task: contents, counter, queue and remote change as one `DrainSpec` turn, so the rest of the drain replays to the same outcome, and the outstanding work shrinks |
| KojiConsolidation.Consolidator.UpdateStoresFromConsolidation | addons/koji/common/src/main/java/org/commonjava/indy/koji/content/KojiContentConsolidator.java:254-299 | without the lock, or when the first store throws, nothing changes; otherwise a failed remote is stored with its marker, and for a successful one the group copy without the remote is stored and the remote deleted, so it leaves the registry and the group; when only the deletion throws, the remote stays registered but is no longer a member of the stored group; the interrupt flag is passed back |
| KojiConsolidation.DownloadFieldsSpec | addons/koji/common/src/main/java/org/commonjava/indy/koji/content/KojiContentConsolidator.java:177-196 | the paths and checksums of a download list are those of its downloads, in order |
| KojiConsolidation.FormattedFieldsSpec | addons/koji/common/src/main/java/org/commonjava/indy/koji/content/KojiContentConsolidator.java:180-196 | the formatted paths and checksums are those of the formatted archives, in order |
| KojiConsolidation.PlanStep | addons/koji/common/src/main/java/org/commonjava/indy/koji/content/KojiContentConsolidator.java:180-196 | one more archive extends the formatted paths, checksums, parent check and metadata set by its own |
| KojiConsolidation.PlanArchive | addons/koji/common/src/main/java/org/commonjava/indy/koji/content/KojiContentConsolidator.java:180-196 | an archive with a path gets one fresh download, and its directory's metadata file when the path has a parent; a path without parent stops the plan |
| KojiConsolidation.PlanDownloads | addons/koji/common/src/main/java/org/commonjava/indy/koji/content/KojiContentConsolidator.java:177-196 | a plan exists exactly when every formatted path has a parent; it holds one fresh, distinct, untried download per formatted archive in order, and the metadata set is that of the archives |
| KojiConsolidation.DownloadsSnoc | addons/koji/common/src/main/java/org/commonjava/indy/koji/content/KojiContentConsolidator.java:185 | appending a download extends paths and checksums by its own and keeps the list free of repeats |
| KojiConsolidation.StartConsolidation | addons/koji/common/src/main/java/org/commonjava/indy/koji/content/KojiContentConsolidator.java:166-252 | a plan that fails changes nothing; otherwise the plan is one distinct download per formatted archive, the remote and downloads end as `DrainSpec` says, the metadata files of the consolidated directories leave the target and the group exactly after a completed drain, the interrupt is re-raised exactly when the wait was interrupted, and the registry is updated from the remote as the drain left it (stored when marked, removed from the registry and the group otherwise, left registered when only its deletion throws, untouched without the lock or when the first store throws) |
| PromotionValidation.NeedTempRepo | addons/promote/common/src/main/java/org/commonjava/indy/promote/validate/PromotionValidator.java:149-163 | a group request needs no temporary repository; a paths request needs one exactly when its path set is non-null and non-empty; any other request is rejected |
| PromotionValidation.TempMasksExact | addons/promote/common/src/main/java/org/commonjava/indy/promote/validate/PromotionValidator.java:181 | each requested path gives exactly one mask, the path followed by ".*", and every mask comes from a requested path |
| PromotionValidation.TempRemote | addons/promote/common/src/main/java/org/commonjava/indy/promote/validate/PromotionValidator.java:175-188 | the temporary remote points at the base URL and masks exactly the requested paths |
| PromotionValidation.RuleFileName | addons/promote/common/src/main/java/org/commonjava/indy/promote/validate/PromotionValidator.java:91 | a rule's file name holds no path separator |
| PromotionValidation.Run | addons/promote/common/src/main/java/org/commonjava/indy/promote/validate/PromotionValidator.java:89-122 | unless the loop aborted, every error recorded beforehand is still recorded |
| PromotionValidation.Step | addons/promote/common/src/main/java/org/commonjava/indy/promote/validate/PromotionValidator.java:91-121 | unless the rule aborts, every error recorded beforehand is still recorded |
| PromotionValidation.RunAborts | addons/promote/common/src/main/java/org/commonjava/indy/promote/validate/PromotionValidator.java:110-120 | the loop aborts exactly when some rule reached throws, and then at the first such rule |
| PromotionValidation.RunErrorKeys | addons/promote/common/src/main/java/org/commonjava/indy/promote/validate/PromotionValidator.java:99-108 | a rule name is in the errors exactly when it was recorded before or a rule of that name reached its turn and returned a non-empty error |
| PromotionValidation.StepName | addons/promote/common/src/main/java/org/commonjava/indy/promote/validate/PromotionValidator.java:99-108 | one iteration aborts exactly on a throwing rule, records the message of a rule reporting under a name, and leaves the name alone otherwise |
| PromotionValidation.RunOneMore | addons/promote/common/src/main/java/org/commonjava/indy/promote/validate/PromotionValidator.java:99-108 | one more reference, when reached and reporting under a name, records its message; otherwise the name keeps what it had |
| PromotionValidation.RunErrorValue | addons/promote/common/src/main/java/org/commonjava/indy/promote/validate/PromotionValidator.java:99-108 | the message recorded under a name is that of the last rule of that name to report before any abort |
| PromotionValidation.RunErrorUnreported | addons/promote/common/src/main/java/org/commonjava/indy/promote/validate/PromotionValidator.java:99-108 | a name no reached rule reports is recorded exactly when it was before, with its earlier message |
| PromotionValidation.EmptyErrorRecordsNothing | addons/promote/common/src/main/java/org/commonjava/indy/promote/validate/PromotionValidator.java:99-108 | a rule returning an empty error leaves the recorded errors as they were |
| PromotionValidation.ValidationResult.constructor | addons/promote/common/src/main/java/org/commonjava/indy/promote/validate/PromotionValidator.java:71 | a new result has no rule set and no errors |
| PromotionValidation.ValidationResult.SetRuleSet | addons/promote/common/src/main/java/org/commonjava/indy/promote/validate/PromotionValidator.java:81 | the rule set is recorded and the errors are kept |
| PromotionValidation.ValidationResult.AddValidatorError | addons/promote/common/src/main/java/org/commonjava/indy/promote/validate/PromotionValidator.java:103 | the rule's error is recorded, replacing an earlier one of that rule; nothing else changes |
| PromotionValidation.Validate | addons/promote/common/src/main/java/org/commonjava/indy/promote/validate/PromotionValidator.java:71-147 | without a matching rule set nothing is recorded; otherwise its name is, an empty rule list records no errors, an unknown request kind fails, a registry failure while getting the request store fails before any rule runs and changes nothing else, the recorded errors and the abort are those the rule loop gives, and a temporary remote made for a paths request is removed again unless its deletion throws, which is swallowed |
| PromotionValidation.RunRules | addons/promote/common/src/main/java/org/commonjava/indy/promote/validate/PromotionValidator.java:89-122 | the rules run in reference order; the errors recorded and whether and by which rule the loop aborts are exactly those of `Run`; the recorded rule-set name is kept |
| PromotionValidation.RunStaysAborted | addons/promote/common/src/main/java/org/commonjava/indy/promote/validate/PromotionValidator.java:110-120 | once the rule loop has aborted, later rules change nothing |
| Relationships.AsProjectVersionRef | models/core-java/src/main/java/org/commonjava/indy/content/RelationshipSet.java:36 | the result is a plain project version with the same coordinates; a plain version is returned as is |
| Relationships.NewRelationshipSet | models/core-java/src/main/java/org/commonjava/indy/content/RelationshipSet.java:33-39 | the envelope keeps the plain project version of the project, the POM sources and the relationships |
| Relationships.GetSerialVersion | models/core-java/src/main/java/org/commonjava/indy/content/RelationshipSet.java:41-44 | the serial version is 1 |
| Relationships.Write | models/core-java/src/main/java/org/commonjava/indy/content/RelationshipSet.java:61-69 | four values are written, the first being the serial version |
| Relationships.Read | models/core-java/src/main/java/org/commonjava/indy/content/RelationshipSet.java:71-86 | a newer version is refused exactly when the first value is a version above the class's; a successful read consumes exactly four values |
| Relationships.RoundTrip | models/core-java/src/main/java/org/commonjava/indy/content/RelationshipSet.java:61-86 | reading what was written restores all three fields and leaves the rest of the stream unread |
| Relationships.OlderVersionAccepted | models/core-java/src/main/java/org/commonjava/indy/content/RelationshipSet.java:71-86 | a stream tagged with an older version is read exactly like the current one |
| Relationships.EmptySetRoundTrip | models/core-java/src/main/java/org/commonjava/indy/content/RelationshipSet.java:33-86 | an empty set built from any project reference survives the round trip with that project's plain version |
| RepoProxy.HeaderAt | addons/repo-proxy/common/src/main/java/org/commonjava/indy/repo/proxy/RepoProxyUtils.java:40 | a header found is a `/maven|npm/group|hosted/` header at that position, with something after it |
| RepoProxy.LastHeader | addons/repo-proxy/common/src/main/java/org/commonjava/indy/repo/proxy/RepoProxyUtils.java:40 | the rightmost header position at or below the bound, and nothing only when there is none |
| RepoProxy.UpToSlash | addons/repo-proxy/common/src/main/java/org/commonjava/indy/repo/proxy/RepoProxyUtils.java:40 | the longest prefix without '/' |
| RepoProxy.FirstSegment | addons/repo-proxy/common/src/main/java/org/commonjava/indy/repo/proxy/RepoProxyUtils.java:40 | the lazy name group: the tail's first character and everything up to the next '/' |
| RepoProxy.OriginKey | addons/repo-proxy/common/src/main/java/org/commonjava/indy/repo/proxy/RepoProxyUtils.java:64-80 | the key string starts with the header's package type and its first character is not whitespace |
| RepoProxy.GetOriginalStoreKeyFromPath | addons/repo-proxy/common/src/main/java/org/commonjava/indy/repo/proxy/RepoProxyUtils.java:64-80 | nothing exactly when the path holds a line terminator or has no header followed by text; otherwise the key string of the rightmost header |
| RepoProxy.KeyToPath | addons/repo-proxy/common/src/main/java/org/commonjava/indy/repo/proxy/RepoProxyUtils.java:82-85 | a blank key gives ""; any other key keeps its length and characters, with every ':' turned into '/' |
| RepoProxy.ReplaceAllEffect | addons/repo-proxy/common/src/main/java/org/commonjava/indy/repo/proxy/RepoProxyUtils.java:56 | a pattern that does not occur leaves the text unchanged; one that occurs puts the replacement into the text |
| RepoProxy.GetProxyTo | addons/repo-proxy/common/src/main/java/org/commonjava/indy/repo/proxy/RepoProxyUtils.java:44-62 | only a remote proxy target applies, and then exactly when the path names an original store, whose path form is replaced by the target's |
| RepoProxy.KeyToPathOfOrigin | addons/repo-proxy/common/src/main/java/org/commonjava/indy/repo/proxy/RepoProxyUtils.java:82-90 | a header's key string with a name without ':' turns back into the header's text followed by the name |
| RepoProxy.OriginKeyInPath | addons/repo-proxy/common/src/main/java/org/commonjava/indy/repo/proxy/RepoProxyUtils.java:64-85 | when the path holds no ':', the path form of the key found at a header occurs right at that header, so the replacement has something to replace |
| RepoProxy.KeyInPathAt | addons/repo-proxy/common/src/main/java/org/commonjava/indy/repo/proxy/RepoProxyUtils.java:64-85 | the same, for a given package type and store type |
| RepoProxy.ProxyToNamesTarget | addons/repo-proxy/common/src/main/java/org/commonjava/indy/repo/proxy/RepoProxyUtils.java:50-61 | when the path holds no ':', the rewritten path contains the path form of the proxy target |
| RepoProxy.ExtractPath | addons/repo-proxy/common/src/main/java/org/commonjava/indy/repo/proxy/RepoProxyUtils.java:92-115 | a blank path or one not holding the repository path gives ""; otherwise the result is a suffix of the path, possibly with a leading '/' |
| RepoProxy.ExtractAfterRepo | addons/repo-proxy/common/src/main/java/org/commonjava/indy/repo/proxy/RepoProxyUtils.java:92-115 | for a path under the repository, with or without its trailing '/', the result is the part after the repository path |
| RepoProxy.IsNpmMetaPath | addons/repo-proxy/common/src/main/java/org/commonjava/indy/repo/proxy/RepoProxyUtils.java:117-138 | a blank path is never npm metadata |
| RepoProxy.NpmMetaPathShape | addons/repo-proxy/common/src/main/java/org/commonjava/indy/repo/proxy/RepoProxyUtils.java:117-138 | a path is npm metadata exactly when, after one leading '/', it is a single segment, a scoped "@scope/name", or ends in "/package.json" |
| KojiContentListing.ListingType | subsys/prefetch/src/main/java/org/commonjava/indy/subsys/prefetch/KojiContentListBuilder.java:61-65 | the builder handles the "koji" listing type, not "html" |
| KojiContentListing.BuildContent | subsys/prefetch/src/main/java/org/commonjava/indy/subsys/prefetch/KojiContentListBuilder.java:44-59 | nothing for an html listing or a disabled prefetch; otherwise exactly one resource per path mask, each at the repository's location |
| KojiContentListing.ResourcesCardinality | subsys/prefetch/src/main/java/org/commonjava/indy/subsys/prefetch/KojiContentListBuilder.java:55-58 | resources at one location are as many as their paths |
| KojiContentListing.OneResourcePerMask | subsys/prefetch/src/main/java/org/commonjava/indy/subsys/prefetch/KojiContentListBuilder.java:55-58 | a koji-listed remote yields exactly as many resources as it has path masks |
| TransportMetrics.Entry | subsys/metrics/reporter/src/main/java/org/commonjava/indy/metrics/IndyTransportMetricConfigProvider.java:55-63 | a token gives nothing exactly when it is blank once trimmed; a trimmed token with ':' is kept, one without gets the maven remote prefix |
| TransportMetrics.EntryShape | subsys/metrics/reporter/src/main/java/org/commonjava/indy/metrics/IndyTransportMetricConfigProvider.java:55-61 | every entry names a type and is not blank |
| TransportMetrics.FilterMapAppend | subsys/metrics/reporter/src/main/java/org/commonjava/indy/metrics/IndyTransportMetricConfigProvider.java:52-64 | the entries of two token runs are the two runs' entries, in order |
| TransportMetrics.FilterMapFrom | subsys/metrics/reporter/src/main/java/org/commonjava/indy/metrics/IndyTransportMetricConfigProvider.java:52-64 | there are no more entries than tokens, and an entry is present exactly when some token yields it |
| TransportMetrics.EntriesSpec | subsys/metrics/reporter/src/main/java/org/commonjava/indy/metrics/IndyTransportMetricConfigProvider.java:48-64 | the entries are exactly those of the non-blank tokens, each naming a type |
| TransportMetrics.FilterMapSnoc | subsys/metrics/reporter/src/main/java/org/commonjava/indy/metrics/IndyTransportMetricConfigProvider.java:53-63 | one more token adds its entry, if it has one |
| TransportMetrics.ParseTokens | subsys/metrics/reporter/src/main/java/org/commonjava/indy/metrics/IndyTransportMetricConfigProvider.java:52-64 | the loop builds exactly the entries of the tokens |
| TransportMetrics.ParseMeasureRepos | subsys/metrics/reporter/src/main/java/org/commonjava/indy/metrics/IndyTransportMetricConfigProvider.java:48-65 | a null or blank setting gives no repositories; otherwise the entries of its comma-separated tokens |
| TransportMetrics.NormalizeName | subsys/metrics/reporter/src/main/java/org/commonjava/indy/metrics/IndyTransportMetricConfigProvider.java:106-109 | same length, every ':' becomes '.', every other character is kept |
| TransportMetrics.UniqueNameFirstMatch | subsys/metrics/reporter/src/main/java/org/commonjava/indy/metrics/IndyTransportMetricConfigProvider.java:80-100 | the name comes from the first entry that matches, and there is none exactly when no entry matches |
| TransportMetrics.UniqueNameNormalized | subsys/metrics/reporter/src/main/java/org/commonjava/indy/metrics/IndyTransportMetricConfigProvider.java:80-109 | a metric name never holds ':' |
| TransportMetrics.WildcardCoversPrefix | subsys/metrics/reporter/src/main/java/org/commonjava/indy/metrics/IndyTransportMetricConfigProvider.java:91-97 | a location under a wildcard entry is measured under the normalized prefix |
| TransportMetrics.GetMetricUniqueName | subsys/metrics/reporter/src/main/java/org/commonjava/indy/metrics/IndyTransportMetricConfigProvider.java:80-101 | the search returns the name of the first matching entry, as `UniqueNameFirstMatch` characterizes it |
| TransportMetrics.TransportMetricConfig.IsEnabled | subsys/metrics/reporter/src/main/java/org/commonjava/indy/metrics/IndyTransportMetricConfigProvider.java:68-72 | the produced configuration is always enabled |
| TransportMetrics.IndyTransportMetricConfigProvider.constructor | subsys/metrics/reporter/src/main/java/org/commonjava/indy/metrics/IndyTransportMetricConfigProvider.java:26 | no configuration before `init` |
| TransportMetrics.IndyTransportMetricConfigProvider.Init | subsys/metrics/reporter/src/main/java/org/commonjava/indy/metrics/IndyTransportMetricConfigProvider.java:42-104 | with transport measurement off nothing is produced; otherwise the configuration holds the parsed repository list and the node prefix |
| BootOptions.StripLeadingSlash | boot/api/src/main/java/org/commonjava/indy/boot/IndyBootOptions.java:182-185 | one leading '/' is removed, and a path without one is kept |
| BootOptions.StoredContextPath | boot/api/src/main/java/org/commonjava/indy/boot/IndyBootOptions.java:176-190 | null is stored as "", anything else without one leading '/' |
| BootOptions.StripTwiceIffDoubleSlash | boot/api/src/main/java/org/commonjava/indy/boot/IndyBootOptions.java:156-169 | stripping again changes nothing exactly when the path did not start with "//" |
| BootOptions.IndyBootOptions.constructor | boot/api/src/main/java/org/commonjava/indy/boot/IndyBootOptions.java:89-92 | all options start unset |
| BootOptions.IndyBootOptions.SetContextPath | boot/api/src/main/java/org/commonjava/indy/boot/IndyBootOptions.java:176-190 | the stored context path is the given one without a leading '/', "" for null; the other options are kept |
| BootOptions.IndyBootOptions.GetContextPath | boot/api/src/main/java/org/commonjava/indy/boot/IndyBootOptions.java:156-169 | never null: the stored path with one more leading '/' removed, which is also stored back; the other options are kept |
| BootOptions.IndyBootOptions.DoCopy | boot/api/src/main/java/org/commonjava/indy/boot/IndyBootOptions.java:127-133 | bind, port and context path are copied from the other options; the security options are kept |
| BootOptions.IndyBootOptions.SetBind | boot/api/src/main/java/org/commonjava/indy/boot/IndyBootOptions.java:145-149 | the bind address is set, nothing else changes, and the options themselves come back |
| BootOptions.ContextPathNotIdempotent | boot/api/src/main/java/org/commonjava/indy/boot/IndyBootOptions.java:156-190 | for any path set, each read of the context path strips one more leading '/', so two reads agree exactly when the stored path does not start with "//" |
| PyPIListing.ByteToChar | addons/pkg-pypi/common/src/main/java/org/commonjava/indy/pkg/pypi/content/PyPIListingTransferDecorator.java:112-132 | a non-negative byte keeps its value; a negative one is sign-extended into the range 0xFF80..0xFFFF |
| PyPIListing.IntToChar | addons/pkg-pypi/common/src/main/java/org/commonjava/indy/pkg/pypi/content/PyPIListingTransferDecorator.java:112-132 | the character is the value modulo 2^16 |
| PyPIListing.Chars | addons/pkg-pypi/common/src/main/java/org/commonjava/indy/pkg/pypi/content/PyPIListingTransferDecorator.java:112-132 | one character per byte, each converted as `(char)` does |
| PyPIListing.Decorates | addons/pkg-pypi/common/src/main/java/org/commonjava/indy/pkg/pypi/content/PyPIListingTransferDecorator.java:40-75 | the stream is wrapped exactly for a keyed remote PyPI location with a URL generator and a path without '.' that has no '/' once trailing '/' are dropped |
| PyPIListing.CdnMapSpec | addons/pkg-pypi/common/src/main/java/org/commonjava/indy/pkg/pypi/content/PyPIListingTransferDecorator.java:168-183 | a file name is recorded exactly when some anchor with that text has an href that is not root-relative, and it maps to the href of the last such anchor |
| PyPIListing.LocalHrefs | addons/pkg-pypi/common/src/main/java/org/commonjava/indy/pkg/pypi/content/PyPIListingTransferDecorator.java:173-182 | one local href per anchor, generated from the normalized base path and the anchor text |
| PyPIListing.ListingRedirects | addons/pkg-pypi/common/src/main/java/org/commonjava/indy/pkg/pypi/content/PyPIListingTransferDecorator.java:163-188 | once a listing is parsed, every file it links to a CDN is redirected to that href |
| PyPIListing.RangeAsWritten | addons/pkg-pypi/common/src/main/java/org/commonjava/indy/pkg/pypi/content/PyPIListingTransferDecorator.java:118-124 | what the range write appends as written: the bytes from the offset up to `len`, nothing when the offset is not below `len` |
| PyPIListing.RangeIntended | addons/pkg-pypi/common/src/main/java/org/commonjava/indy/pkg/pypi/content/PyPIListingTransferDecorator.java:118-124 | when no error is reported, exactly `len` characters are appended |
| PyPIListing.RangeBoundDiscrepancy | addons/pkg-pypi/common/src/main/java/org/commonjava/indy/pkg/pypi/content/PyPIListingTransferDecorator.java:118-124 | from offset 2, three bytes are asked for and the intended write appends [3, 4, 5], but as written only [3] |
| PyPIListing.RangeAgreesFromZero | addons/pkg-pypi/common/src/main/java/org/commonjava/indy/pkg/pypi/content/PyPIListingTransferDecorator.java:118-124 | from offset 0 the written and intended range writes agree on every in-range request |
| PyPIListing.ListingParserStream.constructor | addons/pkg-pypi/common/src/main/java/org/commonjava/indy/pkg/pypi/content/PyPIListingTransferDecorator.java:101-110 | the stream keeps its key, the base path without a trailing '/', the table and the helpers, and starts with nothing buffered or forwarded |
| PyPIListing.ListingParserStream.WriteInt | addons/pkg-pypi/common/src/main/java/org/commonjava/indy/pkg/pypi/content/PyPIListingTransferDecorator.java:112-116 | only the buffer grows, by the converted character |
| PyPIListing.ListingParserStream.WriteBytes | addons/pkg-pypi/common/src/main/java/org/commonjava/indy/pkg/pypi/content/PyPIListingTransferDecorator.java:126-132 | only the buffer grows, by the converted bytes |
| PyPIListing.ListingParserStream.WriteRange | addons/pkg-pypi/common/src/main/java/org/commonjava/indy/pkg/pypi/content/PyPIListingTransferDecorator.java:118-124 | the buffer grows as `RangeAsWritten` states, and an error is reported exactly when the loop reads past the array |
| PyPIListing.ListingParserStream.WriteRangeCorrected | addons/pkg-pypi/common/src/main/java/org/commonjava/indy/pkg/pypi/content/PyPIListingTransferDecorator.java:118-124 | the buffer grows as `RangeIntended` states, and an error is reported exactly for an out-of-range request |
| PyPIListing.ListingParserStream.ParseAndReplace | addons/pkg-pypi/common/src/main/java/org/commonjava/indy/pkg/pypi/content/PyPIListingTransferDecorator.java:163-195 | the page has its anchors pointed at the local URLs, and the table gains the listing's CDN map |
| PyPIListing.ListingParserStream.Flush | addons/pkg-pypi/common/src/main/java/org/commonjava/indy/pkg/pypi/content/PyPIListingTransferDecorator.java:134-153 | nothing happens before `close` asked for the last flush; then the rewritten page is forwarded once, the buffer cleared and the table updated |
| PyPIListing.ListingParserStream.Close | addons/pkg-pypi/common/src/main/java/org/commonjava/indy/pkg/pypi/content/PyPIListingTransferDecorator.java:155-161 | exactly one rewritten page is forwarded and the buffer is cleared; later flushes forward nothing |
| PyPIListing.DecorateWrite | addons/pkg-pypi/common/src/main/java/org/commonjava/indy/pkg/pypi/content/PyPIListingTransferDecorator.java:40-78 | a listing stream is built exactly when the transfer is decorated, for its key and cleaned path, with the thread context's URL generator and the given normalise and HTML steps, nothing buffered and nothing forwarded; otherwise the original stream is used |

## Left out

- I/O, logging, metrics registries, thread pools, locks and thread contexts are not modelled.
  The Koji drain runs its tasks one after another from a worklist. The group lock becomes a
  `lockAcquired` flag, and interruption becomes the flag that is raised again.
- `KojiConsolidation.Consolidator.Drain`: what each attempt meets (existence check, retrieve,
  store, deletion of a wrong copy) is a parameter `env` indexed by path and try count. The drain
  is specified against `env` through `DrainSpec`, not against a particular content layer.
- `KojiConsolidation.StartConsolidation`: the drain is always run to its end. When the wait
  for it is interrupted or fails, only what follows the drain (metadata deletion, the
  interrupt) is modelled; tasks that would still be running are not cut short.
- `KojiConsolidation.Consolidator.GetOrCreateConsolidationTarget`, `KojiConsolidation.Consolidator.UpdateStoresFromConsolidation`,
  `KojiConsolidation.StartConsolidation` and `PromotionValidation.Validate`: which registry call
  throws `IndyDataException` is a parameter, and a call that throws is taken to change nothing;
  a write the registry makes in part before throwing is not modelled. Elsewhere in this model the
  registry is taken never to throw.
- Koji metadata deletion on the target and the group is reflected only by removing the paths
  from the modelled file sets.
- `StoreKeys.CompareKeys`: the `StoreType` enum is not part of this model. Its declaration
  order is taken as group, remote, hosted.
- `StoreKeys.CompareStrings` and `StoreKeys.StringHash`: strings are sequences of Unicode code
  points, not of UTF-16 code units. For characters outside the Basic Multilingual Plane, Java's
  `compareTo` and `hashCode` can differ (U+FFFF against U+10000 compares the other way round).
- `StoreKeys.TypeFromName`: `StoreType.get` is modelled as an exact name match, without
  aliases.
- The supported package types are a parameter set.
- The hash of an enum constant is a parameter.
- Galley's `normalize`, the URL generator, the Jsoup parse and render steps, and the merge
  helper's side files are function parameters.
- `Common.ParentOf` and `Common.FileName`: `Paths.get(..).getParent()` and `getFileName()` are
  modelled as a split at the last '/'. Repeated '/' are not normalised, and neither is a trailing
  '/': `ParentOf("a/b/")` is "a/b" where Java gives "a", `ParentOf("a/")` is "a" where Java
  gives null, and `FileName("a/b/")` is "" where Java gives "b".
- `GroupRepositoryFilter.StrategyPath`: for a path with a trailing '/' the parent follows
  `Common.ParentOf`, so "org/foo/" gives "org/foo" where Java gives "org".
- `CdnRedirection.LookupIn`: for a path with a trailing '/' the directory and file name follow
  `Common.ParentOf` and `Common.FileName`, not Java's.
- `KojiConsolidation.MetadataPaths`: an archive path with a trailing '/' gets its metadata
  directory from `Common.ParentOf`, not from Java's `getParent`.
- `ArchetypeCatalog.ArchetypeCatalogHandler.Store`: the delegation to each member store's
  `fileManager.store` is not modelled; only the deletion of the group's generated catalog is,
  and a success is `Ok(())` in place of the stored transfer.
- `StoreRegistry.RemoveConstituent`: every occurrence of the key is removed. `Group.java` is not
  part of this model; a `List.remove` there would drop only the first occurrence of a key listed
  twice. For a key listed once the two agree (`StoreRegistry.RemoveSingleOccurrence`).
- `RepoProxy.GetProxyTo`: the `replaceAll` pattern is treated literally. A key string holding
  regex metacharacters is not covered.
- `RepoProxy.GetOriginalStoreKeyFromPath`: the regular expression is hand-coded as a search
  for the rightmost header.
- `getRequestAbsolutePath` and the request tracing of the repository proxy are left out,
  because they read the servlet request.
- `PyPIListing.ListingParserStream`:
  - the wrapped output stream is represented by the log of forwarded pages;
  - `String.getBytes` encoding, exceptions during flush, and the idempotent-close superclass
    are not modelled.
- `CdnRedirection.OnMetadataFileDelete`: the reference comparison `!=` on strings is modelled
  as string inequality.
- `PromotionValidation.Validate`:
  - the temporary repository's date stamp is a parameter;
  - each rule's behaviour on the request is given by a mapping;
  - rule scripts are not executed.
- `StoreDataManager`'s `query`, `streamArtifactStores`, `reload` and `isStarted` are left out.
  They expose no state beyond the keyed map.
- `CacheOnlyLocations.CacheOnlyLocation.GetAttribute`: the type cast of the stored value is
  left out, so attributes hold one value type.
- `toString` of the cache-only location is left out.
- `KojiContentListing.BuildContent`: the list is returned as a set. The source collects a
  stream over a set, so its order is unspecified.
- The resource location is represented by the store key.
- `TransportMetrics.IndyTransportMetricConfigProvider.Init`:
  - the remote type's singular endpoint name is taken as "remote";
  - a location is given by its name;
  - the node prefix is a parameter read at initialisation.
- `BootOptions.IndyBootOptions`: the following are out of scope:
  - the command-line parser, the interpolating constructors, and `setPort`, `getBind` and
    `getPort`;
  - the type check in `doCopy`.

  The security options are kept only to show that `doCopy` leaves them.

## Findings

| source | as written | input that shows it | evidently intended | confidence | as-written member | corrected member |
|---|---|---|---|---|---|---|
| addons/pkg-pypi/common/src/main/java/org/commonjava/indy/pkg/pypi/content/PyPIListingTransferDecorator.java:118-124 | `write(byte[], off, len)` loops while the index is below `len` | b = [1,2,3,4,5], off = 2, len = 3 appends [3] instead of [3,4,5] | append the `len` bytes from `off`, as the `OutputStream` contract says (loop bound `off + len`) | not executed | PyPIListing.ListingParserStream.WriteRange, PyPIListing.RangeBoundDiscrepancy | PyPIListing.ListingParserStream.WriteRangeCorrected |
