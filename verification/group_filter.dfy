/** The path-mapped group repository filter: out of a group's concrete stores it keeps every
    remote one and the hosted ones whose storage holds the requested path's directory, asking
    a containment index in batches and keeping a whole batch when its query fails. */
module GroupRepositoryFilter {
  import opened Common
  import opened StoreKeys
  import opened StoreRegistry

  /** The part of a local snapshot version that marks a snapshot path. */
  const LocalSnapshotVersionPart: string := "SNAPSHOT"

  /** What the injected cache provider is; only a path-mapped one yields a file manager. */
  datatype CacheProvider = PathMappedCacheProvider | OtherCacheProvider

  /** `canProcess` after `setup`: the filter has a path-mapped file manager. */
  function CanProcess(provider: CacheProvider): (r: bool)
    ensures r <==> provider == PathMappedCacheProvider
  {
    provider.PathMappedCacheProvider?
  }

  /** `getCandidates`: the key strings of the hosted stores, in order. */
  function Candidates(stores: seq<ArtifactStore>): (r: seq<string>)
    ensures |r| <= |stores|
    ensures forall c :: c in r <==> exists s :: s in stores && s.key.storeType == Hosted && c == ToString(s.key)
  {
    if stores == [] then []
    else
      var rest := Candidates(stores[1..]);
      assert forall s :: s in stores <==> s == stores[0] || s in stores[1..];
      if stores[0].key.storeType == Hosted then [ToString(stores[0].key)] + rest else rest
  }

  /** `isMavenMetadataNonSnapshotPath`; `isMetadata` is what the special-path manager says. */
  predicate IsMavenMetadataNonSnapshotPath(groupKey: StoreKey, path: string, isMetadata: string -> bool) {
    groupKey.packageType == MavenPkg && isMetadata(path) && !Contains(path, LocalSnapshotVersionPart)
  }

  /** `getStrategyPath`: null for a blank path; the parent directory for Maven and npm keys when
      there is one; the path itself otherwise. */
  function StrategyPath(key: StoreKey, rawPath: string): (r: Option<string>)
    ensures r.None? <==> IsBlank(rawPath)
    ensures r.Some? && (key.packageType == MavenPkg || key.packageType == NpmPkg) && '/' in rawPath ==>
      r == ParentOf(rawPath)
    ensures r.Some? && !(key.packageType == MavenPkg || key.packageType == NpmPkg) ==> r.value == rawPath
    ensures r.Some? && '/' !in rawPath ==> r.value == rawPath
  {
    if IsBlank(rawPath) then None
    else
      var parent := if key.packageType == MavenPkg || key.packageType == NpmPkg then ParentOf(rawPath) else None;
      if parent.None? then Some(rawPath) else parent
  }

  // ---------------------------------------------------------------------------
  // Batches

  datatype FilterError = IllegalBatchSize

  function Flatten(batches: seq<seq<string>>): seq<string> {
    if batches == [] then [] else batches[0] + Flatten(batches[1..])
  }

  /** `Lists.partition`: consecutive batches of `size` elements, the last possibly shorter; a
      size below 1 is refused. */
  function Partition(xs: seq<string>, size: int): (r: Result<seq<seq<string>>, FilterError>)
    ensures r.Err? <==> size <= 0
  {
    if size <= 0 then Err(IllegalBatchSize) else Ok(Batches(xs, size))
  }

  function Batches(xs: seq<string>, size: nat): seq<seq<string>>
    requires size > 0
    decreases |xs|
  {
    if xs == [] then []
    else if |xs| <= size then [xs]
    else [xs[..size]] + Batches(xs[size..], size)
  }

  /** Every batch holds between one and `size` candidates, and the batches, in order, are the
      candidate list, so each candidate is asked about in exactly one query. */
  lemma {:induction false} BatchesPartition(xs: seq<string>, size: nat)
    requires size > 0
    ensures Flatten(Batches(xs, size)) == xs
    ensures forall i :: 0 <= i < |Batches(xs, size)| ==> 1 <= |Batches(xs, size)[i]| <= size
  {
    if xs != [] && |xs| > size {
      BatchesPartition(xs[size..], size);
      var bs := Batches(xs, size);
      assert bs[1..] == Batches(xs[size..], size);
      assert xs == xs[..size] + xs[size..];
    }
  }

  /** The containment query: the key strings, among a batch, whose storage holds the
      directory, or null when the query fails. */
  type ContainmentQuery = (seq<string>, string) -> Option<set<string>>

  /** What a batch contributes: the query's answer, or the whole batch when it fails. */
  function Contribution(batch: seq<string>, dir: string, query: ContainmentQuery): set<string> {
    match query(batch, dir)
    case None => set c | c in batch
    case Some(found) => found
  }

  /** The keys retained by the batches `batches[..n]`. */
  function Retained(batches: seq<seq<string>>, n: nat, dir: string, query: ContainmentQuery): (r: set<string>)
    requires n <= |batches|
    ensures forall c :: c in r <==> exists i :: 0 <= i < n && c in Contribution(batches[i], dir, query)
  {
    if n == 0 then {} else Retained(batches, n - 1, dir, query) + Contribution(batches[n - 1], dir, query)
  }

  /** The `subSets.forEach` loop that fills `ret`. */
  method CollectContaining(batches: seq<seq<string>>, dir: string, query: ContainmentQuery)
    returns (ret: set<string>)
    ensures ret == Retained(batches, |batches|, dir, query)
  {
    ret := {};
    var i := 0;
    while i < |batches|
      invariant 0 <= i <= |batches|
      invariant ret == Retained(batches, i, dir, query)
    {
      var st := query(batches[i], dir);
      if st.None? {
        ret := ret + set c | c in batches[i];
      } else {
        ret := ret + st.value;
      }
      i := i + 1;
    }
  }

  // ---------------------------------------------------------------------------
  // The filter

  /** The final stream filter: remote stores, and stores whose key string was retained. */
  function Keep(stores: seq<ArtifactStore>, ret: set<string>): (r: seq<ArtifactStore>)
    ensures |r| <= |stores|
    ensures forall s :: s in r <==> s in stores && (s.key.storeType == Remote || ToString(s.key) in ret)
  {
    if stores == [] then []
    else
      var rest := Keep(stores[1..], ret);
      assert forall s :: s in stores <==> s == stores[0] || s in stores[1..];
      if stores[0].key.storeType == Remote || ToString(stores[0].key) in ret then [stores[0]] + rest else rest
  }

  /** `a` is `b` with some elements left out, order kept. */
  predicate Subsequence<T(==)>(a: seq<T>, b: seq<T>)
    decreases |b|
  {
    if a == [] then true
    else if b == [] then false
    else (a[0] == b[0] && Subsequence(a[1..], b[1..])) || Subsequence(a, b[1..])
  }

  /** The filter keeps the order of the stores it is given. */
  lemma {:induction false} KeepIsSubsequence(stores: seq<ArtifactStore>, ret: set<string>)
    ensures Subsequence(Keep(stores, ret), stores)
  {
    if stores != [] {
      KeepIsSubsequence(stores[1..], ret);
      var r := Keep(stores, ret);
      if r != [] && r == [stores[0]] + Keep(stores[1..], ret) {
        assert r[1..] == Keep(stores[1..], ret);
      }
    }
  }

  /** `filter`. The stores come back unchanged when there is no hosted candidate, when a
      non-snapshot Maven metadata path is answered by the started GA cache, or when the path
      is blank; a batch size below 1 makes the partition throw; otherwise the remote stores
      and the retained hosted ones are kept, in order. */
  method Filter(path: string, groupKey: StoreKey, stores: seq<ArtifactStore>, gaCacheStarted: bool,
                isMetadata: string -> bool, batchSize: int, query: ContainmentQuery)
    returns (r: Result<seq<ArtifactStore>, FilterError>)
    ensures Candidates(stores) == [] ==> r == Ok(stores)
    ensures gaCacheStarted && IsMavenMetadataNonSnapshotPath(groupKey, path, isMetadata) ==> r == Ok(stores)
    ensures IsBlank(path) ==> r == Ok(stores)
    ensures r.Err? <==>
      Candidates(stores) != [] && !(gaCacheStarted && IsMavenMetadataNonSnapshotPath(groupKey, path, isMetadata)) &&
      !IsBlank(path) && batchSize <= 0
    ensures (Candidates(stores) != [] && !(gaCacheStarted && IsMavenMetadataNonSnapshotPath(groupKey, path, isMetadata)) &&
             !IsBlank(path) && batchSize > 0) ==>
      var batches := Batches(Candidates(stores), batchSize);
      r == Ok(Keep(stores, Retained(batches, |batches|, StrategyPath(groupKey, path).value, query)))
  {
    var candidates := Candidates(stores);
    if candidates == [] {
      return Ok(stores);
    }
    if gaCacheStarted && IsMavenMetadataNonSnapshotPath(groupKey, path, isMetadata) {
      return Ok(stores);
    }
    var strategyPath := StrategyPath(groupKey, path);
    if strategyPath.None? {
      return Ok(stores);
    }
    var subSets := Partition(candidates, batchSize);
    if subSets.Err? {
      return Err(subSets.error);
    }
    var ret := CollectContaining(subSets.value, strategyPath.value, query);
    r := Ok(Keep(stores, ret));
  }

  /** A hosted store survives the filter exactly when its key string is reported by the query
      of a batch that holds it, or a batch holding it had its query fail. */
  lemma HostedKept(stores: seq<ArtifactStore>, batches: seq<seq<string>>, dir: string,
                   query: ContainmentQuery, h: ArtifactStore)
    requires h in stores && h.key.storeType == Hosted
    ensures h in Keep(stores, Retained(batches, |batches|, dir, query)) <==>
      exists i :: 0 <= i < |batches| &&
        ((query(batches[i], dir).None? && ToString(h.key) in batches[i]) ||
         (query(batches[i], dir).Some? && ToString(h.key) in query(batches[i], dir).value))
  {
    var c := ToString(h.key);
    if exists i :: 0 <= i < |batches| && c in Contribution(batches[i], dir, query) {
      var i :| 0 <= i < |batches| && c in Contribution(batches[i], dir, query);
      assert (query(batches[i], dir).None? && c in batches[i]) ||
             (query(batches[i], dir).Some? && c in query(batches[i], dir).value);
    }
  }
}
