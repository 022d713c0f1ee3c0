/** The koji content-list builder for prefetch: a koji proxy remote lists its downloadable
    paths as path masks, so every mask becomes one resource to fetch from the repository. */
module KojiContentListing {
  import opened StoreKeys
  import opened StoreRegistry

  const ListingTypeHtml: string := "html"
  const ListingTypeKoji: string := "koji"

  /** A resource to prefetch: the location of the repository it lives in, and its path. */
  datatype StoreResource = StoreResource(location: StoreKey, path: string)

  /** The listing type this builder handles. */
  function ListingType(): (r: string)
    ensures r == ListingTypeKoji && r != ListingTypeHtml
  {
    ListingTypeKoji
  }

  /** Whether the remote takes part in koji listing: not an html listing, prefetch enabled. */
  predicate KojiListed(repo: ArtifactStore)
    requires repo.RemoteRepository?
  {
    repo.prefetchListingType != ListingTypeHtml && repo.prefetchPriority > 0
  }

  /** `buildContent`: nothing for an html listing or a disabled prefetch; otherwise the path
      masks, each at the repository's location. */
  function BuildContent(repo: ArtifactStore): (r: set<StoreResource>)
    requires repo.RemoteRepository?
    ensures repo.prefetchListingType == ListingTypeHtml ==> r == {}
    ensures repo.prefetchPriority <= 0 ==> r == {}
    ensures forall res :: res in r ==> res.location == repo.key && res.path in repo.pathMaskPatterns
    ensures KojiListed(repo) ==> forall p :: p in repo.pathMaskPatterns ==> StoreResource(repo.key, p) in r
  {
    if !KojiListed(repo) then {}
    else set p | p in repo.pathMaskPatterns :: StoreResource(repo.key, p)
  }

  /** Resources at one location, one per path. */
  lemma {:induction false} ResourcesCardinality(k: StoreKey, paths: set<string>)
    ensures |set p | p in paths :: StoreResource(k, p)| == |paths|
  {
    if paths != {} {
      var x :| x in paths;
      var rest := paths - {x};
      ResourcesCardinality(k, rest);
      var whole := set p | p in paths :: StoreResource(k, p);
      var part := set p | p in rest :: StoreResource(k, p);
      assert whole == part + {StoreResource(k, x)};
      assert StoreResource(k, x) !in part;
    }
  }

  /** A koji-listed remote yields exactly one resource per path mask. */
  lemma OneResourcePerMask(repo: ArtifactStore)
    requires repo.RemoteRepository? && KojiListed(repo)
    ensures |BuildContent(repo)| == |repo.pathMaskPatterns|
  {
    ResourcesCardinality(repo.key, repo.pathMaskPatterns);
  }
}
