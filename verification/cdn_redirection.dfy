/** The PyPI CDN redirection layer: a table from (store key, directory) to the file-name ->
    CDN href map recorded for that directory listing, the versioned key it is filed under,
    and the listener that drops a directory's entry when its cached listing is deleted. */
module CdnRedirection {
  import opened Common
  import opened StoreKeys

  // ---------------------------------------------------------------------------
  // CDNContentKey

  datatype CdnContentKey = CdnContentKey(key: StoreKey, path: string)

  /** `equals`: both the store key and the path are equal. */
  function ContentKeyEquals(a: CdnContentKey, b: CdnContentKey): (r: bool)
    ensures r <==> a == b
  {
    Equals(a.key, b.key) && a.path == b.path
  }

  /** `Objects.hash(key, path)`: `31 * (31 + hash(key)) + hash(path)` in 32-bit arithmetic. */
  function ContentKeyHash(c: CdnContentKey, typeHash: StoreType -> int): (r: int)
    ensures -0x8000_0000 <= r < 0x8000_0000
  {
    Int32(31 * Int32(31 + HashCode(c.key, typeHash)) + StringHash(c.path))
  }

  /** Equal content keys hash alike. */
  lemma ContentKeyHashConsistent(a: CdnContentKey, b: CdnContentKey, typeHash: StoreType -> int)
    requires ContentKeyEquals(a, b)
    ensures ContentKeyHash(a, typeHash) == ContentKeyHash(b, typeHash)
  {
    HashCodeConsistent(a.key, b.key, typeHash);
  }

  /** The serialized form, as the sequence of values written to the object stream. */
  datatype KeyToken = IntToken(i: int) | KeyObject(k: StoreKey) | StringObject(s: string)

  const ContentKeyVersion: int := 1

  datatype ReadError = NewerVersion(version: int) | Malformed

  /** `writeExternal`: the version, then the store key, then the path. */
  function WriteContentKey(c: CdnContentKey): (r: seq<KeyToken>)
    ensures |r| == 3 && r[0] == IntToken(ContentKeyVersion)
  {
    [IntToken(ContentKeyVersion), KeyObject(c.key), StringObject(c.path)]
  }

  /** `readExternal`: a version above the class's is refused before anything else is read; any
      other version is followed by the key and the path. The unread rest comes back too. */
  function ReadContentKey(ts: seq<KeyToken>): (r: Result<(CdnContentKey, seq<KeyToken>), ReadError>)
    ensures r.Err? && r.error.NewerVersion? <==> |ts| > 0 && ts[0].IntToken? && ts[0].i > ContentKeyVersion
    ensures r.Ok? ==> |r.value.1| == |ts| - 3 && r.value.1 == ts[3..]
  {
    if |ts| == 0 || !ts[0].IntToken? then Err(Malformed)
    else if ts[0].i > ContentKeyVersion then Err(NewerVersion(ts[0].i))
    else if |ts| < 3 || !ts[1].KeyObject? || !ts[2].StringObject? then Err(Malformed)
    else Ok((CdnContentKey(ts[1].k, ts[2].s), ts[3..]))
  }

  /** Reading what was written gives back an equal key, and leaves what follows unread. */
  lemma ContentKeyRoundTrip(c: CdnContentKey, rest: seq<KeyToken>)
    ensures ReadContentKey(WriteContentKey(c) + rest) == Ok((c, rest))
  {
    assert (WriteContentKey(c) + rest)[3..] == rest;
  }

  /** Every version up to the class's own is read the same way. */
  lemma ContentKeyOlderVersionAccepted(c: CdnContentKey, v: int, rest: seq<KeyToken>)
    requires v <= ContentKeyVersion
    ensures ReadContentKey([IntToken(v)] + WriteContentKey(c)[1..] + rest) == Ok((c, rest))
  {
    assert ([IntToken(v)] + WriteContentKey(c)[1..] + rest)[3..] == rest;
  }

  // ---------------------------------------------------------------------------
  // The redirection table

  type Redirections = map<CdnContentKey, map<string, string>>

  /** `cleanPath`: one trailing '/' removed. */
  function CleanPath(raw: string): (r: string)
    ensures EndsWith(raw, "/") ==> |r| == |raw| - 1 && raw == r + "/"
    ensures !EndsWith(raw, "/") ==> r == raw
  {
    if EndsWith(raw, "/") then raw[..|raw| - 1] else raw
  }

  /** `lookupMap`. */
  function LookupMapIn(red: Redirections, k: StoreKey, path: string): (r: Option<map<string, string>>)
    ensures r.Some? <==> CdnContentKey(k, CleanPath(path)) in red
    ensures r.Some? ==> r.value == red[CdnContentKey(k, CleanPath(path))]
  {
    var ck := CdnContentKey(k, CleanPath(path));
    if ck in red then Some(red[ck]) else None
  }

  /** `lookup`: the href recorded for the file name under the cleaned path's parent; nothing
      when the path has no parent, no map is recorded for it, or the map lacks the name. */
  function LookupIn(red: Redirections, k: StoreKey, raw: string): (r: Option<string>)
    ensures ParentOf(CleanPath(raw)).None? ==> r.None?
    ensures r.Some? ==>
      var parent := ParentOf(CleanPath(raw)).value;
      CdnContentKey(k, parent) in red && FileName(CleanPath(raw)) in red[CdnContentKey(k, parent)] &&
      r.value == red[CdnContentKey(k, parent)][FileName(CleanPath(raw))]
  {
    var path := CleanPath(raw);
    match ParentOf(path)
    case None => None
    case Some(basepath) =>
      var fname := FileName(path);
      var ck := CdnContentKey(k, basepath);
      if ck in red && fname in red[ck] then Some(red[ck][fname]) else None
  }

  /** `register` followed by `lookup` of a file in the registered directory gives the file's
      recorded href, and nothing for a file the map does not name. */
  lemma LookupAfterRegister(red: Redirections, k: StoreKey, dir: string, m: map<string, string>, f: string)
    requires dir != [] && !EndsWith(dir, "/")
    requires f != [] && '/' !in f
    ensures LookupIn(red[CdnContentKey(k, CleanPath(dir)) := m], k, dir + "/" + f) ==
      if f in m then Some(m[f]) else None
  {
    var p := dir + "/" + f;
    assert !EndsWith(p, "/") by { assert p[|p| - 1] == f[|f| - 1]; }
    assert dir != "/";
    SplitAtSlash(dir, f);
  }

  /** `clear` does not clean its path: clearing "d/" leaves the registration made for "d" (or
      for "d/", which was filed as "d"). */
  lemma ClearDoesNotClean(red: Redirections, k: StoreKey, dir: string, m: map<string, string>)
    ensures var after := red[CdnContentKey(k, CleanPath(dir)) := m] - {CdnContentKey(k, dir + "/")};
      LookupMapIn(after, k, dir) == Some(m)
  {
    assert |CleanPath(dir)| < |dir + "/"|;
  }

  /** Registering under one store key leaves every other key's maps as they were. */
  lemma RegisterIsolated(red: Redirections, k: StoreKey, dir: string, m: map<string, string>,
                         k2: StoreKey, path2: string)
    requires k2 != k
    ensures LookupMapIn(red[CdnContentKey(k, CleanPath(dir)) := m], k2, path2) == LookupMapIn(red, k2, path2)
    ensures LookupIn(red[CdnContentKey(k, CleanPath(dir)) := m], k2, path2) == LookupIn(red, k2, path2)
  {
  }

  /** The in-memory table behind the cache handle. */
  class CdnRedirectionDatabase {
    var redirections: Redirections

    constructor ()
      ensures redirections == map[]
    {
      redirections := map[];
    }

    function LookupMap(k: StoreKey, path: string): (r: Option<map<string, string>>)
      reads this
      ensures r == LookupMapIn(redirections, k, path)
    {
      LookupMapIn(redirections, k, path)
    }

    function Lookup(k: StoreKey, raw: string): (r: Option<string>)
      reads this
      ensures r == LookupIn(redirections, k, raw)
    {
      LookupIn(redirections, k, raw)
    }

    /** `register`: the map is filed under the cleaned path, replacing any earlier one. */
    method Register(k: StoreKey, path: string, hrefs: map<string, string>)
      modifies this
      ensures redirections == old(redirections)[CdnContentKey(k, CleanPath(path)) := hrefs]
      ensures LookupMap(k, path) == Some(hrefs)
    {
      redirections := redirections[CdnContentKey(k, CleanPath(path)) := hrefs];
    }

    /** `clear`: the entry for the path as given is removed. */
    method Clear(k: StoreKey, path: string)
      modifies this
      ensures redirections == old(redirections) - {CdnContentKey(k, path)}
    {
      redirections := redirections - {CdnContentKey(k, path)};
    }
  }

  // ---------------------------------------------------------------------------
  // The delete listener

  /** What the listener learns from a file deletion event: whether the metadata holds
      `CHECK_CACHE_ONLY = TRUE`, the store key when the location is keyed, and the path. */
  datatype DeletionEvent = DeletionEvent(checkCacheOnly: bool, location: Option<StoreKey>, path: string)

  /** The entry `onMetadataFileDelete` clears, if any: only for a cache-only check on a keyed
      PyPI location whose path ends in ".html", and then the path unmodified. */
  function ClearedEntry(e: DeletionEvent): (r: Option<CdnContentKey>)
    ensures !e.checkCacheOnly || e.location.None? ==> r.None?
    ensures e.location.Some? && e.location.value.packageType != PyPIPkg ==> r.None?
    ensures !EndsWith(e.path, ".html") ==> r.None?
    ensures r.Some? ==> r.value == CdnContentKey(e.location.value, e.path)
    ensures e.checkCacheOnly && e.location.Some? && e.location.value.packageType == PyPIPkg && EndsWith(e.path, ".html") ==>
      r == Some(CdnContentKey(e.location.value, e.path))
  {
    if !e.checkCacheOnly then None
    else if e.location.None? then None
    else if e.location.value.packageType != PyPIPkg then None
    else if !EndsWith(e.path, ".html") then None
    else Some(CdnContentKey(e.location.value, e.path))
  }

  /** `onMetadataFileDelete`. */
  method OnMetadataFileDelete(e: DeletionEvent, db: CdnRedirectionDatabase)
    modifies db
    ensures db.redirections == if ClearedEntry(e).Some? then old(db.redirections) - {ClearedEntry(e).value}
                               else old(db.redirections)
  {
    if !e.checkCacheOnly {
      return;
    }
    if e.location.None? {
      return;
    }
    var storeKey := e.location.value;
    if storeKey.packageType != PyPIPkg {
      return;
    }
    if !EndsWith(e.path, ".html") {
      return;
    }
    db.Clear(storeKey, e.path);
  }

  /** A deleted listing only drops its own directory's entry: every other entry, and every
      other store's, stays. */
  lemma ListenerOnlyClearsItsEntry(red: Redirections, e: DeletionEvent, ck: CdnContentKey)
    requires ck in red && (ClearedEntry(e).None? || ck != ClearedEntry(e).value)
    ensures var after := if ClearedEntry(e).Some? then red - {ClearedEntry(e).value} else red;
      ck in after && after[ck] == red[ck]
  {
  }
}
