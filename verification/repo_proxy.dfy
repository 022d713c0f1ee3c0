/** Path helpers of the repository proxy: finding the original store key in a request path,
    rewriting a path to the store it is proxied to, turning keys into path fragments,
    extracting the content path after a repository path, and recognising npm metadata paths. */
module RepoProxy {
  import opened Common
  import opened StoreKeys

  // ---------------------------------------------------------------------------
  // The store-path pattern `.*/(maven|npm)/(group|hosted)/(.+?)(/.*)?`

  /** The characters `.` does not match: the Java line terminators. */
  predicate LineTerminator(c: char) {
    c == '\n' || c == '\r' || c == '\U{0085}' || c == '\U{2028}' || c == '\U{2029}'
  }

  predicate HasLineTerminator(s: string) {
    exists i :: 0 <= i < |s| && LineTerminator(s[i])
  }

  function Header(pkg: string, typ: string): string {
    "/" + HeaderBody(pkg, typ)
  }

  function HeaderBody(pkg: string, typ: string): string {
    pkg + "/" + typ + "/"
  }

  /** The key string "pkg:type:name". */
  function KeyString(pkg: string, typ: string, name: string): string {
    pkg + ":" + typ + ":" + name
  }

  /** The package and store type whose `/pkg/type/` header starts at `i` and is followed by at
      least one character, if any. */
  function HeaderAt(s: string, i: nat): (r: Option<(string, string)>)
    ensures r.Some? ==> (r.value.0 == "maven" || r.value.0 == "npm") && (r.value.1 == "group" || r.value.1 == "hosted")
    ensures r.Some? ==> OccursAt(s, Header(r.value.0, r.value.1), i) && i + |Header(r.value.0, r.value.1)| < |s|
  {
    if OccursAt(s, Header("maven", "group"), i) && i + 13 < |s| then Some(("maven", "group"))
    else if OccursAt(s, Header("maven", "hosted"), i) && i + 14 < |s| then Some(("maven", "hosted"))
    else if OccursAt(s, Header("npm", "group"), i) && i + 11 < |s| then Some(("npm", "group"))
    else if OccursAt(s, Header("npm", "hosted"), i) && i + 12 < |s| then Some(("npm", "hosted"))
    else None
  }

  /** The rightmost header position at or below `i` (the greedy `.*`). */
  function LastHeader(s: string, i: nat): (r: Option<nat>)
    ensures r.Some? ==> r.value <= i && HeaderAt(s, r.value).Some?
    ensures forall j :: (if r.Some? then r.value < j else 0 <= j) && j <= i ==> HeaderAt(s, j).None?
  {
    if HeaderAt(s, i).Some? then Some(i)
    else if i == 0 then None
    else LastHeader(s, i - 1)
  }

  /** The longest prefix without '/'. */
  function UpToSlash(s: string): (r: string)
    ensures StartsWith(s, r) && '/' !in r
    ensures |r| == |s| || s[|r|] == '/'
  {
    if s == [] || s[0] == '/' then [] else [s[0]] + UpToSlash(s[1..])
  }

  /** What the lazy `(.+?)` takes of a non-empty tail: its first character and everything up
      to the next '/'. */
  function FirstSegment(t: string): (r: string)
    requires t != []
    ensures r != [] && r[0] == t[0] && StartsWith(t, r)
    ensures '/' !in r[1..]
    ensures |r| == |t| || t[|r|] == '/'
  {
    var u := UpToSlash(t[1..]);
    assert ([t[0]] + u)[1..] == u;
    [t[0]] + u
  }

  /** The key string "pkg:type:name" for the header at `i`. */
  function OriginKey(path: string, i: nat): (r: string)
    requires HeaderAt(path, i).Some?
    ensures StartsWith(r, "maven:") || StartsWith(r, "npm:")
    ensures r != [] && !JavaWhitespace(r[0])
  {
    var hd := HeaderAt(path, i).value;
    KeyString(hd.0, hd.1, FirstSegment(path[i + |Header(hd.0, hd.1)|..]))
  }

  /** `getOriginalStoreKeyFromPath`: "pkg:type:name" from the rightmost `/pkg/type/` header
      that has something after it, `name` running to the next '/'; nothing when there is no
      such header or the path holds a line terminator. */
  function GetOriginalStoreKeyFromPath(path: string): (r: Option<string>)
    ensures r.None? <==> HasLineTerminator(path) || forall i :: 0 <= i <= |path| ==> HeaderAt(path, i).None?
    ensures r.Some? ==>
      exists i :: 0 <= i <= |path| && HeaderAt(path, i).Some? &&
        (forall j :: i < j <= |path| ==> HeaderAt(path, j).None?) && r.value == OriginKey(path, i)
  {
    if HasLineTerminator(path) then None
    else
      match LastHeader(path, |path|)
      case None => None
      case Some(i) => Some(OriginKey(path, i))
  }

  // ---------------------------------------------------------------------------
  // Keys as paths, proxy rewriting

  lemma FirstCharNotBlank(s: string)
    requires s != [] && !JavaWhitespace(s[0])
    ensures !IsBlank(s)
  {
  }

  /** `keyToPath(String)`: every ':' becomes '/'; a blank key gives "". */
  function KeyToPath(key: string): (r: string)
    ensures IsBlank(key) ==> r == ""
    ensures !IsBlank(key) ==> |r| == |key| && ':' !in r
    ensures !IsBlank(key) ==> forall i :: 0 <= i < |key| && key[i] != ':' ==> r[i] == key[i]
  {
    if IsBlank(key) then "" else ReplaceChar(key, ':', '/')
  }

  /** `keyToPath(StoreKey)`. */
  function StoreKeyToPath(key: StoreKey): string {
    KeyToPath(ToString(key))
  }

  /** `replaceAll` with a pattern and replacement read literally: every non-overlapping
      occurrence, left to right, is replaced. */
  function ReplaceAll(s: string, pat: string, rep: string): (r: string)
    requires pat != []
    decreases |s|
  {
    if |s| < |pat| then s
    else if s[..|pat|] == pat then rep + ReplaceAll(s[|pat|..], pat, rep)
    else [s[0]] + ReplaceAll(s[1..], pat, rep)
  }

  /** A pattern that does not occur leaves the text as it is; one that occurs puts the
      replacement into the result. */
  lemma {:induction false} ReplaceAllEffect(s: string, pat: string, rep: string)
    requires pat != []
    ensures !Contains(s, pat) ==> ReplaceAll(s, pat, rep) == s
    ensures Contains(s, pat) ==> Contains(ReplaceAll(s, pat, rep), rep)
    decreases |s|
  {
    var r := ReplaceAll(s, pat, rep);
    if |s| < |pat| {
      assert !Contains(s, pat);
    } else if s[..|pat|] == pat {
      assert OccursAt(s, pat, 0);
      assert OccursAt(r, rep, 0);
    } else {
      var t := s[1..];
      ReplaceAllEffect(t, pat, rep);
      var rt := ReplaceAll(t, pat, rep);
      assert r == [s[0]] + rt;
      if Contains(s, pat) {
        var i :| 0 <= i <= |s| && OccursAt(s, pat, i);
        assert i != 0;
        OccursShift(s, pat, i);
        var k :| 0 <= k <= |rt| && OccursAt(rt, rep, k);
        assert r[k + 1..k + 1 + |rep|] == rt[k..k + |rep|];
        assert OccursAt(r, rep, k + 1);
      } else {
        assert !Contains(t, pat) by {
          if Contains(t, pat) {
            var i :| 0 <= i <= |t| && OccursAt(t, pat, i);
            assert s[i + 1..i + 1 + |pat|] == t[i..i + |pat|];
            assert OccursAt(s, pat, i + 1);
          }
        }
        assert r == [s[0]] + t == s;
      }
    }
  }

  lemma OccursShift(s: string, pat: string, i: nat)
    requires 1 <= i && OccursAt(s, pat, i)
    ensures OccursAt(s[1..], pat, i - 1)
  {
    assert s[1..][i - 1..i - 1 + |pat|] == s[i..i + |pat|];
  }

  /** `getProxyTo`: only a remote proxy target applies; when the path names an original
      store, that store's path form is replaced by the proxy target's. */
  function GetProxyTo(originalPath: string, proxyToKey: StoreKey): (r: Option<string>)
    ensures proxyToKey.storeType != Remote ==> r.None?
    ensures proxyToKey.storeType == Remote ==> (r.Some? <==> GetOriginalStoreKeyFromPath(originalPath).Some?)
    ensures r.Some? ==>
      r.value == ReplaceAll(originalPath, KeyToPath(GetOriginalStoreKeyFromPath(originalPath).value),
                            StoreKeyToPath(proxyToKey))
  {
    if proxyToKey.storeType != Remote then None
    else
      match GetOriginalStoreKeyFromPath(originalPath)
      case None => None
      case Some(orig) =>
        FirstCharNotBlank(orig);
        Some(ReplaceAll(originalPath, KeyToPath(orig), StoreKeyToPath(proxyToKey)))
  }

  /** A key string made of a header's package and type and a name without ':' turns back
      into the header's text and the name. */
  lemma KeyToPathOfOrigin(pkg: string, typ: string, name: string)
    requires pkg == "maven" || pkg == "npm"
    requires typ == "group" || typ == "hosted"
    requires ':' !in name
    ensures KeyToPath(KeyString(pkg, typ, name)) == HeaderBody(pkg, typ) + name
  {
    var k := KeyString(pkg, typ, name);
    assert k[0] == pkg[0];
    FirstCharNotBlank(k);
    ReplaceCharAppend(pkg + ":" + typ + ":", name, ':', '/');
    ReplaceCharAppend(pkg + ":" + typ, ":", ':', '/');
    ReplaceCharAppend(pkg + ":", typ, ':', '/');
    ReplaceCharAppend(pkg, ":", ':', '/');
    ReplaceCharAbsent(pkg, ':', '/');
    ReplaceCharAbsent(typ, ':', '/');
    ReplaceCharAbsent(name, ':', '/');
    assert ReplaceChar(":", ':', '/') == "/";
  }

  /** Text `m` found right after a '/' at `i`, followed by `name`, occurs as `m + name` at
      `i + 1`. */
  lemma OccursAfterSlash(s: string, m: string, i: nat, name: string)
    requires OccursAt(s, "/" + m, i) && StartsWith(s[i + 1 + |m|..], name)
    ensures OccursAt(s, m + name, i + 1)
  {
    assert s[i + 1..i + 1 + |m|] == ("/" + m)[1..] == m;
    assert s[i + 1 + |m|..i + 1 + |m| + |name|] == s[i + 1 + |m|..][..|name|] == name;
    assert s[i + 1..i + 1 + |m| + |name|] == s[i + 1..i + 1 + |m|] + s[i + 1 + |m|..i + 1 + |m| + |name|];
  }

  lemma NoCharInPart(s: string, c: char, i: nat, j: nat)
    requires c !in s && i <= j <= |s|
    ensures c !in s[i..j]
  {
  }

  /** When the path holds no ':', the path form of the key found at a header is the text
      right after the header's leading '/'. */
  lemma OriginKeyInPath(path: string, i: nat)
    requires HeaderAt(path, i).Some? && ':' !in path
    ensures OccursAt(path, KeyToPath(OriginKey(path, i)), i + 1)
  {
    var hd := HeaderAt(path, i).value;
    assert OriginKey(path, i) == KeyString(hd.0, hd.1, FirstSegment(path[i + |Header(hd.0, hd.1)|..]));
    KeyInPathAt(path, i, hd.0, hd.1);
  }

  /** The same, for a given header. */
  lemma KeyInPathAt(path: string, i: nat, pkg: string, typ: string)
    requires pkg == "maven" || pkg == "npm"
    requires typ == "group" || typ == "hosted"
    requires OccursAt(path, Header(pkg, typ), i) && i + |Header(pkg, typ)| < |path| && ':' !in path
    ensures OccursAt(path, KeyToPath(KeyString(pkg, typ, FirstSegment(path[i + |Header(pkg, typ)|..]))), i + 1)
  {
    var m := HeaderBody(pkg, typ);
    var tail := path[i + |Header(pkg, typ)|..];
    var name := FirstSegment(tail);
    NoCharInPart(path, ':', i + |Header(pkg, typ)|, |path|);
    NoCharInPart(tail, ':', 0, |name|);
    assert name == tail[0..|name|];
    KeyToPathOfOrigin(pkg, typ, name);
    OccursAfterSlash(path, m, i, name);
  }

  /** When the path holds no ':', the original store's path form is the header and name found
      in the path, so the rewritten path names the proxy target. */
  lemma ProxyToNamesTarget(originalPath: string, proxyToKey: StoreKey)
    requires GetProxyTo(originalPath, proxyToKey).Some?
    requires ':' !in originalPath
    ensures Contains(GetProxyTo(originalPath, proxyToKey).value, StoreKeyToPath(proxyToKey))
  {
    var orig := GetOriginalStoreKeyFromPath(originalPath).value;
    var i :| 0 <= i <= |originalPath| && HeaderAt(originalPath, i).Some? && orig == OriginKey(originalPath, i);
    OriginKeyInPath(originalPath, i);
    ReplaceAllEffect(originalPath, KeyToPath(orig), StoreKeyToPath(proxyToKey));
  }

  // ---------------------------------------------------------------------------
  // extractPath, isNPMMetaPath

  /** `extractPath`: what follows the repository path (and the one character after it) in the
      full path, given a leading '/' when it is not blank. */
  function ExtractPath(fullPath: string, repoPath: string): (r: string)
    ensures IsBlank(fullPath) || !Contains(fullPath, repoPath) ==> r == ""
    ensures r == "" || IsBlank(r) || StartsWith(r, "/")
    ensures r != "" ==> EndsWith(fullPath, r) || (r[0] == '/' && EndsWith(fullPath, r[1..]))
  {
    if IsBlank(fullPath) || !Contains(fullPath, repoPath) then ""
    else
      var checking := if EndsWith(repoPath, "/") then repoPath[..|repoPath| - 1] else repoPath;
      assert Contains(fullPath, checking) by {
        var i :| 0 <= i <= |fullPath| && OccursAt(fullPath, repoPath, i);
        assert fullPath[i..i + |checking|] == repoPath[..|checking|] == checking;
        assert OccursAt(fullPath, checking, i);
      }
      var pos := IndexOf(fullPath, checking);
      var start := pos + |checking| + 1;
      if start >= |fullPath| then ""
      else
        var path := fullPath[start..];
        if !IsBlank(path) && !StartsWith(path, "/") then "/" + path else path
  }

  /** A string holding a non-blank part is not blank. */
  lemma NotBlankWithin(a: string, b: string, c: string)
    requires !IsBlank(b)
    ensures !IsBlank(a + b + c)
  {
    var k :| 0 <= k < |b| && !JavaWhitespace(b[k]);
    assert (a + b + c)[|a| + k] == b[k];
  }

  /** The repository path, with or without a trailing '/', is cut off together with the '/'
      that follows it. */
  lemma ExtractAfterRepo(repo: string, p: string, trailingSlash: bool)
    requires !EndsWith(repo, "/") && !IsBlank(p)
    ensures var repoPath := if trailingSlash then repo + "/" else repo;
      ExtractPath(repo + "/" + p, repoPath) == if StartsWith(p, "/") then p else "/" + p
  {
    var full := repo + "/" + p;
    var repoPath := if trailingSlash then repo + "/" else repo;
    assert OccursAt(full, repoPath, 0);
    NotBlankWithin(repo + "/", p, "");
    assert full == repo + "/" + p + "";
    var checking := if EndsWith(repoPath, "/") then repoPath[..|repoPath| - 1] else repoPath;
    assert checking == repo;
    assert OccursAt(full, checking, 0);
    assert IndexOf(full, checking) == 0;
    assert full[|repo| + 1..] == p;
  }

  const NpmMetadataName: string := "package.json"

  /** The path without one leading '/'. */
  function CheckingPath(path: string): string {
    if StartsWith(path, "/") then path[1..] else path
  }

  /** `isNPMMetaPath`. */
  function IsNpmMetaPath(path: string): (r: bool)
    ensures IsBlank(path) ==> !r
  {
    if IsBlank(path) then false
    else
      var checking := CheckingPath(path);
      var isSinglePath := |JavaSplit(checking, '/')| < 2;
      var isScopedPath := StartsWith(checking, "@") && |JavaSplit(checking, '/')| < 3;
      var isPackageJson := EndsWith(JavaTrim(checking), "/" + NpmMetadataName);
      isSinglePath || isScopedPath || isPackageJson
  }

  /** Stated on the path itself: after one leading '/', a single segment (no '/' but trailing
      ones), a scoped "@scope/name" (at most one such '/'), or a path ending in
      "/package.json" once trimmed. */
  lemma NpmMetaPathShape(path: string)
    requires !IsBlank(path)
    ensures var c := CheckingPath(path);
      var slashes := Count('/', StripTrailing(c, '/'));
      IsNpmMetaPath(path) <==>
        slashes == 0 || (StartsWith(c, "@") && slashes <= 1) || EndsWith(JavaTrim(c), "/" + NpmMetadataName)
  {
    var c := CheckingPath(path);
    SplitLength(c, '/');
    var t := StripTrailing(c, '/');
    var n := |JavaSplit(c, '/')|;
    assert n < 2 <==> Count('/', t) == 0;
    assert n < 3 <==> Count('/', t) <= 1;
  }
}
