/** The transport metric configuration: which repositories have their transports measured
    (a comma-separated list of store keys, bare names meaning maven remotes, a trailing '*'
    meaning a prefix), and the metric name a location is measured under. */
module TransportMetrics {
  import opened Common
  import opened StoreKeys

  /** The prefix a bare repository name gets: the maven package type and the remote type. */
  const DefaultPrefix: string := MavenPkg + ":" + TypeName(Remote) + ":"

  /** The list entry one comma-separated token becomes: trimmed, dropped when blank, and
      prefixed when it names no type. */
  function Entry(tok: string): (r: Option<string>)
    ensures r.None? <==> IsBlank(JavaTrim(tok))
    ensures r.Some? && ':' in JavaTrim(tok) ==> r.value == JavaTrim(tok)
    ensures r.Some? && ':' !in JavaTrim(tok) ==> r.value == DefaultPrefix + JavaTrim(tok)
  {
    var s := JavaTrim(tok);
    if IsBlank(s) then None
    else if ':' in s then Some(s)
    else Some(DefaultPrefix + s)
  }

  /** An entry names a type and is not blank. */
  lemma EntryShape(tok: string)
    ensures Entry(tok).Some? ==> ':' in Entry(tok).value && !IsBlank(Entry(tok).value)
  {
    var s := JavaTrim(tok);
    if !IsBlank(s) && ':' !in s {
      PrefixedShape(s);
    }
  }

  lemma PrefixedShape(s: string)
    ensures ':' in DefaultPrefix + s && !IsBlank(DefaultPrefix + s)
  {
    var v := DefaultPrefix + s;
    assert v[0] == 'm' && v[5] == ':';
    NonBlankAt(v, 0);
  }

  /** A string with one non-whitespace character is not blank. */
  lemma NonBlankAt(v: string, i: nat)
    requires i < |v| && !JavaWhitespace(v[i])
    ensures !IsBlank(v)
  {
  }

  /** The entries `f` makes of a token list, in token order. */
  function FilterMap(f: string -> Option<string>, toks: seq<string>): seq<string> {
    if toks == [] then []
    else
      var prev := FilterMap(f, toks[..|toks| - 1]);
      match f(toks[|toks| - 1])
      case None => prev
      case Some(e) => prev + [e]
  }

  /** The entries of a token list. */
  function Entries(toks: seq<string>): seq<string> {
    FilterMap(Entry, toks)
  }

  /** The list `init` builds from the configured repository string (`None` for null). */
  function MeasuredRepos(measureRepos: Option<string>): seq<string> {
    if measureRepos.None? || IsBlank(measureRepos.value) then []
    else Entries(JavaSplit(measureRepos.value, ','))
  }

  /** Token order is kept: the entries of two token runs are the two runs' entries. */
  lemma {:induction false} FilterMapAppend(f: string -> Option<string>, a: seq<string>, b: seq<string>)
    ensures FilterMap(f, a + b) == FilterMap(f, a) + FilterMap(f, b)
  {
    if b != [] {
      var n := |b| - 1;
      assert (a + b)[..|a + b| - 1] == a + b[..n];
      FilterMapAppend(f, a, b[..n]);
    } else {
      assert a + b == a;
    }
  }

  /** There are no more entries than tokens, and each comes from some token. */
  lemma {:induction false} FilterMapFrom(f: string -> Option<string>, toks: seq<string>, e: string)
    ensures |FilterMap(f, toks)| <= |toks|
    ensures e in FilterMap(f, toks) <==> exists i :: 0 <= i < |toks| && f(toks[i]) == Some(e)
  {
    if toks != [] {
      var n := |toks| - 1;
      var init := toks[..n];
      FilterMapFrom(f, init, e);
      if e in FilterMap(f, toks) && e !in FilterMap(f, init) {
        assert f(toks[n]) == Some(e);
      }
      if i :| 0 <= i < |toks| && f(toks[i]) == Some(e) {
        if i < n {
          assert init[i] == toks[i];
        }
      }
      if e in FilterMap(f, init) {
        var i :| 0 <= i < n && f(init[i]) == Some(e);
        assert toks[i] == init[i];
      }
    }
  }

  /** The entries are exactly those of the non-blank tokens, each naming a type. */
  lemma EntriesSpec(toks: seq<string>, e: string)
    ensures |Entries(toks)| <= |toks|
    ensures e in Entries(toks) <==> exists i :: 0 <= i < |toks| && Entry(toks[i]) == Some(e)
    ensures e in Entries(toks) ==> ':' in e && !IsBlank(e)
  {
    FilterMapFrom(Entry, toks, e);
    if e in Entries(toks) {
      var i :| 0 <= i < |toks| && Entry(toks[i]) == Some(e);
      EntryShape(toks[i]);
    }
  }

  /** One more token adds its entry, if it has one. */
  lemma FilterMapSnoc(f: string -> Option<string>, toks: seq<string>, t: string)
    ensures FilterMap(f, toks + [t]) == if f(t).Some? then FilterMap(f, toks) + [f(t).value] else FilterMap(f, toks)
  {
    assert (toks + [t])[..|toks|] == toks;
  }

  /** The loop in `init` over the split tokens. */
  method ParseTokens(toks: seq<string>) returns (list: seq<string>)
    ensures list == Entries(toks)
  {
    list := [];
    var i := 0;
    while i < |toks|
      invariant 0 <= i <= |toks|
      invariant list == Entries(toks[..i])
    {
      var t := toks[i];
      assert toks[..i + 1] == toks[..i] + [t];
      FilterMapSnoc(Entry, toks[..i], t);
      var s := JavaTrim(t);
      if !IsBlank(s) {
        if ':' !in s {
          s := DefaultPrefix + s;
        }
        assert Entry(t) == Some(s);
        list := list + [s];
      }
      i := i + 1;
    }
    assert toks[..|toks|] == toks;
  }

  /** The repository list of `init`: nothing for a null or blank string. */
  method ParseMeasureRepos(measureRepos: Option<string>) returns (list: seq<string>)
    ensures list == MeasuredRepos(measureRepos)
  {
    list := [];
    if measureRepos.Some? && !IsBlank(measureRepos.value) {
      list := ParseTokens(JavaSplit(measureRepos.value, ','));
    }
  }

  /** `normalizeName`: every ':' becomes '.'. */
  function NormalizeName(name: string): (r: string)
    ensures |r| == |name| && ':' !in r
    ensures forall i :: 0 <= i < |name| && name[i] != ':' ==> r[i] == name[i]
    ensures forall i :: 0 <= i < |name| && name[i] == ':' ==> r[i] == '.'
  {
    ReplaceChar(name, ':', '.')
  }

  /** What one entry yields for a location name: the entry itself on an exact match, the
      wildcard prefix when the entry ends in '*' and the name starts with the prefix. */
  function EntryMatch(s: string, name: string): Option<string> {
    if s == name then Some(NormalizeName(s))
    else if EndsWith(s, "*") && StartsWith(name, s[..|s| - 1]) then Some(NormalizeName(s[..|s| - 1]))
    else None
  }

  /** The first entry, in list order, that matches. */
  function UniqueName(list: seq<string>, name: string): Option<string> {
    if list == [] then None
    else if EntryMatch(list[0], name).Some? then EntryMatch(list[0], name)
    else UniqueName(list[1..], name)
  }

  /** The result is the match of the first matching entry, and nothing when none matches. */
  lemma {:induction false} UniqueNameFirstMatch(list: seq<string>, name: string)
    ensures UniqueName(list, name).None? <==> forall i :: 0 <= i < |list| ==> EntryMatch(list[i], name).None?
    ensures UniqueName(list, name).Some? ==>
      exists i :: 0 <= i < |list| && UniqueName(list, name) == EntryMatch(list[i], name) &&
        forall j :: 0 <= j < i ==> EntryMatch(list[j], name).None?
  {
    if list != [] && EntryMatch(list[0], name).None? {
      UniqueNameFirstMatch(list[1..], name);
      assert forall i :: 1 <= i < |list| ==> list[i] == list[1..][i - 1];
      if UniqueName(list, name).Some? {
        var i :| 0 <= i < |list[1..]| && UniqueName(list[1..], name) == EntryMatch(list[1..][i], name) &&
          forall j :: 0 <= j < i ==> EntryMatch(list[1..][j], name).None?;
        assert forall j :: 1 <= j < i + 1 ==> list[j] == list[1..][j - 1];
        assert UniqueName(list, name) == EntryMatch(list[i + 1], name);
      }
    }
  }

  /** A metric name never holds ':'. */
  lemma {:induction false} UniqueNameNormalized(list: seq<string>, name: string)
    ensures UniqueName(list, name).Some? ==> ':' !in UniqueName(list, name).value
  {
    if list != [] && EntryMatch(list[0], name).None? {
      UniqueNameNormalized(list[1..], name);
    }
  }

  /** A name under a wildcard entry is measured under the normalized prefix. */
  lemma WildcardCoversPrefix(prefix: string, rest: string)
    requires prefix + rest != prefix + "*"
    ensures UniqueName([prefix + "*"], prefix + rest) == Some(NormalizeName(prefix))
  {
    var s := prefix + "*";
    assert s[..|s| - 1] == prefix;
    assert (prefix + rest)[..|prefix|] == prefix;
  }

  /** `getMetricUniqueName`: the search over the list. */
  method GetMetricUniqueName(list: seq<string>, locationName: string) returns (r: Option<string>)
    ensures r == UniqueName(list, locationName)
  {
    var i := 0;
    while i < |list|
      invariant 0 <= i <= |list|
      invariant UniqueName(list, locationName) == UniqueName(list[i..], locationName)
    {
      var s := list[i];
      assert list[i..][1..] == list[i + 1..];
      if s == locationName {
        return Some(NormalizeName(s));
      }
      if EndsWith(s, "*") {
        var prefix := s[..|s| - 1];
        if StartsWith(locationName, prefix) {
          return Some(NormalizeName(prefix));
        }
      }
      i := i + 1;
    }
    r := None;
  }

  /** The produced configuration: always enabled, with the parsed list and the node prefix. */
  datatype TransportMetricConfig = TransportMetricConfig(entries: seq<string>, nodePrefix: string) {
    function IsEnabled(): (r: bool)
      ensures r
    {
      true
    }
  }

  class IndyTransportMetricConfigProvider {
    var transportMetricConfig: Option<TransportMetricConfig>

    constructor ()
      ensures transportMetricConfig == None
    {
      transportMetricConfig := None;
    }

    /** `init`: the configuration is produced only when transport measurement is on. */
    method Init(measureTransport: bool, measureRepos: Option<string>, nodePrefix: string)
      modifies this
      ensures !measureTransport ==> transportMetricConfig == old(transportMetricConfig)
      ensures measureTransport ==>
        transportMetricConfig == Some(TransportMetricConfig(MeasuredRepos(measureRepos), nodePrefix))
    {
      if measureTransport {
        var list := ParseMeasureRepos(measureRepos);
        transportMetricConfig := Some(TransportMetricConfig(list, nodePrefix));
      }
    }
  }
}
