/** The PyPI listing decorator: a write to a remote PyPI store's directory listing is wrapped
    in a stream that buffers everything until `close`, then rewrites every anchor to the local
    URL of its file, records the original non-root-relative CDN hrefs in the redirection
    table, and forwards the rewritten page once. */
module PyPIListing {
  import opened Common
  import opened StoreKeys
  import opened CdnRedirection

  /** A UTF-16 code unit, the element of a `StringBuilder`. */
  type CodeUnit = x: int | 0 <= x < 0x1_0000

  /** A Java (signed) byte. */
  type JByte = x: int | -128 <= x < 128

  /** `(char) b` for a byte: sign extension, then the low 16 bits. */
  function ByteToChar(b: JByte): (r: CodeUnit)
    ensures 0 <= b ==> r == b
    ensures b < 0 ==> r == b + 0x1_0000 && r >= 0xFF80
  {
    if b < 0 then b + 0x1_0000 else b
  }

  /** `(char) b` for an int: the low 16 bits. */
  function IntToChar(b: int): (r: CodeUnit)
    ensures (r - b) % 0x1_0000 == 0
  {
    b % 0x1_0000
  }

  function Chars(bs: seq<JByte>): (r: seq<CodeUnit>)
    ensures |r| == |bs| && forall i :: 0 <= i < |bs| ==> r[i] == ByteToChar(bs[i])
  {
    if bs == [] then [] else Chars(bs[..|bs| - 1]) + [ByteToChar(bs[|bs| - 1])]
  }

  // ---------------------------------------------------------------------------
  // decorateWrite

  /** Where a transfer lives: a keyed location (with its store key) or any other. */
  datatype Location = KeyedLocation(key: StoreKey) | OtherLocation

  /** Whether `decorateWrite` wraps the stream: a keyed remote PyPI location, a URL generator
      in the thread context, and a path without '.' that has no '/' once its trailing '/'
      are dropped (so "requests/" is one segment, as `String.split` sees it). */
  function Decorates(loc: Location, hasUrlGenerator: bool, path: string): (r: bool)
    ensures r <==> loc.KeyedLocation? && loc.key.packageType == PyPIPkg && loc.key.storeType == Remote &&
                   hasUrlGenerator && Count('/', StripTrailing(path, '/')) == 0 && !Contains(path, ".")
  {
    SplitLength(path, '/');
    if loc.OtherLocation? then false
    else if loc.key.packageType != PyPIPkg then false
    else !(!hasUrlGenerator || loc.key.storeType != Remote || |JavaSplit(path, '/')| > 1 || Contains(path, "."))
  }

  /** The parsed document, reduced to what the stream uses: the anchors (text and href) of a
      buffer, and the page's outer HTML once the anchors' hrefs are replaced by `hrefs`. */
  datatype HtmlDocument = HtmlDocument(anchors: seq<CodeUnit> -> seq<Anchor>,
                                       render: (seq<CodeUnit>, seq<string>) -> string)

  datatype Anchor = Anchor(text: string, href: string)

  /** The file-name -> href map `parseAndReplace` records: each anchor whose href does not
      start with '/', a later anchor of the same text winning. */
  function CdnMap(anchors: seq<Anchor>): map<string, string> {
    if anchors == [] then map[]
    else
      var last := anchors[|anchors| - 1];
      var prev := CdnMap(anchors[..|anchors| - 1]);
      if !StartsWith(last.href, "/") then prev[last.text := last.href] else prev
  }

  predicate Recordable(a: Anchor) {
    !StartsWith(a.href, "/")
  }

  /** A name is recorded iff some anchor with that text has a non-root-relative href, and it is
      recorded with the href of the last such anchor. */
  lemma {:induction false} CdnMapSpec(anchors: seq<Anchor>, f: string)
    ensures f in CdnMap(anchors) <==> exists i :: 0 <= i < |anchors| && anchors[i].text == f && Recordable(anchors[i])
    ensures f in CdnMap(anchors) ==>
      exists i :: 0 <= i < |anchors| && anchors[i].text == f && Recordable(anchors[i]) &&
        CdnMap(anchors)[f] == anchors[i].href &&
        forall j :: i < j < |anchors| && anchors[j].text == f ==> !Recordable(anchors[j])
  {
    if anchors != [] {
      var n := |anchors| - 1;
      var init := anchors[..n];
      CdnMapSpec(init, f);
      assert forall i :: 0 <= i < n ==> anchors[i] == init[i];
      if anchors[n].text == f && Recordable(anchors[n]) {
        assert CdnMap(anchors)[f] == anchors[n].href;
      }
    }
  }

  /** The local hrefs that replace the anchors' hrefs, one per anchor. */
  function LocalHrefs(anchors: seq<Anchor>, basepath: string, normalize: (string, string) -> string,
                      urlGenerator: string -> string): (r: seq<string>)
    ensures |r| == |anchors|
    ensures forall i :: 0 <= i < |anchors| ==> r[i] == urlGenerator(normalize(basepath, anchors[i].text))
  {
    if anchors == [] then []
    else LocalHrefs(anchors[..|anchors| - 1], basepath, normalize, urlGenerator) +
         [urlGenerator(normalize(basepath, anchors[|anchors| - 1].text))]
  }

  /** The table after a listing at `basepath` is parsed: its map is registered when it is not
      empty. */
  function AfterListing(red: Redirections, k: StoreKey, basepath: string, anchors: seq<Anchor>): Redirections {
    if CdnMap(anchors) != map[] then red[CdnContentKey(k, CleanPath(basepath)) := CdnMap(anchors)] else red
  }

  /** Once a listing is parsed, every file it linked to a CDN is redirected there. */
  lemma ListingRedirects(red: Redirections, k: StoreKey, basepath: string, anchors: seq<Anchor>, i: nat)
    requires basepath != [] && !EndsWith(basepath, "/")
    requires i < |anchors| && Recordable(anchors[i]) && anchors[i].text != [] && '/' !in anchors[i].text
    requires forall j :: i < j < |anchors| && anchors[j].text == anchors[i].text ==> anchors[j].href == anchors[i].href
    ensures LookupIn(AfterListing(red, k, basepath, anchors), k, basepath + "/" + anchors[i].text) == Some(anchors[i].href)
  {
    var f := anchors[i].text;
    CdnMapSpec(anchors, f);
    assert f in CdnMap(anchors);
    LookupAfterRegister(red, k, basepath, CdnMap(anchors), f);
  }

  // ---------------------------------------------------------------------------
  // The listing parser stream

  datatype StreamError = ArrayIndexOutOfBounds

  /** What `write(b, off, len)` appends as written (the loop runs from `off` to `len`), and
      whether it throws: it stops at the first index outside `b`. */
  function RangeAsWritten(b: seq<JByte>, off: int, len: int): (r: (seq<CodeUnit>, bool))
    ensures off >= len ==> r == ([], false)
    ensures off < len && 0 <= off && len <= |b| ==> r == (Chars(b[off..len]), false)
  {
    if off >= len then ([], false)
    else if off < 0 || off >= |b| then ([], true)
    else if len <= |b| then (Chars(b[off..len]), false)
    else (Chars(b[off..]), true)
  }

  /** What `OutputStream.write(b, off, len)` promises: `len` bytes starting at `off`, and an
      index error, with nothing written, for a range outside `b`. */
  function RangeIntended(b: seq<JByte>, off: int, len: int): (r: (seq<CodeUnit>, bool))
    ensures !r.1 ==> |r.0| == len
  {
    if off < 0 || len < 0 || off + len > |b| then ([], true) else (Chars(b[off..off + len]), false)
  }

  /** The loop bound `len` instead of `off + len`: from offset 2, three bytes are asked for and
      one is appended. */
  lemma RangeBoundDiscrepancy()
    ensures RangeIntended([1, 2, 3, 4, 5], 2, 3) == ([3, 4, 5], false)
    ensures RangeAsWritten([1, 2, 3, 4, 5], 2, 3) == ([3], false)
  {
    assert [1, 2, 3, 4, 5][2..3] == [3];
    assert [1, 2, 3, 4, 5][2..5] == [3, 4, 5];
    assert Chars([3]) == Chars([3][..0]) + [ByteToChar(3)];
    assert Chars([3, 4, 5]) == [3, 4, 5];
  }

  /** From offset 0 (the common case) the two agree on every in-range request. */
  lemma RangeAgreesFromZero(b: seq<JByte>, len: int)
    requires 0 <= len <= |b|
    ensures RangeAsWritten(b, 0, len) == RangeIntended(b, 0, len)
  {
  }

  class ListingParserStream {
    const storeKey: StoreKey
    const basepath: string
    const cdn: CdnRedirectionDatabase
    const urlGenerator: string -> string
    const normalize: (string, string) -> string
    const html: HtmlDocument
    var buffer: seq<CodeUnit>
    var lastFlush: bool
    /** What has been forwarded to the wrapped stream, one entry per write. */
    var emitted: seq<string>

    /** The base path keeps everything but one trailing '/'. */
    constructor (storeKey: StoreKey, basepath: string, cdn: CdnRedirectionDatabase, urlGenerator: string -> string,
                 normalize: (string, string) -> string, html: HtmlDocument)
      ensures this.storeKey == storeKey && this.basepath == CleanPath(basepath) && this.cdn == cdn
      ensures this.urlGenerator == urlGenerator && this.normalize == normalize && this.html == html
      ensures buffer == [] && !lastFlush && emitted == []
    {
      this.storeKey := storeKey;
      this.basepath := if EndsWith(basepath, "/") then basepath[..|basepath| - 1] else basepath;
      this.cdn := cdn;
      this.urlGenerator := urlGenerator;
      this.normalize := normalize;
      this.html := html;
      buffer := [];
      lastFlush := false;
      emitted := [];
    }

    /** The page forwarded for a buffer: its anchors pointed at the local URLs. */
    function Rewritten(buf: seq<CodeUnit>): string
      reads this
    {
      html.render(buf, LocalHrefs(html.anchors(buf), basepath, normalize, urlGenerator))
    }

    /** `write(int)`: only the buffer grows. */
    method WriteInt(b: int)
      modifies this
      ensures buffer == old(buffer) + [IntToChar(b)]
      ensures lastFlush == old(lastFlush) && emitted == old(emitted)
    {
      buffer := buffer + [IntToChar(b)];
    }

    /** `write(byte[])`. */
    method WriteBytes(b: seq<JByte>)
      modifies this
      ensures buffer == old(buffer) + Chars(b)
      ensures lastFlush == old(lastFlush) && emitted == old(emitted)
    {
      var i := 0;
      while i < |b|
        invariant 0 <= i <= |b|
        invariant buffer == old(buffer) + Chars(b[..i])
        invariant lastFlush == old(lastFlush) && emitted == old(emitted)
      {
        assert b[..i + 1][..i] == b[..i];
        buffer := buffer + [ByteToChar(b[i])];
        i := i + 1;
      }
      assert b[..|b|] == b;
    }

    /** `write(byte[], off, len)` as written: the loop runs up to `len`. */
    method WriteRange(b: seq<JByte>, off: int, len: int) returns (r: Result<(), StreamError>)
      modifies this
      ensures buffer == old(buffer) + RangeAsWritten(b, off, len).0
      ensures r.Err? <==> RangeAsWritten(b, off, len).1
      ensures lastFlush == old(lastFlush) && emitted == old(emitted)
    {
      var i := off;
      while i < len
        invariant off <= i
        invariant i > off ==> 0 <= off && i <= |b| && i <= len
        invariant buffer == old(buffer) + if i > off then Chars(b[off..i]) else []
        invariant lastFlush == old(lastFlush) && emitted == old(emitted)
        decreases len - i
      {
        if i < 0 || i >= |b| {
          return Err(ArrayIndexOutOfBounds);
        }
        assert b[off..i + 1][..i - off] == b[off..i];
        buffer := buffer + [ByteToChar(b[i])];
        i := i + 1;
      }
      r := Ok(());
    }

    /** `write(byte[], off, len)` as `OutputStream` specifies it. */
    method WriteRangeCorrected(b: seq<JByte>, off: int, len: int) returns (r: Result<(), StreamError>)
      modifies this
      ensures buffer == old(buffer) + RangeIntended(b, off, len).0
      ensures r.Err? <==> RangeIntended(b, off, len).1
      ensures lastFlush == old(lastFlush) && emitted == old(emitted)
    {
      if off < 0 || len < 0 || off + len > |b| {
        return Err(ArrayIndexOutOfBounds);
      }
      var i := off;
      while i < off + len
        invariant off <= i <= off + len
        invariant buffer == old(buffer) + Chars(b[off..i])
        invariant lastFlush == old(lastFlush) && emitted == old(emitted)
      {
        assert b[off..i + 1][..i - off] == b[off..i];
        buffer := buffer + [ByteToChar(b[i])];
        i := i + 1;
      }
      r := Ok(());
    }

    /** `parseAndReplace`: rewrites every anchor and registers the recorded CDN hrefs when
        there are any. */
    method ParseAndReplace() returns (page: string)
      modifies cdn
      ensures page == Rewritten(buffer)
      ensures cdn.redirections == AfterListing(old(cdn.redirections), storeKey, basepath, html.anchors(buffer))
    {
      var anchors := html.anchors(buffer);
      var cdnMap: map<string, string> := map[];
      var hrefs: seq<string> := [];
      var i := 0;
      while i < |anchors|
        invariant 0 <= i <= |anchors|
        invariant cdnMap == CdnMap(anchors[..i])
        invariant hrefs == LocalHrefs(anchors[..i], basepath, normalize, urlGenerator)
      {
        var a := anchors[i];
        var localHref := urlGenerator(normalize(basepath, a.text));
        assert anchors[..i + 1][..i] == anchors[..i];
        if !StartsWith(a.href, "/") {
          cdnMap := cdnMap[a.text := a.href];
        }
        hrefs := hrefs + [localHref];
        i := i + 1;
      }
      assert anchors[..|anchors|] == anchors;
      if cdnMap != map[] {
        cdn.Register(storeKey, basepath, cdnMap);
      }
      page := html.render(buffer, hrefs);
    }

    /** `flush`: nothing happens until `close` has asked for the last flush; then the
        rewritten page is forwarded once and the buffer emptied. */
    method Flush()
      modifies this, cdn
      ensures !old(lastFlush) ==>
        buffer == old(buffer) && !lastFlush && emitted == old(emitted) && cdn.redirections == old(cdn.redirections)
      ensures old(lastFlush) ==>
        !lastFlush && buffer == [] && emitted == old(emitted) + [old(Rewritten(buffer))] &&
        cdn.redirections == AfterListing(old(cdn.redirections), storeKey, basepath, html.anchors(old(buffer)))
    {
      if !lastFlush {
        return;
      }
      lastFlush := false;
      var page := ParseAndReplace();
      emitted := emitted + [page];
      buffer := [];
    }

    /** `close`: the one flush that forwards the page; any later `flush` forwards nothing. */
    method Close()
      modifies this, cdn
      ensures !lastFlush && buffer == []
      ensures emitted == old(emitted) + [old(Rewritten(buffer))]
      ensures cdn.redirections == AfterListing(old(cdn.redirections), storeKey, basepath, html.anchors(old(buffer)))
    {
      lastFlush := true;
      Flush();
    }
  }

  /** `decorateWrite`: a fresh listing stream for a decorated transfer, the original stream
      (`None`) otherwise. */
  method DecorateWrite(loc: Location, urlGenerator: Option<string -> string>, path: string,
                       cdn: CdnRedirectionDatabase, normalize: (string, string) -> string, html: HtmlDocument)
    returns (wrapped: Option<ListingParserStream>)
    ensures wrapped.Some? <==> Decorates(loc, urlGenerator.Some?, path)
    ensures wrapped.Some? ==>
      fresh(wrapped.value) && wrapped.value.storeKey == loc.key && wrapped.value.basepath == CleanPath(path) &&
      wrapped.value.cdn == cdn && wrapped.value.buffer == [] && !wrapped.value.lastFlush
    ensures wrapped.Some? ==>
      wrapped.value.urlGenerator == urlGenerator.value && wrapped.value.normalize == normalize &&
      wrapped.value.html == html && wrapped.value.emitted == []
  {
    if !Decorates(loc, urlGenerator.Some?, path) {
      return None;
    }
    var s := new ListingParserStream(loc.key, path, cdn, urlGenerator.value, normalize, html);
    wrapped := Some(s);
  }
}
