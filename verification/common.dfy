/** String, list and path helpers with the semantics of the Java library calls used
    throughout the repository (`String.split`, `String.trim`, `StringUtils.isBlank`,
    `String.startsWith`, `String.indexOf`, `java.nio.file.Path.getParent`). */
module Common {

  datatype Option<+T> = None | Some(value: T)

  datatype Result<+T, +E> = Ok(value: T) | Err(error: E)

  // ---------------------------------------------------------------------------
  // Prefixes, suffixes, occurrences

  predicate StartsWith(s: string, p: string) {
    |p| <= |s| && s[..|p|] == p
  }

  predicate EndsWith(s: string, p: string) {
    |p| <= |s| && s[|s| - |p|..] == p
  }

  /** `p` occurs in `s` at index `i`. */
  predicate OccursAt(s: string, p: string, i: int) {
    0 <= i && i + |p| <= |s| && s[i..i + |p|] == p
  }

  /** `String.contains`. */
  predicate Contains(s: string, p: string) {
    exists i :: 0 <= i <= |s| && OccursAt(s, p, i)
  }

  /** `String.indexOf(String)`: the first occurrence, or -1. */
  function IndexOf(s: string, p: string): (r: int)
    ensures -1 <= r <= |s|
    ensures r == -1 <==> !Contains(s, p)
    ensures r >= 0 ==> OccursAt(s, p, r) && forall j :: 0 <= j < r ==> !OccursAt(s, p, j)
  {
    IndexFrom(s, p, 0)
  }

  function IndexFrom(s: string, p: string, from: nat): (r: int)
    requires from <= |s| + 1
    ensures -1 <= r <= |s|
    ensures r == -1 <==> forall j :: from <= j ==> !OccursAt(s, p, j)
    ensures r >= 0 ==> from <= r && OccursAt(s, p, r) && forall j :: from <= j < r ==> !OccursAt(s, p, j)
    decreases |s| + 1 - from
  {
    if from + |p| > |s| then
      assert forall j :: from <= j ==> !OccursAt(s, p, j);
      -1
    else if s[from..from + |p|] == p then
      assert OccursAt(s, p, from);
      from
    else IndexFrom(s, p, from + 1)
  }

  // ---------------------------------------------------------------------------
  // Blank strings and trimming

  /** `Character.isWhitespace`: Unicode space, line and paragraph separators other than
      the no-break spaces, plus the ASCII controls TAB, LF, VT, FF, CR and FS..US. */
  predicate JavaWhitespace(c: char) {
    || c == ' ' || c == '\t' || c == '\n' || c == '\U{000B}' || c == '\U{000C}' || c == '\r'
    || ('\U{001C}' <= c <= '\U{001F}')
    || c == '\U{1680}'
    || ('\U{2000}' <= c <= '\U{200A}' && c != '\U{2007}')
    || c == '\U{2028}' || c == '\U{2029}' || c == '\U{205F}' || c == '\U{3000}'
  }

  /** `StringUtils.isBlank` for a non-null string: empty or whitespace only. */
  predicate IsBlank(s: string) {
    forall i :: 0 <= i < |s| ==> JavaWhitespace(s[i])
  }

  /** `String.trim`: drops every leading and trailing character up to U+0020. */
  function JavaTrim(s: string): (r: string)
    ensures |r| <= |s|
    ensures r != [] ==> r[0] > ' ' && r[|r| - 1] > ' '
  {
    TrimEnd(TrimStart(s))
  }

  function TrimStart(s: string): (r: string)
    ensures |r| <= |s| && r == s[|s| - |r|..]
    ensures r != [] ==> r[0] > ' '
  {
    if s != [] && s[0] <= ' ' then TrimStart(s[1..]) else s
  }

  function TrimEnd(s: string): (r: string)
    ensures |r| <= |s| && r == s[..|r|]
    ensures r != [] ==> r[|r| - 1] > ' '
    ensures s != [] && s[0] > ' ' ==> r != [] && r[0] == s[0]
  {
    if s != [] && s[|s| - 1] <= ' ' then TrimEnd(s[..|s| - 1]) else s
  }

  // ---------------------------------------------------------------------------
  // String.split on a single character

  /** Every field of `s` between occurrences of `sep`, empty ones included. */
  function Fields(s: string, sep: char): (r: seq<string>)
    ensures |r| >= 1
    ensures forall i :: 0 <= i < |r| ==> sep !in r[i]
  {
    if s == [] then [""]
    else
      var rest := Fields(s[1..], sep);
      if s[0] == sep then [""] + rest else [[s[0]] + rest[0]] + rest[1..]
  }

  function DropTrailingEmpty(fs: seq<string>): (r: seq<string>)
    ensures |r| <= |fs| && r == fs[..|r|]
    ensures r != [] ==> r[|r| - 1] != ""
    ensures forall i :: |r| <= i < |fs| ==> fs[i] == ""
  {
    if fs != [] && fs[|fs| - 1] == "" then DropTrailingEmpty(fs[..|fs| - 1]) else fs
  }

  /** `String.split(sep)` with a one-character, non-meta separator: when `sep` does not occur
      the result is `[s]`; otherwise the fields with trailing empty fields removed. */
  function JavaSplit(s: string, sep: char): seq<string> {
    if sep !in s then [s] else DropTrailingEmpty(Fields(s, sep))
  }

  lemma {:induction false} FieldsNoSep(s: string, sep: char)
    requires sep !in s
    ensures Fields(s, sep) == [s]
  {
    if s != [] {
      FieldsNoSep(s[1..], sep);
      assert [s[0]] + s[1..] == s;
    }
  }

  /** Splitting `x + [sep] + y` where `x` has no separator yields `x` and then the fields of `y`. */
  lemma {:induction false} FieldsCons(x: string, sep: char, y: string)
    requires sep !in x
    ensures Fields(x + [sep] + y, sep) == [x] + Fields(y, sep)
  {
    if x == [] {
      assert x + [sep] + y == [sep] + y;
      assert ([sep] + y)[1..] == y;
    } else {
      assert (x + [sep] + y)[1..] == x[1..] + [sep] + y;
      FieldsCons(x[1..], sep, y);
      assert [x[0]] + x[1..] == x;
    }
  }

  lemma ThreeFields(a: string, b: string, c: string, sep: char)
    requires sep !in a && sep !in b && sep !in c
    ensures Fields(a + [sep] + b + [sep] + c, sep) == [a, b, c]
  {
    FieldsNoSep(c, sep);
    FieldsCons(b, sep, c);
    assert a + [sep] + b + [sep] + c == a + [sep] + (b + [sep] + c);
    FieldsCons(a, sep, b + [sep] + c);
  }

  /** `s` without its trailing run of `c`. */
  function StripTrailing(s: string, c: char): (r: string)
    ensures |r| <= |s| && r == s[..|r|]
    ensures r == [] || r[|r| - 1] != c
    ensures forall i :: |r| <= i < |s| ==> s[i] == c
  {
    if s != [] && s[|s| - 1] == c then StripTrailing(s[..|s| - 1], c) else s
  }

  /** The number of occurrences of `c` in `s`. */
  function Count(c: char, s: string): nat {
    if s == [] then 0 else (if s[0] == c then 1 else 0) + Count(c, s[1..])
  }

  lemma {:induction false} FieldsLength(s: string, sep: char)
    ensures |Fields(s, sep)| == Count(sep, s) + 1
  {
    if s != [] {
      FieldsLength(s[1..], sep);
    }
  }

  /** The last field of a string that does not end with the separator is not empty. */
  lemma {:induction false} FieldsLastNonEmpty(s: string, sep: char)
    requires s != [] && s[|s| - 1] != sep
    ensures Fields(s, sep)[|Fields(s, sep)| - 1] != ""
  {
    if |s| > 1 {
      FieldsLastNonEmpty(s[1..], sep);
    }
  }

  /** A trailing separator adds one empty field. */
  lemma {:induction false} FieldsSnoc(s: string, sep: char)
    ensures Fields(s + [sep], sep) == Fields(s, sep) + [""]
  {
    if s == [] {
      assert [sep][1..] == [];
    } else {
      assert (s + [sep])[1..] == s[1..] + [sep];
      FieldsSnoc(s[1..], sep);
    }
  }

  /** Trailing separators only add empty fields, which the split drops. */
  lemma {:induction false} DropTrailingStrip(s: string, sep: char)
    ensures DropTrailingEmpty(Fields(s, sep)) == DropTrailingEmpty(Fields(StripTrailing(s, sep), sep))
    decreases |s|
  {
    if s != [] && s[|s| - 1] == sep {
      var t := s[..|s| - 1];
      assert s == t + [sep];
      FieldsSnoc(t, sep);
      var fs := Fields(t, sep) + [""];
      assert fs[..|fs| - 1] == Fields(t, sep);
      DropTrailingStrip(t, sep);
    }
  }

  /** How many fields `String.split` yields: none for a string of separators only, otherwise
      one more than the separators left once the trailing ones are removed. */
  lemma SplitLength(s: string, sep: char)
    ensures |JavaSplit(s, sep)| ==
      if sep in s && StripTrailing(s, sep) == [] then 0 else Count(sep, StripTrailing(s, sep)) + 1
  {
    var t := StripTrailing(s, sep);
    if sep !in s {
      assert t == s;
      FieldsNoSep(s, sep);
      FieldsLength(s, sep);
    } else {
      DropTrailingStrip(s, sep);
      FieldsLength(t, sep);
      if t != [] {
        FieldsLastNonEmpty(t, sep);
      }
    }
  }

  // ---------------------------------------------------------------------------
  // Character replacement

  /** `s.replaceAll(from, to)` for one-character, non-meta `from` and `to`. */
  function ReplaceChar(s: string, from: char, to: char): (r: string)
    ensures |r| == |s|
    ensures forall i :: 0 <= i < |s| ==> r[i] == if s[i] == from then to else s[i]
  {
    if s == [] then [] else [if s[0] == from then to else s[0]] + ReplaceChar(s[1..], from, to)
  }

  /** Replacement works piecewise over a concatenation. */
  lemma {:induction false} ReplaceCharAppend(a: string, b: string, from: char, to: char)
    ensures ReplaceChar(a + b, from, to) == ReplaceChar(a, from, to) + ReplaceChar(b, from, to)
  {
    if a != [] {
      assert (a + b)[1..] == a[1..] + b;
      ReplaceCharAppend(a[1..], b, from, to);
    } else {
      assert a + b == b;
    }
  }

  lemma ReplaceCharAbsent(s: string, from: char, to: char)
    requires from !in s
    ensures ReplaceChar(s, from, to) == s
  {
  }

  // ---------------------------------------------------------------------------
  // Paths (java.nio.file.Path on '/'-separated strings without repeated or trailing '/')

  /** Index of the last occurrence of `c`. */
  function LastIndexOf(s: string, c: char): (r: Option<nat>)
    ensures r.None? <==> c !in s
    ensures r.Some? ==> r.value < |s| && s[r.value] == c && c !in s[r.value + 1..]
  {
    if s == [] then None
    else if s[|s| - 1] == c then Some(|s| - 1)
    else
      var r := LastIndexOf(s[..|s| - 1], c);
      assert s == s[..|s| - 1] + [s[|s| - 1]];
      r
  }

  /** `Paths.get(p).getParent()`: everything before the last '/', or "/" for a top-level
      absolute path; no parent when there is no '/'. */
  function ParentOf(p: string): (r: Option<string>)
    ensures r.None? <==> '/' !in p
    ensures r.Some? ==> r.value != []
  {
    match LastIndexOf(p, '/')
    case None => None
    case Some(i) => if i == 0 then Some("/") else Some(p[..i])
  }

  /** `Paths.get(p).getFileName()`: everything after the last '/'. */
  function FileName(p: string): (r: string)
    ensures '/' !in r
  {
    match LastIndexOf(p, '/')
    case None => p
    case Some(i) => p[i + 1..]
  }

  /** `Path.resolve(name).toString()` for a relative single-segment `name`. */
  function Resolve(dir: string, name: string): string {
    if dir == "/" then dir + name else dir + "/" + name
  }

  lemma {:induction false} SplitAtSlash(d: string, f: string)
    requires d != [] && d != "/" && '/' !in f
    ensures ParentOf(d + "/" + f) == Some(d)
    ensures FileName(d + "/" + f) == f
  {
    var p := d + "/" + f;
    var i := |d|;
    assert p[i] == '/';
    assert p[i + 1..] == f;
    LastIndexUnique(p, '/', i);
    assert p[..i] == d;
  }

  lemma LastIndexUnique(s: string, c: char, i: nat)
    requires i < |s| && s[i] == c && c !in s[i + 1..]
    ensures LastIndexOf(s, c) == Some(i)
  {
  }
}
