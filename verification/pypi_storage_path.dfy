/** Where PyPI content is stored: the root of a PyPI store maps to its `index.html`. */
module PyPIStoragePath {
  import opened Common
  import opened StoreKeys

  const IndexHtmlFile: string := "index.html"

  /** `calculateStoragePath`. The path is `None` for null; `normalize` is the path joiner. */
  function CalculateStoragePath(key: StoreKey, path: Option<string>, normalize: (Option<string>, string) -> string)
    : (r: Option<string>)
    ensures key.packageType != PyPIPkg ==> r == path
    ensures key.packageType == PyPIPkg && (path.None? || path.value == "/" || path.value == "") ==>
      r == Some(normalize(path, IndexHtmlFile))
    ensures path.Some? && path.value != "/" && path.value != "" ==> r == path
  {
    if key.packageType == PyPIPkg && (path.None? || path.value == "/" || |path.value| < 1) then
      Some(normalize(path, IndexHtmlFile))
    else path
  }

  /** Only the key's package type matters: keys of the same package type store the same path
      at the same place. */
  lemma OnlyPackageTypeMatters(k1: StoreKey, k2: StoreKey, path: Option<string>,
                               normalize: (Option<string>, string) -> string)
    requires k1.packageType == k2.packageType
    ensures CalculateStoragePath(k1, path, normalize) == CalculateStoragePath(k2, path, normalize)
  {
  }
}
