/** The flat CDN redirection table: one href per (store key, path) pair. */
module FlatCdnRedirection {
  import opened Common
  import opened StoreKeys

  /** `KeyAndPath`; its equality is componentwise. */
  datatype KeyAndPath = KeyAndPath(key: StoreKey, path: string)

  function KeyAndPathEquals(a: KeyAndPath, b: KeyAndPath): (r: bool)
    ensures r <==> a.key == b.key && a.path == b.path
  {
    Equals(a.key, b.key) && a.path == b.path
  }

  /** `lookup` on a table: the registered href, or null. */
  function LookupIn(red: map<KeyAndPath, string>, k: StoreKey, path: string): (r: Option<string>)
    ensures r.Some? <==> KeyAndPath(k, path) in red
    ensures r.Some? ==> r.value == red[KeyAndPath(k, path)]
  {
    if KeyAndPath(k, path) in red then Some(red[KeyAndPath(k, path)]) else None
  }

  /** After registering a pair, looking it up gives the last href registered for it, and every
      other pair looks up as before. */
  lemma LookupAfterRegister(red: map<KeyAndPath, string>, k: StoreKey, p: string, h: string,
                            k2: StoreKey, p2: string)
    ensures LookupIn(red[KeyAndPath(k, p) := h], k, p) == Some(h)
    ensures (k2 != k || p2 != p) ==> LookupIn(red[KeyAndPath(k, p) := h], k2, p2) == LookupIn(red, k2, p2)
  {
  }

  class CdnRedirectionTable {
    var redirections: map<KeyAndPath, string>

    constructor ()
      ensures redirections == map[]
    {
      redirections := map[];
    }

    /** `lookup`: nothing for a pair never registered. */
    function Lookup(k: StoreKey, path: string): (r: Option<string>)
      reads this
      ensures r == LookupIn(redirections, k, path)
    {
      LookupIn(redirections, k, path)
    }

    /** `register`: the pair's href is set, overwriting an earlier one. */
    method Register(k: StoreKey, path: string, href: string)
      modifies this
      ensures redirections == old(redirections)[KeyAndPath(k, path) := href]
      ensures Lookup(k, path) == Some(href)
    {
      redirections := redirections[KeyAndPath(k, path) := href];
    }
  }
}
