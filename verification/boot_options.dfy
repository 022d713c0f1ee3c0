/** The boot options: the bind address, port and web context path the server starts with. The
    context path is kept without its leading '/'. */
module BootOptions {
  import opened Common

  /** One leading '/' removed. */
  function StripLeadingSlash(s: string): (r: string)
    ensures StartsWith(s, "/") ==> "/" + r == s
    ensures !StartsWith(s, "/") ==> r == s
  {
    if StartsWith(s, "/") then s[1..] else s
  }

  /** The context path stored for a value given (`None` for null). */
  function StoredContextPath(cp: Option<string>): (r: string)
    ensures cp.None? ==> r == ""
    ensures cp.Some? ==> r == StripLeadingSlash(cp.value)
  {
    if cp.None? then "" else StripLeadingSlash(cp.value)
  }

  /** Stripping again changes nothing exactly when the path did not start with "//". */
  lemma StripTwiceIffDoubleSlash(s: string)
    ensures StripLeadingSlash(StripLeadingSlash(s)) == StripLeadingSlash(s) <==> !StartsWith(s, "//")
  {
    if StartsWith(s, "//") {
      assert StartsWith(StripLeadingSlash(s), "/");
      assert |StripLeadingSlash(StripLeadingSlash(s))| < |StripLeadingSlash(s)|;
    }
  }

  class IndyBootOptions {
    var bind: Option<string>
    var port: Option<int>
    var contextPath: Option<string>
    var secureConfig: Option<string>
    var secureRealm: Option<string>

    constructor ()
      ensures bind == None && port == None && contextPath == None
      ensures secureConfig == None && secureRealm == None
    {
      bind := None;
      port := None;
      contextPath := None;
      secureConfig := None;
      secureRealm := None;
    }

    /** `setContextPath`: "" for null, one leading '/' dropped. */
    method SetContextPath(cp: Option<string>)
      modifies this
      ensures contextPath == Some(StoredContextPath(cp))
      ensures bind == old(bind) && port == old(port)
      ensures secureConfig == old(secureConfig) && secureRealm == old(secureRealm)
    {
      if cp.None? {
        contextPath := Some("");
      } else if StartsWith(cp.value, "/") {
        contextPath := Some(cp.value[1..]);
      } else {
        contextPath := cp;
      }
    }

    /** `getContextPath`: never null; a null path is stored as "", and each call strips (and
        stores) one more leading '/'. */
    method GetContextPath() returns (r: string)
      modifies this
      ensures r == StoredContextPath(old(contextPath))
      ensures contextPath == Some(r)
      ensures bind == old(bind) && port == old(port)
      ensures secureConfig == old(secureConfig) && secureRealm == old(secureRealm)
    {
      if contextPath.None? {
        contextPath := Some("");
      }
      if StartsWith(contextPath.value, "/") {
        contextPath := Some(contextPath.value[1..]);
      }
      r := contextPath.value;
    }

    /** `doCopy`: only bind, port and context path are taken from the other options. */
    method DoCopy(options: IndyBootOptions)
      modifies this
      ensures bind == old(options.bind) && port == old(options.port) && contextPath == old(options.contextPath)
      ensures secureConfig == old(secureConfig) && secureRealm == old(secureRealm)
    {
      var b, p, c := options.bind, options.port, options.contextPath;
      bind := b;
      port := p;
      contextPath := c;
    }

    /** `setBind`: the options themselves come back, for chaining. */
    method SetBind(b: Option<string>) returns (self: IndyBootOptions)
      modifies this
      ensures self == this && bind == b
      ensures port == old(port) && contextPath == old(contextPath)
      ensures secureConfig == old(secureConfig) && secureRealm == old(secureRealm)
    {
      bind := b;
      self := this;
    }
  }

  /** Setting `p` and then reading the context path twice: each read strips one more leading
      '/', so the two reads agree exactly when the stored path does not start with "//". */
  method ContextPathNotIdempotent(p: string) returns (first: string, second: string)
    ensures first == StripLeadingSlash(StripLeadingSlash(p)) && second == StripLeadingSlash(first)
    ensures second == first <==> !StartsWith(StripLeadingSlash(p), "//")
  {
    var o := new IndyBootOptions();
    o.SetContextPath(Some(p));
    first := o.GetContextPath();
    second := o.GetContextPath();
    StripTwiceIffDoubleSlash(StripLeadingSlash(p));
  }
}
