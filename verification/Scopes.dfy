/** Path prefixes (js/index.ts `normalizeBase`, `join`; js/pipeline.ts `prefixMatches`,
    `buildChain`). */
module Scopes {
  import opened Common

  function Rooted(b: string): string { if StartsWith(b, "/") then b else "/" + b }

  function Strip(s: string, suffix: string): string { if EndsWith(s, suffix) then s[..|s| - |suffix|] else s }

  function NormalizeBase(b: string): string {
    if b == "" || b == "/" then "" else Strip(Strip(Rooted(b), "/*"), "/")
  }

  function Join(base: string, path: string): string {
    var p := Rooted(path);
    if p == "/" then if base == "" then "/" else base else base + p
  }

  predicate PrefixMatches(prefix: string, path: string) {
    prefix == "" || path == prefix || StartsWith(path, prefix + "/")
  }

  /** The prefix of a sub-app's middleware or hook after mounting. */
  function Remap(mount: string, prefix: string): string { if prefix == "" then mount else Join(mount, prefix) }

  lemma {:induction false} StripSplits(s: string, suffix: string)
    ensures Strip(s, suffix) + suffix == s || (Strip(s, suffix) == s && !EndsWith(s, suffix))
  {}

  // Normalizing only adds a missing leading slash and strips a trailing `/`, `/*` or `//*`,
  // so a base is empty or rooted.
  lemma {:induction false} NormalizedRooted(b: string)
    requires b != "" && b != "/"
    ensures var s, r := Rooted(b), NormalizeBase(b);
      s == r || s == r + "/" || s == r + "/*" || s == r + "/" + "/*"
    ensures NormalizeBase(b) == "" || StartsWith(NormalizeBase(b), "/")
  {
    StripSplits(Rooted(b), "/*");
    StripSplits(Strip(Rooted(b), "/*"), "/");
  }

  // The spellings of one base: with or without the leading slash, a trailing slash and a
  // trailing wildcard `/*` all mean the base itself.
  lemma {:induction false} SameBase(core: string)
    requires core != "" && core[0] != '/' && core[|core| - 1] != '/' && core != "*" && !EndsWith(core, "/*")
    ensures NormalizeBase(core) == "/" + core && NormalizeBase("/" + core) == "/" + core
    ensures NormalizeBase("/" + core + "/") == "/" + core
    ensures NormalizeBase("/" + core + "/*") == "/" + core
  {
    var rooted := "/" + core;
    Unstripped(core);
    StripsOff(rooted, "/");
    StripsOff(rooted, "/*");
    LastDiffers(rooted + "/", "/*");
  }

  lemma {:induction false} LastDiffers(s: string, p: string)
    requires s != "" && p != "" && s[|s| - 1] != p[|p| - 1]
    ensures !EndsWith(s, p)
  {
    if |p| <= |s| { assert s[|s| - |p|..][|p| - 1] == s[|s| - 1]; }
  }

  lemma {:induction false} Unstripped(core: string)
    requires core != "" && core[|core| - 1] != '/' && core != "*" && !EndsWith(core, "/*")
    ensures !EndsWith("/" + core, "/") && !EndsWith("/" + core, "/*")
  {
    var rooted := "/" + core;
    LastDiffers(rooted, "/");
    if |core| >= 2 {
      assert rooted[|rooted| - 2..] == core[|core| - 2..];
    } else {
      assert core == [core[0]];
      LastDiffers(rooted, "/*");
    }
  }

  lemma {:induction false} StripsOff(s: string, suffix: string)
    ensures EndsWith(s + suffix, suffix) && Strip(s + suffix, suffix) == s
  {}

  /** Joining puts one slash between base and path, and none for the root path. */
  lemma {:induction false} JoinIs(base: string, path: string)
    ensures path == "" || path == "/" ==> Join(base, path) == if base == "" then "/" else base
    ensures path != "" && path != "/" && StartsWith(path, "/") ==> Join(base, path) == base + path
    ensures path != "" && !StartsWith(path, "/") ==> Join(base, path) == base + "/" + path
  {
    if path != "" && !StartsWith(path, "/") {
      assert base + ("/" + path) == base + "/" + path;
      assert |"/" + path| > 1;
    }
  }

  /** Joining never loses the leading slash, and only `/` under an empty base stays `/`. */
  lemma {:induction false} JoinRooted(base: string, path: string)
    requires base == "" || StartsWith(base, "/")
    ensures StartsWith(Join(base, path), "/")
    ensures base != "" ==> StartsWith(Join(base, path), base) && (Join(base, path) == "/" ==> base == "/")
  {}

  lemma {:induction false} PrefixCancels(m: string, s: string, r: string)
    ensures StartsWith(m + r, m + s) <==> StartsWith(r, s)
  {
    if |s| <= |r| {
      assert (m + r)[..|m + s|] == m + r[..|s|];
      assert (m + r[..|s|])[|m|..] == r[..|s|] && (m + s)[|m|..] == s;
    }
  }

  /** Mounting preserves scoping exactly unless the scope is `/` itself: that one matches
      only the root of its own app, but everything of the sub-app once mounted. */
  lemma {:induction false} MountPreservesScopeIff(mount: string, prefix: string, path: string)
    requires mount != "" && (prefix == "" || StartsWith(prefix, "/")) && StartsWith(path, "/")
    ensures (PrefixMatches(Remap(mount, prefix), Join(mount, path)) <==> PrefixMatches(prefix, path))
       <==> !(prefix == "/" && path != "/" && !StartsWith(path, "//"))
  {
    var full := Join(mount, path);
    if prefix == "" || prefix == "/" {
      assert Remap(mount, prefix) == mount;
      PrefixCancels(mount, "/", path);
      assert PrefixMatches(mount, full);
      assert "/" + "/" == "//";
    } else {
      assert Remap(mount, prefix) == mount + prefix;
      assert (mount + prefix) + "/" == mount + (prefix + "/");
      if path == "/" {
        assert |full| == |mount| < |mount + prefix|;
        assert prefix != "/" && |prefix| > 1;
      } else {
        PrefixCancels(mount, prefix + "/", path);
        assert (mount + prefix)[|mount|..] == prefix && (mount + path)[|mount|..] == path;
      }
    }
  }

  /** A scope of a mounted app matches only paths under the mount. */
  lemma {:induction false} InsideMount(mount: string, prefix: string, path: string)
    requires mount != "" && (prefix == "" || StartsWith(prefix, "/"))
    ensures PrefixMatches(Remap(mount, prefix), path) ==> PrefixMatches(mount, path)
  {
    if prefix != "" && prefix != "/" {
      var full := mount + prefix;
      assert full[..|mount| + 1] == mount + "/";
      if PrefixMatches(full, path) {
        assert path[..|full|] == full;
        assert path[..|mount| + 1] == full[..|mount| + 1];
      }
    }
  }
}
