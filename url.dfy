/**
 * URL handling of index.js: `getFullyQualifiedUrl` (index.js:315-341), the
 * "directory of" idiom `s.split(/([^\/]*)$/).shift()` and the document base
 * URL built by `getBaseUrl` (index.js:109-121).
 */
module Url {
  import opened Trim

  /** `pat` occurs in `s` starting at `i`. */
  predicate OccursAt(s: string, pat: string, i: nat) {
    i + |pat| <= |s| && s[i..i + |pat|] == pat
  }

  function IndexFrom(s: string, pat: string, from: nat): (r: int)
    requires from <= |s| + 1
    ensures r == -1 || (from <= r && OccursAt(s, pat, r))
    ensures r >= 0 ==> forall i :: from <= i < r ==> !OccursAt(s, pat, i)
    ensures r == -1 ==> forall i :: from <= i ==> !OccursAt(s, pat, i)
    decreases |s| + 1 - from
  {
    if from + |pat| > |s| then -1
    else if s[from..from + |pat|] == pat then from
    else IndexFrom(s, pat, from + 1)
  }

  /** `s.indexOf(pat)`: the first position of `pat` in `s`, or -1. */
  function IndexOf(s: string, pat: string): (r: int)
    ensures r == -1 || (0 <= r && OccursAt(s, pat, r))
    ensures r >= 0 ==> forall i :: 0 <= i < r ==> !OccursAt(s, pat, i)
    ensures r == -1 ==> forall i :: 0 <= i ==> !OccursAt(s, pat, i)
  {
    IndexFrom(s, pat, 0)
  }

  predicate Contains(s: string, pat: string) {
    IndexOf(s, pat) >= 0
  }

  /** `s.replace(/\/$/gi, '')`: drop one trailing `/`. */
  function DropTrailingSlash(s: string): (r: string)
    ensures s != [] && s[|s| - 1] == '/' ==> s == r + "/"
    ensures s == [] || s[|s| - 1] != '/' ==> r == s
  {
    if s != [] && s[|s| - 1] == '/' then s[..|s| - 1] else s
  }

  /**
   * `getFullyQualifiedUrl(path, base)`, index.js:315-341. A reference that is
   * already qualified, or a base that is not, is returned as it is; otherwise
   * the result ends with `/` and the reference trimmed of slashes.
   */
  function FullyQualified(path: string, base: string): (url: string)
    ensures Contains(path, "//") || !Contains(base, "//") ==> url == path
    ensures !Contains(path, "//") && Contains(base, "//") ==>
      var tail := "/" + Trimmed(path, StripSet("/"));
      |tail| <= |url| && url[|url| - |tail|..] == tail
  {
    var tail := "/" + Trimmed(path, StripSet("/"));
    if IndexOf(path, "//") >= 0 then path
    else if IndexOf(base, "//") == 0 then
      var head := DropTrailingSlash(base);
      EndsWith(head, tail);
      head + tail
    else if IndexOf(base, "//") > 0 then
      var head := Trimmed(base, StripSet("/"));
      EndsWith(head, tail);
      head + tail
    else path
  }

  lemma EndsWith(head: string, tail: string)
    ensures (head + tail)[|head + tail| - |tail|..] == tail
  {
  }

  /** A protocol-relative base keeps its leading `//` and loses one trailing `/`. */
  lemma ProtocolRelativeJoin(path: string, base: string)
    requires !Contains(path, "//") && OccursAt(base, "//", 0)
    ensures FullyQualified(path, base) == DropTrailingSlash(base) + "/" + Trimmed(path, "/")
    ensures OccursAt(FullyQualified(path, base), "//", 0)
  {
    var url := FullyQualified(path, base);
    var d := DropTrailingSlash(base);
    if |base| == 2 {
      assert d == "/";
    } else {
      assert d[..2] == base[..2];
    }
    assert url[..2] == (d + "/")[..2];
  }

  /** A base with a scheme is trimmed of slashes at both ends before joining. */
  lemma SchemeJoin(path: string, base: string)
    requires !Contains(path, "//") && IndexOf(base, "//") > 0
    ensures FullyQualified(path, base) == Trimmed(base, "/") + "/" + Trimmed(path, "/")
  {
  }

  /**
   * What the resolver is for: a relative name without slashes at its ends,
   * resolved against a directory URL (one trailing `/`, a `//` inside), is
   * appended to that directory.
   */
  lemma ResolveInDirectory(name: string, dir: string)
    requires name != [] && name[0] != '/' && name[|name| - 1] != '/' && !Contains(name, "//")
    requires Contains(dir, "//") && |dir| >= 2 && dir[|dir| - 1] == '/'
    requires OccursAt(dir, "//", 0) || (dir[0] != '/' && dir[|dir| - 2] != '/')
    ensures FullyQualified(name, dir) == dir + name
  {
    TrimmedFixpoint(name, "/");
    assert Trimmed(name, "/") == name;
    if OccursAt(dir, "//", 0) {
      ProtocolRelativeJoin(name, dir);
      assert DropTrailingSlash(dir) + "/" == dir;
    } else {
      assert IndexOf(dir, "//") > 0;
      SchemeJoin(name, dir);
      DirectoryTrimmed(dir);
    }
  }

  /** A directory URL with no `/` at its start and one at its end loses just that one. */
  lemma DirectoryTrimmed(dir: string)
    requires |dir| >= 2 && dir[0] != '/' && dir[|dir| - 2] != '/' && dir[|dir| - 1] == '/'
    ensures Trimmed(dir, "/") + "/" == dir
  {
    var body := dir[..|dir| - 1];
    assert LeadingRun(dir, "/") == 0;
    assert TrailingRun(dir, "/") == 1;
    assert Trimmed(dir, "/") == body;
    assert dir == body + "/";
  }

  /** A string without `/` holds no `//`. */
  lemma NoSlashNotQualified(s: string)
    requires '/' !in s
    ensures !Contains(s, "//")
  {
    forall i | 0 <= i ensures !OccursAt(s, "//", i) {
      if i + 2 <= |s| {
        assert s[i] in s;
      }
    }
  }

  /** A relative name against a directory with a scheme. */
  lemma ResolveAgainstSchemeExample()
    ensures FullyQualified("thumb.jpg", "http://x.com/a/") == "http://x.com/a/" + "thumb.jpg"
  {
    var dir := "http://x.com/a/";
    assert Contains(dir, "//") by {
      assert OccursAt(dir, "//", 5);
    }
    assert !OccursAt(dir, "//", 0) by {
      assert dir[0] != '/';
    }
    assert dir[0] != '/' && dir[|dir| - 2] != '/' && dir[|dir| - 1] == '/';
    NoSlashNotQualified("thumb.jpg");
    ResolveInDirectory("thumb.jpg", dir);
  }

  /** A relative name against a protocol-relative directory. */
  lemma ResolveAgainstProtocolRelativeExample()
    ensures FullyQualified("thumb.jpg", "//x.com/a/") == "//x.com/a/" + "thumb.jpg"
  {
    var dir := "//x.com/a/";
    assert Contains(dir, "//") by {
      assert OccursAt(dir, "//", 0);
    }
    assert OccursAt(dir, "//", 0) && dir[|dir| - 1] == '/';
    NoSlashNotQualified("thumb.jpg");
    ResolveInDirectory("thumb.jpg", dir);
  }

  /** An already qualified reference is returned as it is. */
  lemma ResolveQualifiedExample()
    ensures FullyQualified("//x.com/b.jpg", "http://y.com/") == "//x.com/b.jpg"
  {
    assert OccursAt("//x.com/b.jpg", "//", 0);
  }

  // ---------------------------------------------------------------------------
  // directory of a URL
  // ---------------------------------------------------------------------------

  /**
   * `s.split(/([^\/]*)$/).shift()`: everything up to and including the last
   * `/`, or `""` when `s` has no `/`.
   */
  function DirOf(s: string): (d: string)
    ensures |d| <= |s| && d == s[..|d|]
    ensures d == [] || d[|d| - 1] == '/'
    ensures forall k :: |d| <= k < |s| ==> s[k] != '/'
  {
    if s == [] then []
    else if s[|s| - 1] == '/' then s
    else DirOf(s[..|s| - 1])
  }

  /** There is no directory part exactly when there is no `/`. */
  lemma DirOfEmptyIff(s: string)
    ensures DirOf(s) == [] <==> '/' !in s
  {
    var d := DirOf(s);
    if d != [] {
      assert s[|d| - 1] == '/';
    }
  }

  /** The directory of `dir + name`, where `name` holds no `/`, is `dir`. */
  lemma DirOfFile(dir: string, name: string)
    requires dir == [] || dir[|dir| - 1] == '/'
    requires '/' !in name
    ensures DirOf(dir + name) == dir
  {
    var s := dir + name;
    var d := DirOf(s);
    forall k | |dir| <= k < |s| ensures s[k] != '/' {
      assert s[k] == name[k - |dir|];
    }
    if dir != [] {
      assert s[|dir| - 1] == '/';
    }
    assert |d| == |dir|;
    assert d == s[..|dir|] == dir;
  }

  /** Taking the directory never loses a `//`. */
  lemma DirOfKeepsDoubleSlash(s: string)
    requires Contains(s, "//")
    ensures Contains(DirOf(s), "//")
  {
    var i := IndexOf(s, "//");
    var d := DirOf(s);
    assert s[i + 1] == "//"[1];
    assert |d| >= i + 2;
    assert d[i..i + 2] == s[i..i + 2];
    assert OccursAt(d, "//", i);
  }

  // ---------------------------------------------------------------------------
  // document base URL
  // ---------------------------------------------------------------------------

  /** The parts of `window.location` that `getBaseUrl` reads. */
  datatype Location = Location(protocol: string, hostname: string, port: string, pathname: string)

  /** The string index.js:110-119 joins: protocol, `//`, host, `:port` when there is a port, path. */
  function Href(loc: Location): string {
    loc.protocol + "//" + loc.hostname + (if loc.port != "" then ":" + loc.port else "") + loc.pathname
  }

  /** `getBaseUrl()`: the directory of the document location, always qualified. */
  function BaseUrl(loc: Location): (base: string)
    ensures Contains(base, "//")
    ensures base != [] && base[|base| - 1] == '/'
  {
    var href := Href(loc);
    assert OccursAt(href, "//", |loc.protocol|) by {
      assert href[|loc.protocol|..|loc.protocol| + 2] == "//";
    }
    DirOfKeepsDoubleSlash(href);
    DirOf(href)
  }
}
