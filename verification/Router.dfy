/** Mapping a URI into the file system, and the script/PATH_INFO split (sections 4.1.5 and 4.1.13 of RFC 3875). */
module Routing {
  import opened Http
  import opened Text
  import opened PathNormalization

  datatype Resource = RED | CGI | FILES | DIRECTORY_LISTING | UPLOAD | ERR

  datatype FileKind = Missing | Regular | Directory | Special

  datatype LocationConfig = LocationConfig(path: string, root: string, cgiPath: string, cgiExtension: seq<string>)

  /** std::string::find_last_of with a single character. */
  function LastOf(s: string, c: char): (r: Option<nat>)
    ensures r == None <==> c !in s
    ensures r.Some? ==> r.value < |s| && s[r.value] == c && c !in s[r.value + 1..]
  {
    if s == "" then None
    else
      var n := |s| - 1;
      assert s == s[..n] + [s[n]];
      if s[n] == c then Some(n)
      else
        var r := LastOf(s[..n], c);
        assert r.Some? ==> s[r.value + 1..] == s[..n][r.value + 1..] + [s[n]];
        r
  }

  /** The file has an extension that the location runs as CGI. */
  predicate HasCgiExtension(loc: LocationConfig, path: string) {
    var dot := LastOf(path, '.');
    dot.Some? && path[dot.value..] in loc.cgiExtension
  }

  function StripSlashes(s: string): (r: string)
    ensures r <= s && (r == "" <==> s == "") && forall i :: |r| <= i < |s| ==> s[i] == '/'
    ensures |r| > 1 ==> r[|r| - 1] != '/'
  {
    if |s| > 1 && s[|s| - 1] == '/' then StripSlashes(s[..|s| - 1]) else s
  }

  /**
   * The lengths at which the search tries a prefix of `uri`: all of it, and before every slash but the first character.
   */
  predicate IsTested(uri: string, k: nat) {
    k == |uri| || (0 < k < |uri| && uri[k] == '/')
  }

  lemma BareRest(root: string, rest: string)
    ensures var bare := if rest != "" && rest[0] == '/' then rest[1..] else rest;
            Normalize(root + "/" + rest) == Normalize(root + "/" + bare)
  {
    hide Normalize;
    if rest != "" && rest[0] == '/' {
      SlashesMerge(root, rest[1..]);
      assert root + "/" + rest == root + "//" + rest[1..];
    }
  }

  lemma SlashedRoot(root: string, bare: string)
    ensures var slashed := if root != "" && root[|root| - 1] != '/' then root + "/" else root;
            Normalize(slashed + bare) == Normalize(root + "/" + bare)
  {
    hide Normalize;
    if root == "" {
      OuterSlashes(bare);
      assert root + "/" + bare == "/" + bare && "" + bare == bare;
    } else if root[|root| - 1] == '/' {
      var front := root[..|root| - 1];
      SlashesMerge(front, bare);
      assert root == front + "/";
      assert root + "/" + bare == front + "//" + bare;
    }
  }

  class Router {
    const serverRoot: string
    const reqUri: string
    const stat: string -> FileKind
    const withinRoot: (string, string) -> bool

    var kind: Resource
    var status: int
    var filePath: string
    var cgiExt: string
    var scriptPath: string
    var scriptName: string
    var pathInfo: string
    var cgiPath: string

    constructor (serverRoot: string, reqUri: string, stat: string -> FileKind, withinRoot: (string, string) -> bool)
      ensures this.serverRoot == serverRoot && this.reqUri == reqUri && this.stat == stat
      ensures this.withinRoot == withinRoot
      ensures kind == ERR && status == 0
    {
      this.serverRoot, this.reqUri, this.stat, this.withinRoot := serverRoot, reqUri, stat, withinRoot;
      kind, status := ERR, 0;
      filePath, cgiExt, scriptPath, scriptName, pathInfo, cgiPath := "", "", "", "", "", "";
    }

    /** The root that applies, with a slash at its end. */
    function Root(loc: Option<LocationConfig>): string {
      var root := if loc.Some? && loc.value.root != "" then loc.value.root else serverRoot;
      if root != "" && root[|root| - 1] != '/' then root + "/" else root
    }

    /** The URI behind the location's path, without its leading slash. */
    function RelativePath(loc: Option<LocationConfig>, uri: string): string {
      var relative := if loc.Some? && At(uri, loc.value.path, 0) then uri[|loc.value.path|..] else uri;
      if relative != "" && relative[0] == '/' then relative[1..] else relative
    }

    /** The file a URI stands for; "" if it is outside the root. */
    function Mapped(loc: Option<LocationConfig>, uri: string): string {
      var full := Normalize(Root(loc) + RelativePath(loc, uri));
      if withinRoot(full, Root(loc)) then full else ""
    }

    /** The location's root, or the server's if there is no location or it has none. */
    function RawRoot(loc: Option<LocationConfig>): string {
      if loc.Some? && loc.value.root != "" then loc.value.root else serverRoot
    }

    /** Whatever slashes stand between them, a URI is mapped to the root, a slash and what is behind the location. */
    lemma MappedUnderRoot(loc: Option<LocationConfig>, uri: string, rest: string)
      requires uri == (if loc.Some? && loc.value.path <= uri then loc.value.path else "") + rest
      ensures var full := Normalize(RawRoot(loc) + "/" + rest);
              Mapped(loc, uri) == if withinRoot(full, Root(loc)) then full else ""
    {
      hide Normalize, RelativePath;
      RestOf(loc, uri, rest);
      BareRest(RawRoot(loc), rest);
      SlashedRoot(RawRoot(loc), RelativePath(loc, uri));
    }

    lemma RestOf(loc: Option<LocationConfig>, uri: string, rest: string)
      requires uri == (if loc.Some? && loc.value.path <= uri then loc.value.path else "") + rest
      ensures RelativePath(loc, uri) == if rest != "" && rest[0] == '/' then rest[1..] else rest
    {
      if loc.Some? {
        assert At(uri, loc.value.path, 0) <==> loc.value.path <= uri;
      }
      assert "" + rest == rest;
    }

    /** The segments behind the location, put behind those of the root. */
    lemma MappedFile(loc: Option<LocationConfig>, uri: string, root: seq<string>, segments: seq<string>)
      requires AllProper(root) && AllProper(segments) && RawRoot(loc) == Rooted(root)
      requires uri == (if loc.Some? && loc.value.path <= uri then loc.value.path else "") + Rooted(segments)
      ensures var full := if root + segments == [] then "/" else Rooted(root + segments);
              Mapped(loc, uri) == if withinRoot(full, Root(loc)) then full else ""
    {
      hide Normalize, Rooted;
      MappedUnderRoot(loc, uri, Rooted(segments));
      NormalizeRooted(root, segments);
    }

    method MapURI(loc: Option<LocationConfig>, uri: string) returns (path: string)
      ensures path == Mapped(loc, uri)
      ensures path != "" ==> IsCanonical(path) && withinRoot(path, Root(loc))
    {
      hide Normalize, IsCanonical, At;
      var root := serverRoot;
      if loc.Some? && loc.value.root != "" {
        root := loc.value.root;
      }
      if root != "" && root[|root| - 1] != '/' {
        root := root + "/";
      }
      assert root == Root(loc);
      var relative := uri;
      if loc.Some? && At(uri, loc.value.path, 0) {
        AtFits(uri, loc.value.path, 0);
        relative := uri[|loc.value.path|..];
      }
      ghost var bare := relative;
      if relative == "" || relative[0] != '/' {
        relative := "/" + relative;
      }
      assert relative[0] == '/' && relative[1..] == if bare != "" && bare[0] == '/' then bare[1..] else bare;
      if relative != "" && relative[0] == '/' {
        relative := relative[1..];
      }
      assert relative == RelativePath(loc, uri);
      hide Root, RelativePath;
      path := NormalizePath(root + relative);
      NormalizeIsCanonical(root + relative);
      if !withinRoot(path, root) {
        path := "";
      }
    }

    method IsCGI(loc: Option<LocationConfig>, path: string) returns (found: bool)
      modifies `cgiExt
      ensures found <==> loc.Some? && HasCgiExtension(loc.value, path)
      ensures found ==> cgiExt == path[LastOf(path, '.').value..]
      ensures !found ==> cgiExt == old(cgiExt)
    {
      if loc == None || loc.value.cgiExtension == [] {
        return false;
      }
      var dot := LastOf(path, '.');
      if dot == None {
        return false;
      }
      var extension := path[dot.value..];
      for i := 0 to |loc.value.cgiExtension|
        invariant cgiExt == old(cgiExt) && extension !in loc.value.cgiExtension[..i]
      {
        if extension == loc.value.cgiExtension[i] {
          cgiExt := extension;
          return true;
        }
      }
      return false;
    }

    method FinalizeCgiRoute(loc: Option<LocationConfig>, scriptFsPath: string, scriptUri: string, info: string)
      modifies `kind, `filePath, `scriptPath, `pathInfo, `scriptName, `cgiPath
      ensures kind == CGI && filePath == scriptPath == scriptFsPath && pathInfo == info
      ensures cgiPath == if loc.Some? then loc.value.cgiPath else ""
      ensures scriptName == if scriptUri != "" then scriptUri else Normalize(reqUri)
    {
      kind := CGI;
      filePath := scriptFsPath;
      scriptPath := scriptFsPath;
      pathInfo := info;
      if scriptUri != "" {
        scriptName := scriptUri;
      } else {
        scriptName := NormalizePath(reqUri);
      }
      cgiPath := if loc.Some? then loc.value.cgiPath else "";
    }

    /** The prefix names a regular file that the location runs as CGI. */
    predicate IsScript(loc: LocationConfig, uri: string) {
      var mapped := Mapped(Some(loc), uri);
      mapped != "" && stat(mapped) == Regular && HasCgiExtension(loc, mapped)
    }

    /** One of the prefixes that the search tries is a script. */
    predicate IsScriptPrefix(loc: LocationConfig, uri: string, k: nat) {
      k <= |uri| && IsTested(uri, k) && IsScript(loc, uri[..k])
    }

    /** `k` is the length of the longest of them. */
    ghost predicate IsLongestScript(loc: LocationConfig, uri: string, k: nat) {
      IsScriptPrefix(loc, uri, k) && forall j: nat :: IsScriptPrefix(loc, uri, j) ==> j <= k
    }

    /** Cut segments off the end of the URI until what is left is a script. */
    method SearchScript(loc: LocationConfig, uri: string)
      returns (found: bool, candidate: string, info: string, mapped: string)
      modifies `cgiExt
      ensures found <==> exists k: nat :: IsScriptPrefix(loc, uri, k)
      ensures found ==>
                && candidate + info == uri && IsLongestScript(loc, uri, |candidate|)
                && mapped == Mapped(Some(loc), candidate)
    {
      candidate, info := uri, "";
      while true
        invariant candidate + info == uri && IsTested(uri, |candidate|)
        invariant forall j: nat :: IsScriptPrefix(loc, uri, j) ==> j <= |candidate|
        decreases |candidate|
      {
        hide Mapped, IsTested, HasCgiExtension;
        mapped := MapURI(Some(loc), candidate);
        assert candidate == uri[..|candidate|];
        if mapped != "" && stat(mapped) == Regular {
          var isCgi := IsCGI(Some(loc), mapped);
          if isCgi {
            assert IsScriptPrefix(loc, uri, |candidate|);
            return true, candidate, info, mapped;
          }
        }
        assert !IsScriptPrefix(loc, uri, |candidate|);
        var slash := LastOf(candidate, '/');
        if slash == None || slash.value == 0 {
          NoneShorter(uri, |candidate|);
          break;
        }
        NoneBetween(uri, |candidate|, slash.value);
        MoveSegment(candidate, info, slash.value);
        info := candidate[slash.value..] + info;
        candidate := candidate[..slash.value];
      }
      found := false;
    }

    /** Split the URI into the script and the path info behind it. */
    method ResolveCgiPathInfo(loc: Option<LocationConfig>, safeUri: string) returns (found: bool)
      modifies this
      ensures loc == None || loc.value.cgiExtension == [] ==> !found
      ensures loc.Some? && loc.value.cgiExtension != [] ==>
                (found <==> exists k: nat :: IsScriptPrefix(loc.value, StripSlashes(safeUri), k))
      ensures found ==>
                exists k: nat ::
                  && IsLongestScript(loc.value, StripSlashes(safeUri), k)
                  && Resolved(loc.value, StripSlashes(safeUri), k)
      ensures found && loc.value.cgiPath != "" && safeUri == Normalize(reqUri) ==>
                scriptName + pathInfo == safeUri && (pathInfo == "" || pathInfo[0] == '/')
      ensures !found ==> kind == old(kind) && status == old(status) && filePath == old(filePath)
      ensures !found ==> scriptName == old(scriptName) && pathInfo == old(pathInfo)
    {
      if loc == None || loc.value.cgiExtension == [] {
        return false;
      }
      var uri := safeUri;
      while |uri| > 1 && uri[|uri| - 1] == '/'
        invariant StripSlashes(uri) == StripSlashes(safeUri)
      {
        uri := uri[..|uri| - 1];
      }
      var candidate, info, mapped;
      found, candidate, info, mapped := SearchScript(loc.value, uri);
      if found {
        assert candidate == uri[..|candidate|] && info == uri[|candidate|..];
        if loc.value.cgiPath == "" {
          kind := ERR;
          status := INTERNAL_SERVER_ERROR;
        } else {
          FinalizeCgiRoute(loc, mapped, candidate, info);
          CanonicalIsStripped(reqUri);
        }
        hide IsLongestScript, Mapped;
        assert Resolved(loc.value, uri, |candidate|);
      }
    }

    /** What the result says once the prefix of length `k` is the script. */
    ghost predicate Resolved(loc: LocationConfig, uri: string, k: nat)
      requires k <= |uri|
      reads this
    {
      if loc.cgiPath == "" then kind == ERR && status == INTERNAL_SERVER_ERROR
      else
        && kind == CGI && filePath == scriptPath == Mapped(Some(loc), uri[..k]) && cgiPath == loc.cgiPath
        && pathInfo == uri[k..]
        && (uri != "" ==> scriptName == uri[..k])
    }
  }

  lemma NoneShorter(uri: string, k: nat)
    requires k <= |uri| && (LastOf(uri[..k], '/') == None || LastOf(uri[..k], '/').value == 0)
    ensures forall j :: 0 <= j < k ==> !IsTested(uri, j)
  {
    var t := uri[..k];
    forall j | 0 <= j < k ensures !IsTested(uri, j) {
      assert uri[j] == t[j];
      if j > 0 {
        assert t[j] == t[1..][j - 1];
        assert '/' !in t[1..];
      }
    }
  }

  lemma MoveSegment(a: string, b: string, k: nat)
    requires k <= |a|
    ensures a[..k] + (a[k..] + b) == a + b
  {}

  lemma NoneBetween(uri: string, k: nat, slash: nat)
    requires k <= |uri| && LastOf(uri[..k], '/') == Some(slash) && slash > 0
    ensures slash < k && IsTested(uri, slash)
    ensures forall j :: slash < j < k ==> !IsTested(uri, j)
  {
    var t := uri[..k];
    forall j | slash < j < k ensures !IsTested(uri, j) {
      assert uri[j] == t[j] == t[slash + 1..][j - slash - 1];
    }
  }

  /** A normalised path is "/" or does not end in a slash: the stripping loop leaves it alone. */
  lemma CanonicalIsStripped(path: string)
    ensures Normalize(path) != "" && StripSlashes(Normalize(path)) == Normalize(path)
  {
    var parts := Parts(path);
    PartsAreProper(path);
    if parts != [] {
      JoinedEnd(parts);
    }
  }

  lemma {:induction false} JoinedEnd(parts: seq<string>)
    requires AllProper(parts) && parts != []
    ensures var s := Join(parts); s != "" && s[|s| - 1] != '/'
    decreases |parts|
  {
    if |parts| > 1 {
      JoinedEnd(parts[1..]);
    }
  }
}
