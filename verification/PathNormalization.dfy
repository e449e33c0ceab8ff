/** normalizePath: dot-segment removal (compare section 5.2.4 of RFC 3986) as a fold of the segments over a stack. */
module PathNormalization {
  import opened Text

  /** The segments of `s` between slashes, when `current` has already been read. */
  function SplitFrom(current: string, s: string): (r: seq<string>)
    ensures r != []
    decreases |s|
  {
    if s == "" then [current]
    else if s[0] == '/' then [current] + SplitFrom("", s[1..])
    else SplitFrom(current + [s[0]], s[1..])
  }

  function Split(s: string): seq<string> { SplitFrom("", s) }

  /** Empty and "." segments do nothing; ".." pops, but never below the root. */
  function Step(parts: seq<string>, segment: string): seq<string> {
    if segment == "" || segment == "." then parts
    else if segment == ".." then if parts == [] then [] else parts[..|parts| - 1]
    else parts + [segment]
  }

  function Fold(parts: seq<string>, segments: seq<string>): seq<string>
    decreases |segments|
  {
    if segments == [] then parts else Fold(Step(parts, segments[0]), segments[1..])
  }

  /** The parts with a slash between neighbours. */
  function Join(parts: seq<string>): string {
    if parts == [] then "" else if |parts| == 1 then parts[0] else parts[0] + "/" + Join(parts[1..])
  }

  function Normalize(path: string): string { "/" + Join(Fold([], Split(path))) }

  predicate IsProper(segment: string) {
    segment != "" && segment != "." && segment != ".." && '/' !in segment
  }

  predicate AllProper(parts: seq<string>) { forall i :: 0 <= i < |parts| ==> IsProper(parts[i]) }

  /** "/" alone, or an absolute path whose segments are all proper. */
  predicate IsCanonical(path: string) {
    path == "/" || (Split(path)[0] == "" && |Split(path)| > 1 && AllProper(Split(path)[1..]))
  }

  // ---------------------------------------------------------------------------
  // The method
  // ---------------------------------------------------------------------------

  method NormalizePath(path: string) returns (result: string)
    ensures result == Normalize(path)
  {
    var parts: seq<string> := [];
    var current := "";
    assert path[0..] == path;
    for i := 0 to |path|
      invariant Fold(parts, SplitFrom(current, path[i..])) == Fold([], Split(path))
    {
      var rest := path[i..];
      assert rest[1..] == path[i + 1..];
      if path[i] == '/' {
        FoldFirst(parts, current, SplitFrom("", rest[1..]));
        if current != "" {
          if current == ".." {
            if parts != [] {
              parts := parts[..|parts| - 1];
            }
          } else if current != "." {
            parts := parts + [current];
          }
          current := "";
        }
      } else {
        current := current + [path[i]];
      }
    }
    FoldFirst(parts, current, []);
    if current != "" {
      if current == ".." {
        if parts != [] {
          parts := parts[..|parts| - 1];
        }
      } else if current != "." {
        parts := parts + [current];
      }
    }
    result := JoinParts(parts);
  }

  lemma FoldFirst(parts: seq<string>, segment: string, rest: seq<string>)
    ensures Fold(parts, [segment] + rest) == Fold(Step(parts, segment), rest)
  {
    assert ([segment] + rest)[1..] == rest;
  }

  method JoinParts(parts: seq<string>) returns (result: string)
    ensures result == "/" + Join(parts)
  {
    hide Join;
    result := "/";
    assert parts[..0] == [];
    JoinNothing();
    for i := 0 to |parts|
      invariant result == "/" + Join(parts[..i])
    {
      JoinSnoc(parts[..i], parts[i]);
      assert parts[..i + 1] == parts[..i] + [parts[i]];
      if i > 0 {
        result := result + "/";
      }
      result := result + parts[i];
    }
    assert parts[..|parts|] == parts;
  }

  lemma JoinNothing()
    ensures Join([]) == "" && "/" + "" == "/"
  {}

  lemma {:induction false} JoinSnoc(parts: seq<string>, last: string)
    ensures Join(parts + [last]) == if parts == [] then last else Join(parts) + "/" + last
    decreases |parts|
  {
    if parts != [] {
      assert (parts + [last])[1..] == parts[1..] + [last];
      JoinSnoc(parts[1..], last);
    }
  }

  // ---------------------------------------------------------------------------
  // Properties
  // ---------------------------------------------------------------------------

  lemma {:induction false} SplitSlash(current: string, a: string, b: string)
    ensures SplitFrom(current, a + "/" + b) == SplitFrom(current, a) + Split(b)
    decreases |a|
  {
    var s := a + "/" + b;
    if a == "" {
      assert s[1..] == b;
    } else {
      assert s[1..] == a[1..] + "/" + b;
      if a[0] == '/' {
        SplitSlash("", a[1..], b);
      } else {
        SplitSlash(current + [a[0]], a[1..], b);
      }
    }
  }

  lemma {:induction false} SplitPlain(current: string, s: string)
    requires '/' !in s
    ensures SplitFrom(current, s) == [current + s]
    decreases |s|
  {
    if s == "" {
      assert current + s == current;
    } else {
      assert s[0] in s;
      SplitPlain(current + [s[0]], s[1..]);
      assert current + [s[0]] + s[1..] == current + s;
    }
  }

  lemma {:induction false} SplitHasNoSlash(current: string, s: string)
    requires '/' !in current
    ensures forall i :: 0 <= i < |SplitFrom(current, s)| ==> '/' !in SplitFrom(current, s)[i]
    decreases |s|
  {
    if s != "" {
      if s[0] == '/' {
        SplitHasNoSlash("", s[1..]);
      } else {
        SplitHasNoSlash(current + [s[0]], s[1..]);
      }
    }
  }

  lemma {:induction false} FoldAppend(parts: seq<string>, a: seq<string>, b: seq<string>)
    ensures Fold(parts, a + b) == Fold(Fold(parts, a), b)
    decreases |a|
  {
    if a == [] {
      assert a + b == b;
    } else {
      assert (a + b)[1..] == a[1..] + b;
      FoldAppend(Step(parts, a[0]), a[1..], b);
    }
  }

  lemma {:induction false} FoldIsProper(parts: seq<string>, segments: seq<string>)
    requires AllProper(parts) && forall i :: 0 <= i < |segments| ==> '/' !in segments[i]
    ensures AllProper(Fold(parts, segments))
    decreases |segments|
  {
    if segments != [] {
      FoldIsProper(Step(parts, segments[0]), segments[1..]);
    }
  }

  /** Proper segments are pushed one after the other. */
  lemma {:induction false} FoldProper(parts: seq<string>, segments: seq<string>)
    requires AllProper(segments)
    ensures Fold(parts, segments) == parts + segments
    decreases |segments|
  {
    if segments == [] {
      assert parts + segments == parts;
    } else {
      FoldProper(parts + [segments[0]], segments[1..]);
      assert parts + [segments[0]] + segments[1..] == parts + segments;
    }
  }

  lemma SplitFirst(segment: string, tail: string)
    requires '/' !in segment
    ensures Split(segment + "/" + tail) == [segment] + Split(tail)
  {
    hide SplitFrom;
    SplitSlash("", segment, tail);
    SplitPlain("", segment);
    assert "" + segment == segment;
  }

  lemma {:induction false} SplitJoin(parts: seq<string>)
    requires AllProper(parts) && parts != []
    ensures Split(Join(parts)) == parts
    decreases |parts|
  {
    hide SplitFrom, Split;
    if |parts| == 1 {
      SplitSingle(parts[0]);
    } else {
      SplitJoin(parts[1..]);
      SplitFirst(parts[0], Join(parts[1..]));
    }
  }

  lemma SplitSingle(segment: string)
    requires '/' !in segment
    ensures Split(segment) == [segment]
  {
    SplitPlain("", segment);
    assert "" + segment == segment;
  }

  /** The stack that normalising ends with. */
  function Parts(path: string): seq<string> { Fold([], Split(path)) }

  lemma PartsAreProper(path: string)
    ensures AllProper(Parts(path))
  {
    SplitHasNoSlash("", path);
    FoldIsProper([], Split(path));
  }

  /** A joined stack splits into an empty first segment and the stack, or into two empty ones. */
  lemma SplitOfJoined(parts: seq<string>)
    requires AllProper(parts)
    ensures Split("/" + Join(parts)) == [""] + (if parts == [] then [""] else parts)
  {
    var s := "/" + Join(parts);
    assert s == "" + "/" + Join(parts);
    SplitSlash("", "", Join(parts));
    if parts != [] {
      SplitJoin(parts);
    }
  }

  lemma PartsOfJoined(parts: seq<string>)
    requires AllProper(parts)
    ensures Parts("/" + Join(parts)) == parts
  {
    SplitOfJoined(parts);
    FoldFirst([], "", if parts == [] then [""] else parts);
    if parts == [] {
      FoldFirst([], "", []);
      assert [""] + [] == [""];
    } else {
      FoldProper([], parts);
    }
  }

  /** The result is absolute and has no empty, "." or ".." segment. */
  lemma NormalizeIsCanonical(path: string)
    ensures IsCanonical(Normalize(path)) && Normalize(path)[0] == '/'
  {
    PartsAreProper(path);
    SplitOfJoined(Parts(path));
    assert Parts(path) == [] ==> Normalize(path) == "/";
  }

  lemma Idempotent(path: string)
    ensures Normalize(Normalize(path)) == Normalize(path)
  {
    PartsAreProper(path);
    PartsOfJoined(Parts(path));
  }

  /** Exactly the canonical paths are left as they are. */
  lemma FixedPoints(path: string)
    ensures Normalize(path) == path <==> IsCanonical(path)
  {
    NormalizeIsCanonical(path);
    if IsCanonical(path) && path != "/" {
      var tail := Split(path)[1..];
      assert Split(path) == [""] + tail;
      FoldFirst([], "", tail);
      FoldProper([], tail);
      assert [] + tail == tail;
      JoinSplit("", path);
    } else if path == "/" {
      assert "/" + Join([]) == path;
      PartsOfJoined([]);
    }
  }

  /** Joining the segments of a path gives the path back. */
  lemma {:induction false} JoinSplit(current: string, s: string)
    ensures Join(SplitFrom(current, s)) == current + s
    ensures |SplitFrom(current, s)| > 1 && SplitFrom(current, s)[0] == "" ==>
              current + s == "/" + Join(SplitFrom(current, s)[1..])
    decreases |s|
  {
    if s == "" {
      assert current + s == current;
    } else if s[0] == '/' {
      JoinSplit("", s[1..]);
      var rest := SplitFrom("", s[1..]);
      assert ([current] + rest)[1..] == rest;
      assert "" + s[1..] == s[1..];
      assert s == "/" + s[1..];
      assert current + "/" + s[1..] == current + s;
      assert Join(rest) == s[1..];
      assert Join([current] + rest) == current + "/" + Join(rest);
      assert current == "" ==> current + s == s;
    } else {
      JoinSplit(current + [s[0]], s[1..]);
      assert current + [s[0]] + s[1..] == current + s;
    }
  }

  /** Normalising the first half of a path beforehand changes nothing. */
  lemma NormalizePrefix(a: string, b: string)
    ensures Normalize(a + "/" + b) == Normalize(Normalize(a) + "/" + b)
  {
    SplitSlash("", a, b);
    SplitSlash("", Normalize(a), b);
    FoldAppend([], Split(a), Split(b));
    FoldAppend([], Split(Normalize(a)), Split(b));
    PartsAreProper(a);
    PartsOfJoined(Parts(a));
  }

  // ---------------------------------------------------------------------------
  // What determines the result
  // ---------------------------------------------------------------------------

  lemma PartsOfSum(a: string, b: string)
    ensures Parts(a + "/" + b) == Fold(Parts(a), Split(b))
  {
    SplitSlash("", a, b);
    FoldAppend([], Split(a), Split(b));
  }

  lemma PartsAfter(a: string, segment: string, b: string)
    requires '/' !in segment
    ensures Parts(a + "/" + segment + "/" + b) == Fold(Step(Parts(a), segment), Split(b))
  {
    hide SplitFrom, Fold, Step;
    assert a + "/" + segment + "/" + b == a + "/" + (segment + "/" + b);
    SplitFirst(segment, b);
    PartsOfSum(a, segment + "/" + b);
    FoldFirst(Parts(a), segment, Split(b));
  }

  /** A segment and the ".." behind it go together. */
  lemma DotDotPops(a: string, segment: string, b: string)
    requires IsProper(segment)
    ensures Normalize(a + "/" + segment + "/../" + b) == Normalize(a + "/" + b)
  {
    hide SplitFrom, Fold, Split;
    var front := a + "/" + segment;
    assert front + "/" + ".." + "/" + b == a + "/" + segment + "/../" + b;
    PartsAfter(front, "..", b);
    PartsOfSum(a, segment);
    SplitSingle(segment);
    FoldFirst(Parts(a), segment, []);
    FoldNothing(Parts(a) + [segment]);
    assert [segment] + [] == [segment];
    assert (Parts(a) + [segment])[..|Parts(a)|] == Parts(a);
    PartsOfSum(a, b);
  }

  lemma FoldNothing(parts: seq<string>)
    ensures Fold(parts, []) == parts
  {}

  /** ".." at the root stays there. */
  lemma DotDotAtRoot(b: string)
    ensures Normalize("/../" + b) == Normalize("/" + b)
  {
    hide SplitFrom, Fold, Split;
    assert "" + "/" + ".." + "/" + b == "/../" + b && "" + "/" + b == "/" + b;
    PartsAfter("", "..", b);
    PartsOfSum("", b);
    NoParts();
  }

  lemma NoParts()
    ensures Parts("") == []
  {
    SplitSingle("");
    FoldFirst([], "", []);
    assert [""] + [] == [""];
  }

  lemma DotIsDropped(a: string, b: string)
    ensures Normalize(a + "/./" + b) == Normalize(a + "/" + b)
  {
    hide SplitFrom, Fold, Split;
    assert a + "/" + "." + "/" + b == a + "/./" + b;
    PartsAfter(a, ".", b);
    PartsOfSum(a, b);
  }

  lemma SlashesMerge(a: string, b: string)
    ensures Normalize(a + "//" + b) == Normalize(a + "/" + b)
  {
    hide SplitFrom, Fold, Split;
    assert a + "/" + "" + "/" + b == a + "//" + b;
    PartsAfter(a, "", b);
    PartsOfSum(a, b);
  }

  /** Slashes at either end do not matter. */
  lemma OuterSlashes(a: string)
    ensures Normalize("/" + a) == Normalize(a) == Normalize(a + "/")
  {
    hide SplitFrom, Split;
    assert "" + "/" + a == "/" + a && a + "/" + "" == a + "/";
    PartsOfSum("", a);
    NoParts();
    PartsOfSum(a, "");
    SplitSingle("");
    FoldFirst(Parts(a), "", []);
    assert [""] + [] == [""];
  }

  /** The laws of dot-segment removal, of which none says how it is computed. */
  ghost predicate RemovesDots(n: string -> string) {
    && (forall a :: IsCanonical(a) ==> n(a) == a)
    && (forall a :: n("/" + a) == n(a) == n(a + "/"))
    && (forall a, b :: n(a + "//" + b) == n(a + "/" + b))
    && (forall a, b :: n(a + "/./" + b) == n(a + "/" + b))
    && (forall b :: n("/../" + b) == n("/" + b))
    && (forall a, segment, b :: IsProper(segment) ==> n(a + "/" + segment + "/../" + b) == n(a + "/" + b))
  }

  /** Normalising obeys them. */
  lemma NormalizeRemovesDots()
    ensures RemovesDots(Normalize)
  {
    hide Normalize, IsCanonical;
    forall a ensures IsCanonical(a) ==> Normalize(a) == a {
      FixedPoints(a);
    }
    forall a ensures Normalize("/" + a) == Normalize(a) == Normalize(a + "/") {
      OuterSlashes(a);
    }
    forall a, b ensures Normalize(a + "//" + b) == Normalize(a + "/" + b) {
      SlashesMerge(a, b);
    }
    forall a, b ensures Normalize(a + "/./" + b) == Normalize(a + "/" + b) {
      DotIsDropped(a, b);
    }
    forall b ensures Normalize("/../" + b) == Normalize("/" + b) {
      DotDotAtRoot(b);
    }
    forall a, segment, b | IsProper(segment)
      ensures Normalize(a + "/" + segment + "/../" + b) == Normalize(a + "/" + b)
    {
      DotDotPops(a, segment, b);
    }
  }

  /** The parts, each behind a slash. */
  function Rooted(parts: seq<string>): string {
    if parts == [] then "" else Rooted(parts[..|parts| - 1]) + "/" + parts[|parts| - 1]
  }

  lemma {:induction false} RootedIsJoined(parts: seq<string>)
    requires parts != []
    ensures Rooted(parts) == "/" + Join(parts)
    decreases |parts|
  {
    var init, last := parts[..|parts| - 1], parts[|parts| - 1];
    assert parts == init + [last];
    JoinSnoc(init, last);
    if init == [] {
      assert Rooted(parts) == "" + "/" + last;
    } else {
      RootedIsJoined(init);
    }
  }

  lemma {:induction false} RootedAppend(a: seq<string>, b: seq<string>)
    ensures Rooted(a + b) == Rooted(a) + Rooted(b)
    decreases |b|
  {
    if b == [] {
      assert a + b == a && Rooted(a) + "" == Rooted(a);
    } else {
      var init, last := b[..|b| - 1], b[|b| - 1];
      assert (a + b)[..|a + b| - 1] == a + init;
      RootedAppend(a, init);
      assert Rooted(a) + Rooted(init) + "/" + last == Rooted(a) + (Rooted(init) + "/" + last);
    }
  }

  /** Proper segments behind proper segments are all kept. */
  lemma NormalizeRooted(a: seq<string>, b: seq<string>)
    requires AllProper(a) && AllProper(b)
    ensures Normalize(Rooted(a) + "/" + Rooted(b)) == if a + b == [] then "/" else Rooted(a + b)
  {
    hide Normalize, Rooted;
    NormalizeOne(a);
    NormalizeOne(a + b);
    RootedAppend(a, b);
    if b == [] {
      assert Rooted(b) == "" by { NothingRooted(); }
      assert Rooted(a) + "/" + "" == Rooted(a) + "/" && a + b == a;
      OuterSlashes(Rooted(a));
    } else {
      RootedIsJoined(b);
      var tail := Join(b);
      SlashesMerge(Rooted(a), tail);
      assert Rooted(a) + "/" + ("/" + tail) == Rooted(a) + "//" + tail;
      assert Rooted(a) + "/" + tail == Rooted(a + b);
    }
  }

  lemma NothingRooted()
    ensures Rooted([]) == ""
  {}

  lemma NormalizeOne(parts: seq<string>)
    requires AllProper(parts)
    ensures Normalize(Rooted(parts)) == if parts == [] then "/" else Rooted(parts)
  {
    hide Fold, Split;
    if parts == [] {
      NoParts();
    } else {
      RootedIsJoined(parts);
      PartsOfJoined(parts);
    }
  }

  /** A stack that has been rewritten to, the segments that are still to come, and a slash at the end. */
  lemma {:induction false} Rewrites(n: string -> string, parts: seq<string>, segments: seq<string>)
    requires RemovesDots(n) && AllProper(parts) && forall i :: 0 <= i < |segments| ==> '/' !in segments[i]
    ensures n(Rooted(parts) + "/" + Join(segments + [""])) == "/" + Join(Fold(parts, segments))
    decreases |segments|
  {
    hide RemovesDots, IsCanonical, Step;
    if segments == [] {
      assert [] + [""] == [""];
      RewritesEnd(n, parts);
    } else {
      var rest := segments[1..];
      assert (segments + [""])[1..] == rest + [""];
      RewritesOne(n, parts, segments[0], Join(rest + [""]));
      assert Join(segments + [""]) == segments[0] + "/" + Join(rest + [""]);
      assert Rooted(parts) + "/" + Join(segments + [""]) == Rooted(parts) + "/" + segments[0] + "/" + Join(rest + [""]);
      StepIsProper(parts, segments[0]);
      Rewrites(n, Step(parts, segments[0]), rest);
    }
  }

  lemma StepIsProper(parts: seq<string>, segment: string)
    requires AllProper(parts) && '/' !in segment
    ensures AllProper(Step(parts, segment))
  {}

  lemma LawOfEnds(n: string -> string, a: string)
    requires RemovesDots(n)
    ensures n("/" + a) == n(a) == n(a + "/")
  {}

  lemma LawOfSegments(n: string -> string, a: string, b: string)
    requires RemovesDots(n)
    ensures n(a + "//" + b) == n(a + "/" + b) && n(a + "/./" + b) == n(a + "/" + b) && n("/../" + b) == n("/" + b)
  {}

  lemma LawOfDotDot(n: string -> string, a: string, segment: string, b: string)
    requires RemovesDots(n) && IsProper(segment)
    ensures n(a + "/" + segment + "/../" + b) == n(a + "/" + b)
  {}

  lemma LawOfCanonical(n: string -> string, a: string)
    requires RemovesDots(n) && IsCanonical(a)
    ensures n(a) == a
  {
    hide IsCanonical;
  }

  lemma RewritesEnd(n: string -> string, parts: seq<string>)
    requires RemovesDots(n) && AllProper(parts)
    ensures n(Rooted(parts) + "/" + "") == "/" + Join(parts)
  {
    hide RemovesDots;
    if parts == [] {
      assert "" + "/" + "" == "/" && IsCanonical("/");
      LawOfCanonical(n, "/");
    } else {
      RootedIsJoined(parts);
      var path := Rooted(parts);
      SplitOfJoined(parts);
      assert Split(path)[1..] == parts;
      LawOfCanonical(n, path);
      assert path + "/" + "" == path + "/";
      LawOfEnds(n, path);
    }
  }

  lemma RewritesOne(n: string -> string, parts: seq<string>, segment: string, tail: string)
    requires RemovesDots(n) && AllProper(parts) && '/' !in segment
    ensures n(Rooted(parts) + "/" + segment + "/" + tail) == n(Rooted(Step(parts, segment)) + "/" + tail)
  {
    hide RemovesDots, IsCanonical;
    var a := Rooted(parts);
    LawOfSegments(n, a, tail);
    if segment == "" {
      assert a + "/" + "" + "/" + tail == a + "//" + tail;
    } else if segment == "." {
      assert a + "/" + "." + "/" + tail == a + "/./" + tail;
    } else if segment == ".." {
      if parts == [] {
        assert a + "/" + ".." + "/" + tail == "/../" + tail && a + "/" + tail == "/" + tail;
      } else {
        var init, last := parts[..|parts| - 1], parts[|parts| - 1];
        assert a + "/" + ".." + "/" + tail == Rooted(init) + "/" + last + "/../" + tail;
        LawOfDotDot(n, Rooted(init), last, tail);
      }
    } else {
      assert (parts + [segment])[..|parts|] == parts;
    }
  }

  /** And nothing else does: the laws determine the result of every path. */
  lemma LawsDetermine(n: string -> string, path: string)
    requires RemovesDots(n)
    ensures n(path) == Normalize(path)
  {
    hide RemovesDots, SplitFrom, Fold;
    SplitHasNoSlash("", path);
    Rewrites(n, [], Split(path));
    JoinSplit("", path);
    JoinSnoc(Split(path), "");
    assert "" + path == path;
    assert "" + "/" + (path + "/" + "") == "/" + (path + "/");
    LawOfEnds(n, path + "/");
    LawOfEnds(n, path);
  }
}
