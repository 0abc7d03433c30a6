/**
 Path confinement. Two tests, written in different ways in different files, decide whether a
 path lies under the configured root: a string-prefix test on the cleaned path and one based on
 the relative path. Both are shown to mean the same thing: the segments of the root are a prefix
 of the segments of the cleaned path.
 */
module Paths {
  import opened Text
  import opened Wrappers

  /** An absolute path as the names that lead to it from the file-system root. */
  type Path = seq<string>

  predicate IsSegment(s: string) {
    s != "" && s != "." && s != ".." && '/' !in s
  }

  predicate IsPath(p: Path) {
    forall i :: 0 <= i < |p| ==> IsSegment(p[i])
  }

  predicate IsAbs(p: string) {
    HasPrefix(p, "/")
  }

  /** Resolves ".", ".." and empty names, as the Clean functions of Go do for absolute paths. */
  function Resolve(parts: seq<string>, done: Path): (p: Path)
    requires forall i :: 0 <= i < |parts| ==> '/' !in parts[i]
    requires IsPath(done)
    ensures IsPath(p)
  {
    if parts == [] then done
    else if parts[0] == "" || parts[0] == "." then Resolve(parts[1..], done)
    else if parts[0] == ".." then Resolve(parts[1..], if done == [] then [] else done[..|done| - 1])
    else Resolve(parts[1..], done + [parts[0]])
  }

  function Segments(p: string): (segments: Path)
    ensures IsPath(segments)
  {
    Resolve(Split(p, '/'), [])
  }

  function Render(p: Path): string {
    "/" + Join(p, "/")
  }

  /** `path.Clean` and `filepath.Clean`, for absolute paths. */
  function Clean(p: string): string {
    Render(Segments(p))
  }

  lemma {:induction false} ResolveOfPath(p: Path, done: Path)
    requires IsPath(p) && IsPath(done)
    ensures Resolve(p, done) == done + p
  {
    if p == [] {
      assert done + p == done;
    } else {
      ResolveOfPath(p[1..], done + [p[0]]);
      assert done + [p[0]] + p[1..] == done + p;
    }
  }

  /** Rendering a path and reading it again is the identity. */
  lemma SegmentsOfRender(p: Path)
    requires IsPath(p)
    ensures Segments(Render(p)) == p
  {
    if p == [] {
      SplitOfConcat("", '/', "");
      assert Render(p) == "" + ['/'] + "";
      assert Split("", '/') == [""];
      assert Split(Render(p), '/') == ["", ""];
      assert ["", ""][1..] == [""] && [""][1..] == [];
    } else {
      var body := Join(p, "/");
      SplitOfConcat("", '/', body);
      assert Render(p) == "" + ['/'] + body;
      SplitOfJoin(p, '/');
      assert Split("", '/') == [""];
      assert Split(Render(p), '/') == [""] + p;
      assert ([""] + p)[1..] == p;
      ResolveOfPath(p, []);
      assert [] + p == p;
    }
  }

  lemma CleanIsIdempotent(p: string)
    ensures Clean(Clean(p)) == Clean(p)
  {
    SegmentsOfRender(Segments(p));
  }

  lemma RenderIsInjective(p: Path, q: Path)
    requires IsPath(p) && IsPath(q) && Render(p) == Render(q)
    ensures p == q
  {
    SegmentsOfRender(p);
    SegmentsOfRender(q);
  }

  // --------------------------------------------------- joining a name to a path

  /** The names of a cleaned relative path; it may lead up first. */
  predicate IsTrail(p: seq<string>) {
    forall i :: 0 <= i < |p| ==> p[i] != "" && p[i] != "." && '/' !in p[i]
  }

  /** Resolves a relative path; ".." takes back a name, or leads up when there is none. */
  function Retrace(parts: seq<string>, done: seq<string>): (p: seq<string>)
    requires forall i :: 0 <= i < |parts| ==> '/' !in parts[i]
    requires IsTrail(done)
    ensures IsTrail(p)
  {
    if parts == [] then done
    else if parts[0] == "" || parts[0] == "." then Retrace(parts[1..], done)
    else if parts[0] == ".." && done != [] && done[|done| - 1] != ".." then Retrace(parts[1..], done[..|done| - 1])
    else Retrace(parts[1..], done + [parts[0]])
  }

  /** What lies between the slashes of a cleaned path; an absolute one starts with nothing. */
  function Parts(p: string): (parts: seq<string>)
    ensures forall i :: 0 <= i < |parts| ==> '/' !in parts[i]
  {
    if IsAbs(p) then [""] + Segments(p) else Retrace(Split(p, '/'), [])
  }

  /** `path.Clean`. */
  function CleanPath(p: string): string {
    if IsAbs(p) then Clean(p) else if Parts(p) == [] then "." else Join(Parts(p), "/")
  }

  /** `path.Join` of a directory and a name. */
  function JoinPath(dir: string, name: string): string
    requires name != ""
  {
    CleanPath(if dir == "" then name else dir + "/" + name)
  }

  lemma {:induction false} ResolveSnoc(parts: seq<string>, name: string, done: Path)
    requires forall i :: 0 <= i < |parts| ==> '/' !in parts[i]
    requires IsPath(done) && IsSegment(name)
    ensures forall i :: 0 <= i < |parts + [name]| ==> '/' !in (parts + [name])[i]
    ensures Resolve(parts + [name], done) == Resolve(parts, done) + [name]
  {
    if parts == [] {
      assert parts + [name] == [name];
    } else {
      assert (parts + [name])[1..] == parts[1..] + [name];
      ResolveSnoc(parts[1..], name, if parts[0] == "" || parts[0] == "." then done
                                    else if parts[0] != ".." then done + [parts[0]]
                                    else if done == [] then [] else done[..|done| - 1]);
    }
  }

  lemma {:induction false} RetraceSnoc(parts: seq<string>, name: string, done: seq<string>)
    requires forall i :: 0 <= i < |parts| ==> '/' !in parts[i]
    requires IsTrail(done) && IsSegment(name)
    ensures forall i :: 0 <= i < |parts + [name]| ==> '/' !in (parts + [name])[i]
    ensures Retrace(parts + [name], done) == Retrace(parts, done) + [name]
  {
    if parts == [] {
      assert parts + [name] == [name];
    } else {
      assert (parts + [name])[1..] == parts[1..] + [name];
      RetraceSnoc(parts[1..], name, if parts[0] == "" || parts[0] == "." then done
                                    else if parts[0] == ".." && done != [] && done[|done| - 1] != ".." then done[..|done| - 1]
                                    else done + [parts[0]]);
    }
  }

  lemma PartsOfJoin(dir: string, name: string)
    requires IsSegment(name)
    ensures Parts(if dir == "" then name else dir + "/" + name) == Parts(dir) + [name]
  {
    SplitWithoutSeparator(name, '/');
    if dir == "" {
      RetraceSnoc([""], name, []);
      RetraceSnoc([], name, []);
      assert Split("", '/') == [""] && [""][1..] == [] && [] + [name] == [name];
      assert Parts("") == [];
    } else {
      SplitOfConcat(dir, '/', name);
      assert dir + "/" + name == dir + ['/'] + name;
      assert IsAbs(dir + "/" + name) == IsAbs(dir);
      ResolveSnoc(Split(dir, '/'), name, []);
      RetraceSnoc(Split(dir, '/'), name, []);
    }
  }

  /** Joining a name adds it to the parts, for absolute and relative directories. */
  lemma JoinPathAddsName(dir: string, name: string)
    requires IsSegment(name)
    ensures JoinPath(dir, name) == Join(Parts(dir) + [name], "/")
    ensures Split(JoinPath(dir, name), '/') == Parts(dir) + [name]
  {
    PartsOfJoin(dir, name);
    var p, parts := if dir == "" then name else dir + "/" + name, Parts(dir) + [name];
    if IsAbs(p) {
      assert parts == [""] + Segments(p);
      JoinOfConcat([""], Segments(p), "/");
    }
    SplitOfJoin(parts, '/');
  }

  // --------------------------------------------------- the string-prefix test

  /** The containment test of `sanitizeScanPaths`, on two cleaned paths. */
  predicate UnderByPrefix(root: string, clean: string) {
    !(root != "/" && clean != root && !HasPrefix(clean, root + "/"))
  }

  lemma RenderOfConcat(p: Path, q: Path)
    requires p != [] && q != []
    ensures Render(p + q) == Render(p) + "/" + Join(q, "/")
  {
    JoinOfConcat(p, q, "/");
    assert Render(p + q) == "/" + (Join(p, "/") + "/" + Join(q, "/"));
  }

  lemma RenderOfRoot(p: Path)
    requires IsPath(p)
    ensures Render(p) == "/" <==> p == []
  {
    if Render(p) == "/" {
      RenderIsInjective(p, []);
    }
  }

  /** A rendered path starting with another one and a slash extends it by whole segments. */
  lemma RenderPrefix(r: Path, p: Path)
    requires IsPath(r) && IsPath(p) && r != []
    requires HasPrefix(Render(p), Render(r) + "/")
    ensures r <= p
  {
    var tail := Render(p)[|Render(r)| + 1..];
    assert Render(p) == Render(r) + ['/'] + tail;
    SplitOfConcat(Render(r), '/', tail);
    SplitOfRender(r);
    RenderOfRoot(p);
    SplitOfRender(p);
    var rest := Split(tail, '/');
    assert [""] + r + rest == [""] + (r + rest);
    SameAfterHead("", r + rest, p);
  }

  lemma SameAfterHead(head: string, a: seq<string>, b: seq<string>)
    requires [head] + a == [head] + b
    ensures a == b
  {
    assert a == ([head] + a)[1..] && b == ([head] + b)[1..];
  }

  lemma SplitOfRender(p: Path)
    requires IsPath(p) && p != []
    ensures Split(Render(p), '/') == [""] + p
  {
    SplitOfConcat("", '/', Join(p, "/"));
    assert Render(p) == "" + ['/'] + Join(p, "/");
    SplitOfJoin(p, '/');
    assert Split("", '/') == [""];
  }

  lemma PrefixTestIsSegmentPrefix(r: Path, p: Path)
    requires IsPath(r) && IsPath(p)
    ensures UnderByPrefix(Render(r), Render(p)) <==> r <= p
  {
    RenderOfRoot(r);
    if r == [] {
    } else if r <= p {
      if p != r {
        assert p == r + p[|r|..];
        RenderOfConcat(r, p[|r|..]);
      }
    } else if UnderByPrefix(Render(r), Render(p)) {
      if Render(p) == Render(r) {
        RenderIsInjective(p, r);
      } else {
        RenderPrefix(r, p);
      }
    }
  }

  // --------------------------------------------------- the relative-path test

  /** How many leading segments two paths share. */
  function Shared(r: Path, p: Path): (n: nat)
    ensures n <= |r| && n <= |p| && r[..n] == p[..n]
    ensures n < |r| && n < |p| ==> r[n] != p[n]
  {
    if r == [] || p == [] || r[0] != p[0] then 0 else Shared(r[1..], p[1..]) + 1
  }

  function Ups(n: nat): (s: seq<string>)
    ensures |s| == n
  {
    seq(n, i => "..")
  }

  /** `filepath.Rel` between two absolute paths: up from the root, then down to the path. */
  function Rel(r: Path, p: Path): string {
    if r == p then "."
    else Join(Ups(|r| - Shared(r, p)) + p[Shared(r, p)..], "/")
  }

  /**
   `withinRoot` for an absolute directory: `filepath.Rel` cleans both paths, and fails when
   only one of them is absolute.
   */
  predicate WithinRoot(dir: string, root: string)
    requires IsAbs(dir)
  {
    && IsAbs(root)
    && var rel := Rel(Segments(root), Segments(dir));
       rel == "." || (rel != ".." && !HasPrefix(rel, "../"))
  }

  lemma JoinStartsWith(parts: seq<string>)
    requires parts != []
    ensures |parts| == 1 ==> Join(parts, "/") == parts[0]
    ensures |parts| > 1 ==> HasPrefix(Join(parts, "/"), parts[0] + "/")
  {
  }

  lemma FirstSegmentIsDotDot(head: string, text: string)
    requires head != "" && '/' !in head
    requires text == head || HasPrefix(text, head + "/")
    ensures text == ".." || HasPrefix(text, "../") ==> head == ".."
  {
    assert text[..|head|] == head;
    if |head| > 2 {
      assert text[2] == head[2];
    } else if |head| < |text| {
      assert text[|head|] == (head + "/")[|head|];
    }
  }

  /** Only a path that leaves the root has a relative path starting with "..". */
  lemma DownwardPathStaysDown(down: Path)
    requires IsPath(down) && down != []
    ensures Join(down, "/") != ".." && !HasPrefix(Join(down, "/"), "../")
  {
    JoinStartsWith(down);
    FirstSegmentIsDotDot(down[0], Join(down, "/"));
  }

  lemma WithinRootIsSegmentPrefix(dir: string, root: string)
    requires IsAbs(dir)
    ensures WithinRoot(dir, root) <==> IsAbs(root) && Segments(root) <= Segments(dir)
  {
    var r, p := Segments(root), Segments(dir);
    var n := Shared(r, p);
    var parts := Ups(|r| - n) + p[n..];
    if r == p {
    } else if r <= p {
      assert n == |r|;
      assert parts == p[n..];
      DownwardPathStaysDown(p[n..]);
    } else {
      assert n < |r|;
      assert parts[0] == "..";
      JoinStartsWith(parts);
      assert Join(parts, "/") == ".." || HasPrefix(Join(parts, "/"), "../");
      assert Join(parts, "/") != ".";
    }
  }

  // ----------------------------------------------------- both tests together

  /** The root as `sanitizeScanPaths` reads it: taken as absolute whatever it looks like. */
  function ScanRoot(browseRoot: string): string {
    Clean("/" + if HasPrefix(browseRoot, "/") then browseRoot[1..] else browseRoot)
  }

  lemma ScanRootOfAbsolute(browseRoot: string)
    requires IsAbs(browseRoot)
    ensures ScanRoot(browseRoot) == Clean(browseRoot)
  {
    assert "/" + browseRoot[1..] == browseRoot;
  }

  /**
   The two containment tests agree on a path exactly when the configured root is absolute or the
   path is outside the root read as absolute. For an absolute root both mean that the segments
   of the root begin the segments of the path.
   */
  lemma ContainmentTestsAgree(p: string, browseRoot: string)
    requires IsAbs(p)
    ensures var prefixTest := UnderByPrefix(ScanRoot(browseRoot), Clean(p));
            && (prefixTest <==> Segments(ScanRoot(browseRoot)) <= Segments(p))
            && ((prefixTest <==> WithinRoot(Clean(p), browseRoot)) <==> (IsAbs(browseRoot) || !prefixTest))
            && (IsAbs(browseRoot) ==> (prefixTest <==> Segments(browseRoot) <= Segments(p)))
  {
    var r := Segments("/" + if HasPrefix(browseRoot, "/") then browseRoot[1..] else browseRoot);
    SegmentsOfRender(r);
    SegmentsOfRender(Segments(p));
    PrefixTestIsSegmentPrefix(r, Segments(p));
    WithinRootIsSegmentPrefix(Clean(p), browseRoot);
    if IsAbs(browseRoot) {
      ScanRootOfAbsolute(browseRoot);
    }
  }

  // --------------------------------------------------------- scan target lists

  datatype PathError = NotAbsolute | OutsideRoot | NoPaths | TooManyPaths | InDataDirectory

  const MAX_SCAN_PATHS := 64

  /** What is wrong with one requested path, if anything; blank paths are skipped. */
  function Fault(p: string, browseRoot: string): Option<PathError> {
    var t := TrimSpace(p);
    if t == "" then None
    else if !IsAbs(t) then Some(NotAbsolute)
    else if !(Segments(ScanRoot(browseRoot)) <= Segments(t)) then Some(OutsideRoot)
    else None
  }

  /** The cleaned non-blank inputs, in order. */
  function CleanedPaths(paths: seq<string>): seq<string> {
    if paths == [] then []
    else
      var t := TrimSpace(paths[|paths| - 1]);
      CleanedPaths(paths[..|paths| - 1]) + if t == "" then [] else [Clean(t)]
  }

  /** Keeps the first occurrence of each element. */
  function FirstOccurrences(s: seq<string>): (r: seq<string>)
    ensures forall x :: x in r <==> x in s
    ensures forall i, j :: 0 <= i < j < |r| ==> r[i] != r[j]
  {
    if s == [] then []
    else
      var front, last := s[..|s| - 1], s[|s| - 1];
      assert s == front + [last];
      if last in front then FirstOccurrences(front) else FirstOccurrences(front) + [last]
  }

  /** An element comes before another in the result exactly when it does so in the source. */
  lemma {:induction false} FirstOccurrencesKeepOrder(s: seq<string>, k: nat)
    requires k <= |s|
    ensures FirstOccurrences(s[..k]) <= FirstOccurrences(s)
  {
    if k < |s| {
      assert s[..|s| - 1][..k] == s[..k];
      FirstOccurrencesKeepOrder(s[..|s| - 1], k);
    } else {
      assert s[..k] == s;
    }
  }

  /** The first fault decides the error; otherwise the deduplicated list must have 1 to 64 entries. */
  ghost predicate SanitizedAs(paths: seq<string>, browseRoot: string, r: Result<seq<string>, PathError>) {
    if exists i :: 0 <= i < |paths| && Fault(paths[i], browseRoot).Some? then
      exists i :: 0 <= i < |paths| && Fault(paths[i], browseRoot).Some? && r == Err(Fault(paths[i], browseRoot).value)
                  && forall j :: 0 <= j < i ==> Fault(paths[j], browseRoot).None?
    else
      var out := FirstOccurrences(CleanedPaths(paths));
      r == if out == [] then Err(NoPaths) else if |out| > MAX_SCAN_PATHS then Err(TooManyPaths) else Ok(out)
  }

  /** The state of the loop of `sanitizeScanPaths` after `i` inputs without a fault. */
  predicate ScannedTo(paths: seq<string>, browseRoot: string, i: nat, out: seq<string>) {
    && i <= |paths|
    && (forall j :: 0 <= j < i ==> Fault(paths[j], browseRoot).None?)
    && out == FirstOccurrences(CleanedPaths(paths[..i]))
  }

  lemma FaultOfAbsolute(p: string, browseRoot: string)
    requires IsAbs(TrimSpace(p)) && TrimSpace(p) != ""
    ensures Fault(p, browseRoot) ==
            if UnderByPrefix(ScanRoot(browseRoot), Clean(TrimSpace(p))) then None else Some(OutsideRoot)
  {
    ContainmentTestsAgree(TrimSpace(p), browseRoot);
  }

  lemma FaultStops(paths: seq<string>, browseRoot: string, i: nat, out: seq<string>)
    requires i < |paths| && ScannedTo(paths, browseRoot, i, out) && Fault(paths[i], browseRoot).Some?
    ensures SanitizedAs(paths, browseRoot, Err(Fault(paths[i], browseRoot).value))
  {
  }

  /** Blank inputs and repeated ones add nothing. */
  lemma ScannedStep(paths: seq<string>, browseRoot: string, i: nat, out: seq<string>)
    requires i < |paths| && ScannedTo(paths, browseRoot, i, out) && Fault(paths[i], browseRoot).None?
    ensures ScannedTo(paths, browseRoot, i + 1,
                      if TrimSpace(paths[i]) == "" || Clean(TrimSpace(paths[i])) in out then out
                      else out + [Clean(TrimSpace(paths[i]))])
  {
    var t, before := TrimSpace(paths[i]), CleanedPaths(paths[..i]);
    assert paths[..i + 1][..i] == paths[..i];
    if t == "" {
      assert before + [] == before;
    } else {
      assert (before + [Clean(t)])[..|before|] == before;
    }
  }

  lemma ScannedAll(paths: seq<string>, browseRoot: string, out: seq<string>)
    requires ScannedTo(paths, browseRoot, |paths|, out)
    ensures SanitizedAs(paths, browseRoot,
                        if out == [] then Err(NoPaths) else if |out| > MAX_SCAN_PATHS then Err(TooManyPaths) else Ok(out))
  {
    assert paths[..|paths|] == paths;
  }

  method SanitizeScanPaths(paths: seq<string>, browseRoot: string) returns (r: Result<seq<string>, PathError>)
    ensures SanitizedAs(paths, browseRoot, r)
  {
    var root := ScanRoot(browseRoot);
    var seen: set<string> := {};
    var out: seq<string> := [];
    for i := 0 to |paths|
      invariant ScannedTo(paths, browseRoot, i, out)
      invariant forall x :: x in seen <==> x in out
    {
      var p := TrimSpace(paths[i]);
      if p == "" {
        ScannedStep(paths, browseRoot, i, out);
        continue;
      }
      if !HasPrefix(p, "/") {
        FaultStops(paths, browseRoot, i, out);
        return Err(NotAbsolute);
      }
      var clean := Clean(p);
      FaultOfAbsolute(paths[i], browseRoot);
      if root != "/" && clean != root && !HasPrefix(clean, root + "/") {
        FaultStops(paths, browseRoot, i, out);
        return Err(OutsideRoot);
      }
      ScannedStep(paths, browseRoot, i, out);
      if clean !in seen {
        seen := seen + {clean};
        out := out + [clean];
      }
    }
    ScannedAll(paths, browseRoot, out);
    if |out| == 0 {
      return Err(NoPaths);
    }
    if |out| > MAX_SCAN_PATHS {
      return Err(TooManyPaths);
    }
    r := Ok(out);
  }

  /** `clean` is the cleaned form of the non-blank input number `i`. */
  predicate CleanedAt(paths: seq<string>, i: int, clean: string) {
    0 <= i < |paths| && TrimSpace(paths[i]) != "" && clean == Clean(TrimSpace(paths[i]))
  }

  lemma {:induction false} CleanedPathsOrigin(paths: seq<string>, clean: string)
    ensures clean in CleanedPaths(paths) <==> exists i :: CleanedAt(paths, i, clean)
  {
    if paths != [] {
      var n := |paths| - 1;
      var front := paths[..n];
      CleanedPathsOrigin(front, clean);
      forall i | CleanedAt(front, i, clean)
        ensures CleanedAt(paths, i, clean)
      {
      }
      forall i | CleanedAt(paths, i, clean)
        ensures CleanedAt(front, i, clean) || (i == n && CleanedAt(paths, n, clean))
      {
      }
      assert CleanedAt(paths, n, clean) <==> clean in CleanedPaths(paths)[|CleanedPaths(front)|..];
    }
  }

  /**
   What an accepted list promises: 1 to 64 different, already clean absolute paths, each one under
   the root, read as absolute, and exactly the paths that were asked for. By the other test they are
   under the root exactly when that is absolute.
   */
  lemma AcceptedPathsAreConfined(paths: seq<string>, browseRoot: string, out: seq<string>)
    requires SanitizedAs(paths, browseRoot, Ok(out))
    ensures 1 <= |out| <= MAX_SCAN_PATHS
    ensures forall i, j :: 0 <= i < j < |out| ==> out[i] != out[j]
    ensures forall p :: p in out ==> && IsAbs(p) && Clean(p) == p && Segments(ScanRoot(browseRoot)) <= Segments(p)
                                     && (WithinRoot(p, browseRoot) <==> IsAbs(browseRoot))
    ensures IsAbs(browseRoot) ==> Segments(ScanRoot(browseRoot)) == Segments(browseRoot)
    ensures forall p :: p in out <==> exists i :: CleanedAt(paths, i, p)
  {
    if IsAbs(browseRoot) {
      ScanRootOfAbsolute(browseRoot);
      SegmentsOfRender(Segments(browseRoot));
    }
    forall p
      ensures p in out <==> exists i :: CleanedAt(paths, i, p)
    {
      CleanedPathsOrigin(paths, p);
    }
    forall p | p in out
      ensures IsAbs(p) && Clean(p) == p && Segments(ScanRoot(browseRoot)) <= Segments(p)
      ensures WithinRoot(p, browseRoot) <==> IsAbs(browseRoot)
    {
      var i :| CleanedAt(paths, i, p);
      var t := TrimSpace(paths[i]);
      assert Fault(paths[i], browseRoot).None?;
      SegmentsOfRender(Segments(t));
      ContainmentTestsAgree(t, browseRoot);
      CleanIsIdempotent(t);
    }
  }

  // ----------------------------------------------------------- quarantine targets

  /** `checkTargetPath`: the guard of the quarantine and on-access handlers. */
  function CheckTargetPath(p: string, configDir: string, browseRoot: string): Option<PathError> {
    if !IsAbs(p) then Some(NotAbsolute)
    else if WithinRoot(Clean(p), configDir) then Some(InDataDirectory)
    else if !WithinRoot(Clean(p), browseRoot) then Some(OutsideRoot)
    else None
  }

  /**
   A target passes exactly when it is an absolute path under an absolute browse root and not
   under the data directory. A data directory configured as a relative path protects nothing.
   */
  lemma TargetsAvoidDataDirectory(p: string, configDir: string, browseRoot: string)
    ensures CheckTargetPath(p, configDir, browseRoot).None? <==>
            && IsAbs(p) && IsAbs(browseRoot) && Segments(browseRoot) <= Segments(p)
            && !(IsAbs(configDir) && Segments(configDir) <= Segments(p))
  {
    if IsAbs(p) {
      SegmentsOfRender(Segments(p));
      WithinRootIsSegmentPrefix(Clean(p), configDir);
      WithinRootIsSegmentPrefix(Clean(p), browseRoot);
    }
  }
}
