/** Repository paths and the scope of an implementation proposal. */
module ProposalScope {
  import opened Collections
  import opened Orders
  import opened PyText
  import opened CanonicalJson
  import opened StringSort
  import StableSort

  datatype Error = BadPath | NoPaths | RepeatedPath | TooManyPaths | BadFileBudget | BadLineBudget

  // ---------------------------------------------------------------- pathlib

  /** `PurePosixPath`: the root, and the segments that are neither empty nor a dot. */
  datatype PosixPath = PosixPath(root: string, tail: seq<string>)

  function IsSegment(): string -> bool { s => s != "" && s != "." }

  function ParsePosix(s: string): PosixPath
  {
    var root := if StartsWith(s, "//") && !StartsWith(s, "///") then "//" else if StartsWith(s, "/") then "/" else "";
    PosixPath(root, StableSort.Filter(IsSegment(), Split(s, '/')))
  }

  function Parts(p: PosixPath): seq<string> { (if p.root == "" then [] else [p.root]) + p.tail }

  function AsPosix(p: PosixPath): string
  {
    if p.root == "" && p.tail == [] then "." else p.root + JoinWith(p.tail, "/")
  }

  predicate Traverses(part: string) { part == "" || part == "." || part == ".." }

  /** `_validate_repository_path`. */
  function ValidateRepositoryPath(path: string): Result<string, Error>
  {
    if Strip(path) == "" || path != Strip(path) then Err(BadPath)
    else if '\\' in path then Err(BadPath)
    else
      var candidate := ParsePosix(path);
      var parts := Parts(candidate);
      if candidate.root != "" || StartsWith(path, "/") then Err(BadPath)
      else if parts == [] || exists i :: 0 <= i < |parts| && Traverses(parts[i]) then Err(BadPath)
      else if AsPosix(candidate) != path then Err(BadPath)
      else Ok(path)
  }

  /** A relative path spelled one way only: every segment between slashes is a real name. */
  predicate CleanSegments(path: string)
  {
    var segments := Split(path, '/');
    forall i :: 0 <= i < |segments| ==> !Traverses(segments[i])
  }

  lemma {:induction false} FilterAll(p: string -> bool, s: seq<string>)
    ensures (forall i :: 0 <= i < |s| ==> p(s[i])) ==> StableSort.Filter(p, s) == s
    ensures StableSort.Filter(p, s) == s ==> forall i :: 0 <= i < |s| ==> p(s[i])
  {
    if s != [] {
      FilterAll(p, s[1..]);
      assert s == [s[0]] + s[1..];
      if StableSort.Filter(p, s) == s {
        if p(s[0]) {
          assert StableSort.Filter(p, s)[1..] == StableSort.Filter(p, s[1..]);
        }
      }
    }
  }

  lemma {:induction false} FilteredHaveNoSeparator(p: string -> bool, s: seq<string>, sep: char)
    requires forall i :: 0 <= i < |s| ==> sep !in s[i]
    ensures forall i :: 0 <= i < |StableSort.Filter(p, s)| ==> sep !in StableSort.Filter(p, s)[i]
  {
    if s != [] {
      FilteredHaveNoSeparator(p, s[1..], sep);
    }
  }

  /** A rootless path is its own canonical spelling exactly when nothing was dropped from it. */
  lemma CanonicalIff(path: string)
    requires path != "" && !StartsWith(path, "/")
    ensures var c := ParsePosix(path);
            c.root == "" && (c.tail != [] && AsPosix(c) == path <==> c.tail == Split(path, '/'))
  {
    var c := ParsePosix(path);
    assert !StartsWith(path, "//");
    JoinSplit(path, '/');
    FilteredHaveNoSeparator(IsSegment(), Split(path, '/'), '/');
    assert "" + JoinWith(c.tail, "/") == JoinWith(c.tail, "/");
    if c.tail != [] {
      SplitJoin(c.tail, '/');
    }
  }

  lemma SlashFirst(path: string)
    requires StartsWith(path, "/")
    ensures !CleanSegments(path)
  {
    assert Split(path, '/')[0] == "";
  }

  /** A path is accepted exactly when it is trimmed, non-blank, free of backslashes and of bad segments. */
  lemma PathAcceptedIff(path: string)
    ensures ValidateRepositoryPath(path) == Ok(path) <==>
            !Blank(path) && Trimmed(path) && '\\' !in path && CleanSegments(path)
    ensures ValidateRepositoryPath(path).Ok? ==> ValidateRepositoryPath(path).value == path
  {
    StripFacts(path);
    if StartsWith(path, "/") {
      SlashFirst(path);
    } else if path != "" {
      CanonicalIff(path);
      var c := ParsePosix(path);
      var segments := Split(path, '/');
      assert Parts(c) == c.tail;
      FilterAll(IsSegment(), segments);
      assert CleanSegments(path) ==> c.tail == segments;
    }
  }

  /** The check of a committed file's path: the same, but backslashes pass and so does a lone dot. */
  predicate ManifestPath(path: string)
  {
    var candidate := ParsePosix(path);
    var parts := Parts(candidate);
    && path != "" && path == Strip(path)
    && candidate.root == "" && AsPosix(candidate) == path
    && forall i :: 0 <= i < |parts| ==> !Traverses(parts[i])
  }

  lemma ManifestPathIff(path: string)
    ensures ManifestPath(path) <==> path == "." || (!Blank(path) && Trimmed(path) && CleanSegments(path))
  {
    StripFacts(path);
    if StartsWith(path, "/") {
      SlashFirst(path);
      assert !CleanSegments(path) && path != ".";
    } else if path == "." {
      SplitWhole(".", '/');
      assert Trimmed(".");
      FilterAll(IsSegment(), ["."]);
      StableSort.SingletonFilter(IsSegment(), ".");
    } else if path != "" {
      CanonicalIff(path);
      var c := ParsePosix(path);
      assert Parts(c) == c.tail;
      FilterAll(IsSegment(), Split(path, '/'));
      assert CleanSegments(path) ==> c.tail == Split(path, '/');
    }
  }

  // ---------------------------------------------------------------- scope

  const MAX_ALLOWED_PATHS := 8
  const MAX_CHANGED_LINES := 1000

  datatype Scope = Scope(allowedPaths: seq<string>, maxFiles: int, maxChangedLines: int)

  predicate AllAccepted(paths: seq<string>)
  {
    forall i :: 0 <= i < |paths| ==> ValidateRepositoryPath(paths[i]).Ok?
  }

  /** `type(v) is int and 1 <= v <= most`; a boolean is not an integer here. */
  predicate IntWithin(v: Json, most: int) { v.Int? && 1 <= v.n <= most }

  /** `ImplementationScope.__post_init__`. */
  function MakeScope(paths: seq<string>, maxFiles: Json, maxChangedLines: Json): Result<Scope, Error>
  {
    if !AllAccepted(paths) then Err(BadPath)
    else if paths == [] then Err(NoPaths)
    else if |paths| != |Elements(paths)| then Err(RepeatedPath)
    else if |paths| > MAX_ALLOWED_PATHS then Err(TooManyPaths)
    else if !IntWithin(maxFiles, MAX_ALLOWED_PATHS) || maxFiles.n > |paths| then Err(BadFileBudget)
    else if !IntWithin(maxChangedLines, MAX_CHANGED_LINES) then Err(BadLineBudget)
    else Ok(Scope(SortStrings(paths), maxFiles.n, maxChangedLines.n))
  }

  /** The constructor: each path is checked, then the field is replaced by the sorted paths. */
  method NewScope(paths: seq<string>, maxFiles: Json, maxChangedLines: Json) returns (r: Result<Scope, Error>)
    ensures r == MakeScope(paths, maxFiles, maxChangedLines)
  {
    var checked: seq<string> := [];
    for i := 0 to |paths|
      invariant checked == paths[..i] && AllAccepted(checked)
    {
      PathAcceptedIff(paths[i]);
      var path := ValidateRepositoryPath(paths[i]);
      if path.Err? {
        return Err(BadPath);
      }
      checked := checked + [path.value];
    }
    assert checked == paths;
    if checked == [] { return Err(NoPaths); }
    if |checked| != |Elements(checked)| { return Err(RepeatedPath); }
    checked := SortStrings(checked);
    SortStringsFacts(paths);
    if |checked| > MAX_ALLOWED_PATHS { return Err(TooManyPaths); }
    if !IntWithin(maxFiles, MAX_ALLOWED_PATHS) { return Err(BadFileBudget); }
    if maxFiles.n > |checked| { return Err(BadFileBudget); }
    if !IntWithin(maxChangedLines, MAX_CHANGED_LINES) { return Err(BadLineBudget); }
    return Ok(Scope(checked, maxFiles.n, maxChangedLines.n));
  }

  lemma SamePaths(s: seq<string>, t: seq<string>)
    requires multiset(s) == multiset(t)
    ensures Elements(s) == Elements(t) && |s| == |t|
    ensures AllAccepted(s) <==> AllAccepted(t)
  {
    assert |multiset(s)| == |multiset(t)|;
    forall x ensures x in s <==> x in t {
      assert x in multiset(s) <==> x in multiset(t);
    }
    assert forall i :: 0 <= i < |s| ==> s[i] in t;
    assert forall i :: 0 <= i < |t| ==> t[i] in s;
    assert AllAccepted(s) <==> forall x :: x in s ==> ValidateRepositoryPath(x).Ok?;
    assert AllAccepted(t) <==> forall x :: x in t ==> ValidateRepositoryPath(x).Ok?;
  }

  /** The order in which paths are declared never matters, not even for the error. */
  lemma ScopeIgnoresOrder(s: seq<string>, t: seq<string>, maxFiles: Json, maxChangedLines: Json)
    requires multiset(s) == multiset(t)
    ensures MakeScope(s, maxFiles, maxChangedLines) == MakeScope(t, maxFiles, maxChangedLines)
  {
    SamePaths(s, t);
    SortIgnoresOrder(s, t);
  }

  predicate ValidScope(s: Scope)
  {
    && 1 <= |s.allowedPaths| <= MAX_ALLOWED_PATHS && AllAccepted(s.allowedPaths)
    && Sorted(s.allowedPaths) && Distinct(s.allowedPaths)
    && 1 <= s.maxFiles <= |s.allowedPaths| && 1 <= s.maxChangedLines <= MAX_CHANGED_LINES
  }

  /** Construction gives exactly the valid scopes, and rebuilding a valid scope from its own fields changes nothing. */
  lemma ScopeIsFixedPoint(s: Scope)
    ensures MakeScope(s.allowedPaths, Int(s.maxFiles), Int(s.maxChangedLines)) == Ok(s) <==> ValidScope(s)
  {
    SetSize(s.allowedPaths);
    SortIgnoresOrder(s.allowedPaths, s.allowedPaths);
    SortStringsFacts(s.allowedPaths);
  }

  lemma MadeScopesAreValid(paths: seq<string>, maxFiles: Json, maxChangedLines: Json)
    requires MakeScope(paths, maxFiles, maxChangedLines).Ok?
    ensures ValidScope(MakeScope(paths, maxFiles, maxChangedLines).value)
  {
    SetSize(paths);
    SortStringsFacts(paths);
    DistinctPermutes(paths, SortStrings(paths));
    SamePaths(paths, SortStrings(paths));
  }

  /** A scope is made of one to eight distinct acceptable paths, a file budget within them and a line budget up to a thousand. */
  lemma ScopeMadeIff(paths: seq<string>, maxFiles: Json, maxChangedLines: Json)
    ensures MakeScope(paths, maxFiles, maxChangedLines).Ok? <==>
            && 1 <= |paths| <= 8 && AllAccepted(paths) && Distinct(paths)
            && maxFiles.Int? && 1 <= maxFiles.n <= |paths|
            && maxChangedLines.Int? && 1 <= maxChangedLines.n <= 1000
    ensures MakeScope(paths, maxFiles, maxChangedLines).Ok? ==>
            var s := MakeScope(paths, maxFiles, maxChangedLines).value;
            && multiset(s.allowedPaths) == multiset(paths) && Sorted(s.allowedPaths)
            && s.maxFiles == maxFiles.n && s.maxChangedLines == maxChangedLines.n
  {
    SetSize(paths);
    SortStringsFacts(paths);
  }
}
