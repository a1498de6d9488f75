/** The build identity: which files are hashed, the bytes that are hashed, and the baked metadata files. */
module BuildIdentity {
  import opened Orders
  import opened PyText
  import opened Utf8
  import opened StringSort
  import StableSort

  type Bytes = seq<Byte>

  /** The files under the root, by their path relative to it. */
  type Tree = map<string, Bytes>

  const REVISION_FILE := ".dor-build-revision"
  const FINGERPRINT_FILE := ".dor-build-fingerprint"

  const IGNORED_DIRS: set<string> := {
    ".git", ".pytest_cache", ".ruff_cache", ".venv", "ENV", "__pycache__", "build", "dist", "htmlcov", "venv"
  }
  const IGNORED_FILES: set<string> := { REVISION_FILE, FINGERPRINT_FILE, ".coverage", ".DS_Store" }
  const IGNORED_SUFFIXES: set<string> := { ".db", ".pyc", ".pyd", ".pyo" }

  /** The index of the last dot, or -1. */
  function LastDot(s: string): (i: int)
    ensures -1 <= i < |s|
  {
    if s == "" then -1 else if s[|s| - 1] == '.' then |s| - 1 else LastDot(s[..|s| - 1])
  }

  /** `PurePath.suffix`: a leading or a trailing dot starts no suffix. */
  function Suffix(name: string): string
  {
    var i := LastDot(name);
    if 0 < i < |name| - 1 then name[i..] else ""
  }

  predicate IncludedSourceFile(path: string)
  {
    var parts := Split(path, '/');
    var name := parts[|parts| - 1];
    && (forall i :: 0 <= i < |parts| - 1 ==> parts[i] !in IGNORED_DIRS)
    && name !in IGNORED_FILES && !StartsWith(name, ".env")
    && Suffix(name) !in IGNORED_SUFFIXES
  }

  lemma {:induction false} LastDotIsLast(s: string)
    ensures var i := LastDot(s);
            (i >= 0 ==> s[i] == '.') && forall k :: i < k < |s| ==> s[k] != '.'
  {
    if s != "" && s[|s| - 1] != '.' { LastDotIsLast(s[..|s| - 1]); }
  }

  /** A name has the suffix `.ext` exactly when it ends in it and has something before it. */
  lemma SuffixIff(name: string, ext: string)
    requires ext != "" && '.' !in ext
    ensures Suffix(name) == "." + ext <==> |name| > |ext| + 1 && EndsWith(name, "." + ext)
  {
    var i := LastDot(name);
    LastDotIsLast(name);
    if |name| > |ext| + 1 && EndsWith(name, "." + ext) {
      var k := |name| - |ext| - 1;
      assert name[k..] == "." + ext && name[k] == '.';
      assert forall m :: k < m < |name| ==> name[m] == ext[m - k - 1];
    }
  }

  predicate NamesDirectoryToSkip(s: string)
  {
    s in {".git", ".pytest_cache", ".ruff_cache", ".venv", "ENV", "__pycache__", "build", "dist", "htmlcov", "venv"}
  }

  predicate NamesFileToSkip(s: string)
  {
    || s in {".dor-build-revision", ".dor-build-fingerprint", ".coverage", ".DS_Store"} || ".env" <= s
    || (|s| > 3 && EndsWith(s, ".db"))
    || (|s| > 4 && (EndsWith(s, ".pyc") || EndsWith(s, ".pyd") || EndsWith(s, ".pyo")))
  }

  lemma FileToSkipIff(name: string)
    ensures NamesFileToSkip(name) <==>
            name in IGNORED_FILES || StartsWith(name, ".env") || Suffix(name) in IGNORED_SUFFIXES
  {
    SuffixIff(name, "db");
    SuffixIff(name, "pyc");
    SuffixIff(name, "pyd");
    SuffixIff(name, "pyo");
    assert "." + "db" == ".db" && "." + "pyc" == ".pyc" && "." + "pyd" == ".pyd" && "." + "pyo" == ".pyo";
  }

  /** A file is hashed exactly when no directory on its path and not its own name is one to skip. */
  lemma IncludedIff(path: string, dirs: seq<string>, name: string)
    requires Split(path, '/') == dirs + [name]
    ensures IncludedSourceFile(path) <==> !NamesFileToSkip(name) && forall d :: d in dirs ==> !NamesDirectoryToSkip(d)
  {
    FileToSkipIff(name);
    var parts := Split(path, '/');
    assert parts[|parts| - 1] == name;
    assert forall i :: 0 <= i < |dirs| ==> parts[i] == dirs[i] && parts[i] in dirs;
    if IncludedSourceFile(path) {
      forall d | d in dirs ensures !NamesDirectoryToSkip(d) {
        var i :| 0 <= i < |dirs| && dirs[i] == d;
        assert parts[i] !in IGNORED_DIRS;
      }
    }
  }

  function Sources(t: Tree): Tree { map p | p in t && IncludedSourceFile(p) :: t[p] }

  // ---------------------------------------------------------------- the pre-image

  function Record(path: string, content: Bytes): Bytes { Encode(path) + [0] + content + [0] }

  function Content(t: Tree, p: string): Bytes { if p in t then t[p] else [] }

  function Records(paths: seq<string>, t: Tree): Bytes
  {
    if paths == [] then [] else Record(paths[0], Content(t, paths[0])) + Records(paths[1..], t)
  }

  /** What is hashed: the included files in path order. */
  function PreImage(t: Tree): Bytes { Records(SortedKeys(Sources(t).Keys), Sources(t)) }

  lemma Assoc(x: Bytes, y: Bytes, z: Bytes)
    ensures x + (y + z) == x + y + z
  {
  }

  lemma {:induction false} RecordsConcat(a: seq<string>, b: seq<string>, t: Tree)
    ensures Records(a + b, t) == Records(a, t) + Records(b, t)
  {
    if a == [] {
      assert a + b == b;
    } else {
      assert (a + b)[1..] == a[1..] + b;
      RecordsConcat(a[1..], b, t);
      Assoc(Record(a[0], Content(t, a[0])), Records(a[1..], t), Records(b, t));
    }
  }

  lemma SingleRecord(p: string, t: Tree)
    ensures Records([p], t) == Record(p, Content(t, p))
  {
    assert [p][1..] == [];
    assert Record(p, Content(t, p)) + [] == Record(p, Content(t, p));
  }

  /** Records depend on the listed files only. */
  lemma {:induction false} RecordsAgree(paths: seq<string>, t: Tree, u: Tree)
    requires forall p :: p in paths ==> Content(t, p) == Content(u, p)
    ensures Records(paths, t) == Records(paths, u)
  {
    if paths != [] {
      RecordsAgree(paths[1..], t, u);
    }
  }

  function IsSource(t: Tree): string -> bool { p => p in t && IncludedSourceFile(p) }

  lemma {:induction false} FilterKeepsOrder(p: string -> bool, s: seq<string>)
    requires Sorted(s) && Distinct(s)
    ensures Sorted(StableSort.Filter(p, s)) && Distinct(StableSort.Filter(p, s))
  {
    if s != [] {
      var rest := StableSort.Filter(p, s[1..]);
      FilterKeepsOrder(p, s[1..]);
      forall i | 0 <= i < |rest| ensures StrLe(s[0], rest[i]) && s[0] != rest[i] {
        StableSort.FilterMember(p, s[1..], rest[i]);
        var k :| 0 <= k < |s[1..]| && s[1..][k] == rest[i];
        assert s[k + 1] == rest[i];
      }
    }
  }

  /** Whatever the order and the extra entries of a directory listing, sorting and filtering it enumerates the sources. */
  lemma ListingGivesSources(t: Tree, listing: seq<string>)
    requires Distinct(listing) && forall p :: p in t ==> p in listing
    ensures StableSort.Filter(IsSource(t), SortStrings(listing)) == SortedKeys(Sources(t).Keys)
  {
    var sorted := SortStrings(listing);
    SortStringsFacts(listing);
    DistinctPermutes(listing, sorted);
    FilterKeepsOrder(IsSource(t), sorted);
    forall p ensures p in StableSort.Filter(IsSource(t), sorted) <==> p in Sources(t).Keys {
      StableSort.FilterMember(IsSource(t), sorted, p);
    }
    SortedKeysUnique(StableSort.Filter(IsSource(t), sorted), Sources(t).Keys);
  }

  // ---------------------------------------------------------------- injectivity

  predicate NulFree(t: Tree) { forall p :: p in t ==> '\0' !in p && 0 !in t[p] }

  lemma SplitAtNul(a: Bytes, x: Bytes, b: Bytes, y: Bytes)
    requires 0 !in a && 0 !in b && a + [0] + x == b + [0] + y
    ensures a == b && x == y
  {
    var u, v := a + [0] + x, b + [0] + y;
    assert u[|a|] == 0 && v[|b|] == 0;
    assert forall i :: 0 <= i < |a| ==> u[i] == a[i] && a[i] in a;
    assert forall i :: 0 <= i < |b| ==> v[i] == b[i] && b[i] in b;
    assert |a| == |b|;
    assert u[..|a|] == a && v[..|b|] == b;
    assert u[|a| + 1..] == x && v[|b| + 1..] == y;
  }

  lemma SplitRecord(p: string, c: Bytes, x: Bytes, q: string, d: Bytes, y: Bytes)
    requires '\0' !in p && '\0' !in q && 0 !in c && 0 !in d
    requires Record(p, c) + x == Record(q, d) + y
    ensures p == q && c == d && x == y
  {
    NoZeroByte(p);
    NoZeroByte(q);
    assert Record(p, c) + x == Encode(p) + [0] + (c + [0] + x);
    assert Record(q, d) + y == Encode(q) + [0] + (d + [0] + y);
    SplitAtNul(Encode(p), c + [0] + x, Encode(q), d + [0] + y);
    SplitAtNul(c, x, d, y);
    EncodeInjective(p, q);
  }

  predicate Listed(paths: seq<string>, t: Tree) { forall p :: p in paths ==> p in t }

  lemma {:induction false} RecordsInjective(ps: seq<string>, t: Tree, qs: seq<string>, u: Tree)
    requires NulFree(t) && NulFree(u)
    requires Listed(ps, t) && Listed(qs, u)
    requires Records(ps, t) == Records(qs, u)
    ensures ps == qs && forall p :: p in ps ==> Content(t, p) == Content(u, p)
  {
    if ps != [] && qs != [] {
      SplitRecord(ps[0], Content(t, ps[0]), Records(ps[1..], t), qs[0], Content(u, qs[0]), Records(qs[1..], u));
      RecordsInjective(ps[1..], t, qs[1..], u);
      assert ps == [ps[0]] + ps[1..] && qs == [qs[0]] + qs[1..];
    }
  }

  /** Without NUL in the included files, the pre-image determines exactly the included files. */
  lemma PreImageInjective(t: Tree, u: Tree)
    requires NulFree(Sources(t)) && NulFree(Sources(u))
    ensures PreImage(t) == PreImage(u) <==> Sources(t) == Sources(u)
  {
    if PreImage(t) == PreImage(u) {
      SameRecords(Sources(t), Sources(u));
    }
  }

  lemma SameRecords(t: Tree, u: Tree)
    requires NulFree(t) && NulFree(u) && Records(SortedKeys(t.Keys), t) == Records(SortedKeys(u.Keys), u)
    ensures t == u
  {
    var ps, qs := SortedKeys(t.Keys), SortedKeys(u.Keys);
    RecordsInjective(ps, t, qs, u);
    SameTree(t, u, ps);
  }

  lemma SameTree(t: Tree, u: Tree, ps: seq<string>)
    requires (forall p :: p in ps <==> p in t) && (forall p :: p in ps <==> p in u)
    requires forall p :: p in ps ==> Content(t, p) == Content(u, p)
    ensures t == u
  {
    forall p | p in t ensures p in u && t[p] == u[p] {
      assert p in ps;
    }
    assert t.Keys == u.Keys;
  }

  function Merged(t: Tree, p: string, q: string): Tree
  {
    (t - {q})[p := Content(t, p) + [0] + Encode(q) + [0] + Content(t, q)]
  }

  /** Two neighbouring files can always be merged, with NULs in between, into one that hashes the same. */
  lemma MergedFilesCollide(t: Tree, a: seq<string>, p: string, q: string, b: seq<string>)
    requires SortedKeys(Sources(t).Keys) == a + [p, q] + b
    ensures PreImage(Merged(t, p, q)) == PreImage(t) && Sources(Merged(t, p, q)) != Sources(t)
  {
    MergedKeys(a, p, q, b);
    MergedSources(t, p, q);
    MergedBlob(Sources(t), a, p, q, b);
  }

  lemma MergedBlob(t: Tree, a: seq<string>, p: string, q: string, b: seq<string>)
    requires SortedKeys(t.Keys) == a + [p, q] + b
    ensures Records(SortedKeys(Merged(t, p, q).Keys), Merged(t, p, q)) == Records(a + [p, q] + b, t)
    ensures Merged(t, p, q) != t
  {
    MergedKeys(a, p, q, b);
    MergedEnumeration(t, p, q, a + [p, q] + b, a + [p] + b);
    MergedContent(t, p, q, a + b);
    MergedRecords(a, b, p, q, t, Merged(t, p, q));
  }

  lemma MergedContent(t: Tree, p: string, q: string, others: seq<string>)
    requires q in t && p != q && p !in others && q !in others
    ensures forall k :: k in others ==> Content(t, k) == Content(Merged(t, p, q), k)
    ensures Content(Merged(t, p, q), p) == Content(t, p) + [0] + Encode(q) + [0] + Content(t, q)
    ensures Merged(t, p, q) != t
  {
    assert q !in Merged(t, p, q);
  }

  lemma MergedEnumeration(t: Tree, p: string, q: string, ks: seq<string>, ls: seq<string>)
    requires p in t && p != q && (forall k :: k in ks <==> k in t)
    requires Sorted(ls) && Distinct(ls) && (forall k :: k in ls <==> k in ks && k != q)
    ensures SortedKeys(Merged(t, p, q).Keys) == ls
  {
    SortedKeysUnique(ls, Merged(t, p, q).Keys);
  }

  lemma MergedSources(t: Tree, p: string, q: string)
    requires p in Sources(t) && q in Sources(t) && p != q
    ensures Sources(Merged(t, p, q)) == Merged(Sources(t), p, q)
  {
  }

  lemma MergedKeys(a: seq<string>, p: string, q: string, b: seq<string>)
    requires Sorted(a + [p, q] + b) && Distinct(a + [p, q] + b)
    ensures Sorted(a + [p] + b) && Distinct(a + [p] + b)
    ensures p != q && p in a + [p, q] + b && q in a + [p, q] + b
    ensures forall k :: k in a + [p] + b <==> k in a + [p, q] + b && k != q
    ensures forall k :: k in a + b ==> k != p && k != q
  {
    var ks, ls := a + [p, q] + b, a + [p] + b;
    assert ks[|a|] == p && ks[|a| + 1] == q;
    assert forall j :: 0 <= j < |ls| ==> ls[j] == ks[if j <= |a| then j else j + 1];
    forall k | k in a + b ensures k != p && k != q {
      var j :| 0 <= j < |a + b| && (a + b)[j] == k;
      assert k == ks[if j < |a| then j else j + 2];
    }
  }

  lemma MergedRecords(a: seq<string>, b: seq<string>, p: string, q: string, t: Tree, u: Tree)
    requires forall k :: k in a + b ==> Content(t, k) == Content(u, k)
    requires Content(u, p) == Content(t, p) + [0] + Encode(q) + [0] + Content(t, q)
    ensures Records(a + [p] + b, u) == Records(a + [p, q] + b, t)
  {
    assert forall k :: k in a ==> k in a + b;
    assert forall k :: k in b ==> k in a + b;
    RecordsConcat(a + [p], b, u);
    RecordsConcat(a, [p], u);
    RecordsConcat(a + [p, q], b, t);
    RecordsConcat(a, [p, q], t);
    RecordsAgree(a, t, u);
    RecordsAgree(b, t, u);
    TwoRecords(p, q, t, u);
  }

  lemma TwoRecords(p: string, q: string, t: Tree, u: Tree)
    requires Content(u, p) == Content(t, p) + [0] + Encode(q) + [0] + Content(t, q)
    ensures Records([p], u) == Records([p, q], t)
  {
    assert [p, q] == [p] + [q];
    RecordsConcat([p], [q], t);
    SingleRecord(p, t);
    SingleRecord(q, t);
    SingleRecord(p, u);
    Splice(Encode(p), Content(t, p), Encode(q), Content(t, q));
  }

  lemma Splice(x: Bytes, c: Bytes, y: Bytes, d: Bytes)
    ensures x + [0] + (c + [0] + y + [0] + d) + [0] == (x + [0] + c + [0]) + (y + [0] + d + [0])
  {
  }
}
