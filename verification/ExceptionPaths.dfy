/** Which paths an architecture exception covers, and when. */
module ExceptionPaths {
  import opened Collections
  import opened PyText
  import opened Contract

  // ---------------------------------------------------------------- shell patterns

  /** What `fnmatch` makes of a pattern. Membership in a bracket expression is a library matter. */
  datatype Token = Star | AnyChar | Bracket(text: string) | Literal(c: char)

  /** The index of the next `]` at or after `i`, or the length of the pattern. */
  function ClosingBracket(p: string, i: nat): (j: nat)
    requires i <= |p|
    ensures i <= j <= |p|
    decreases |p| - i
  {
    if i == |p| || p[i] == ']' then i else ClosingBracket(p, i + 1)
  }

  /** Where the bracket expression that opens at the front of `p` closes; a leading `!` and then a leading `]` belong to it. */
  function BracketEnd(p: string): (j: nat)
    requires p != "" && p[0] == '['
    ensures 1 <= j <= |p|
  {
    var i := if |p| > 1 && p[1] == '!' then 2 else 1;
    var k := if i < |p| && p[i] == ']' then i + 1 else i;
    ClosingBracket(p, k)
  }

  function Tokens(p: string): seq<Token>
    decreases |p|
  {
    if p == "" then []
    else if p[0] == '*' then [Star] + Tokens(p[1..])
    else if p[0] == '?' then [AnyChar] + Tokens(p[1..])
    else if p[0] == '[' && BracketEnd(p) < |p| then
      [Bracket(p[1..BracketEnd(p)])] + Tokens(p[BracketEnd(p) + 1..])
    else [Literal(p[0])] + Tokens(p[1..])
  }

  type Classes = (string, char) -> bool

  predicate MatchTokens(cl: Classes, ts: seq<Token>, s: string)
    decreases |ts|, |s|
  {
    if ts == [] then s == ""
    else match ts[0]
      case Star => MatchTokens(cl, ts[1..], s) || (s != "" && MatchTokens(cl, ts, s[1..]))
      case AnyChar => s != "" && MatchTokens(cl, ts[1..], s[1..])
      case Bracket(text) => s != "" && cl(text, s[0]) && MatchTokens(cl, ts[1..], s[1..])
      case Literal(c) => s != "" && s[0] == c && MatchTokens(cl, ts[1..], s[1..])
  }

  predicate Fnmatch(cl: Classes, name: string, pattern: string) { MatchTokens(cl, Tokens(pattern), name) }

  // ---------------------------------------------------------------- paths

  function StripLeft(s: string, chars: set<char>): string
  {
    if s == "" || s[0] !in chars then s else StripLeft(s[1..], chars)
  }

  function StripRight(s: string, c: char): string
  {
    if s == "" || s[|s| - 1] != c then s else StripRight(s[..|s| - 1], c)
  }

  function ReplaceBackslashes(s: string): string
  {
    seq(|s|, i requires 0 <= i < |s| => if s[i] == '\\' then '/' else s[i])
  }

  function Normalize(path: string): string { StripLeft(ReplaceBackslashes(path), {'.', '/'}) }

  predicate AtOrBelow(path: string, prefix: string) { path == prefix || StartsWith(path, prefix + "/") }

  predicate DoubleStarClause(pattern: string, name: string)
  {
    EndsWith(pattern, "/**") && AtOrBelow(name, StripRight(pattern[..|pattern| - 3], '/'))
  }

  function PrefixOf(pattern: string): string { StripRight(StripRight(pattern, '*'), '/') }

  predicate PrefixClause(pattern: string, name: string)
  {
    PrefixOf(pattern) != "" && AtOrBelow(name, PrefixOf(pattern))
  }

  /** `matches_path`. */
  predicate MatchesPath(cl: Classes, pattern: string, path: string)
  {
    var name := Normalize(path);
    Fnmatch(cl, name, pattern) || DoubleStarClause(pattern, name) || PrefixClause(pattern, name)
  }

  // ---------------------------------------------------------------- the three clauses

  lemma {:induction false} StripRightFacts(s: string, c: char)
    ensures var r := StripRight(s, c);
            && r <= s && (r == "" || r[|r| - 1] != c)
            && forall i :: |r| <= i < |s| ==> s[i] == c
  {
    if s != "" && s[|s| - 1] == c {
      StripRightFacts(s[..|s| - 1], c);
    }
  }

  lemma StripRightAppend(s: string, c: char)
    ensures StripRight(s + [c], c) == StripRight(s, c)
  {
    assert (s + [c])[..|s|] == s;
  }

  /** A pattern that ends in a slash and two stars has the same prefix in both clauses. */
  lemma DoubleStarPrefix(q: string)
    ensures PrefixOf(q + "/**") == StripRight(q, '/')
  {
    var p := q + "/";
    assert q + "/**" == (p + "*") + "*";
    StripRightAppend(p + "*", '*');
    StripRightAppend(p, '*');
    StripRightAppend(q, '/');
  }

  /** For every valid exception the double-star clause adds nothing to the prefix clause. */
  lemma DoubleStarIsRedundant(pattern: string, name: string)
    requires RepoRelative(pattern) && DoubleStarClause(pattern, name)
    ensures PrefixClause(pattern, name)
  {
    var q := pattern[..|pattern| - 3];
    assert pattern == q + "/**";
    DoubleStarPrefix(q);
    OnlySlashes(q);
    assert pattern[0] == if q == "" then '/' else q[0];
  }

  /** Only a text that starts with a slash can consist of slashes. */
  lemma OnlySlashes(q: string)
    ensures StripRight(q, '/') == "" && q != "" ==> q[0] == '/'
  {
    StripRightFacts(q, '/');
  }

  lemma EndsInStars(p: string)
    ensures EndsWith(p, "/**") ==> '*' in p
  {
    if EndsWith(p, "/**") {
      assert p[|p| - 1] == p[|p| - 3..][2];
    }
  }

  // ---------------------------------------------------------------- patterns without wildcards

  predicate GlobFree(p: string) { '*' !in p && '?' !in p && '[' !in p }

  lemma TokenStep(p: string)
    requires p != "" && p[0] != '*' && p[0] != '?' && p[0] != '['
    ensures Tokens(p) == [Literal(p[0])] + Tokens(p[1..])
  {
  }

  lemma MatchLiteral(cl: Classes, c: char, ts: seq<Token>, s: string)
    ensures MatchTokens(cl, [Literal(c)] + ts, s) <==> s != "" && s[0] == c && MatchTokens(cl, ts, s[1..])
  {
    assert ([Literal(c)] + ts)[1..] == ts;
  }

  lemma PrefixCons(p: string, s: string)
    requires p != ""
    ensures p <= s <==> s != "" && s[0] == p[0] && p[1..] <= s[1..]
    ensures p <= s ==> s[|p|..] == s[1..][|p| - 1..]
  {
    assert p == [p[0]] + p[1..];
    assert s != "" ==> s == [s[0]] + s[1..];
  }

  /** A literal head in front of any tokens matches exactly its own text. */
  lemma {:induction false} LiteralHead(cl: Classes, p: string, ts: seq<Token>, s: string)
    requires GlobFree(p)
    ensures MatchTokens(cl, Tokens(p) + ts, s) <==> p <= s && MatchTokens(cl, ts, s[|p|..])
  {
    if p == "" {
      assert Tokens(p) + ts == ts && s[0..] == s;
    } else {
      TokenStep(p);
      var rest := Tokens(p[1..]) + ts;
      assert Tokens(p) + ts == [Literal(p[0])] + rest;
      MatchLiteral(cl, p[0], rest, s);
      PrefixCons(p, s);
      if s != "" { LiteralHead(cl, p[1..], ts, s[1..]); }
    }
  }

  lemma LiteralMatch(cl: Classes, p: string, s: string)
    requires GlobFree(p)
    ensures Fnmatch(cl, s, p) <==> s == p
  {
    LiteralHead(cl, p, [], s);
    assert Tokens(p) + [] == Tokens(p);
    if p <= s && s[|p|..] == "" { assert s == p + s[|p|..]; }
  }

  lemma StripStars(p: string)
    requires '*' !in p
    ensures StripRight(p, '*') == p
  {
  }

  /** A valid exception without wildcards covers exactly its path, trailing slashes aside, and everything below it. */
  lemma GlobFreeMatchesIff(cl: Classes, pattern: string, path: string)
    requires GlobFree(pattern) && RepoRelative(pattern) && pattern != ""
    ensures MatchesPath(cl, pattern, path) <==> AtOrBelow(Normalize(path), StripRight(pattern, '/'))
  {
    var name := Normalize(path);
    LiteralMatch(cl, pattern, name);
    StripStars(pattern);
    StripRightFacts(pattern, '/');
    var prefix := StripRight(pattern, '/');
    OnlySlashes(pattern);
    EndsInStars(pattern);
    assert prefix != "";
    if pattern != prefix {
      assert pattern[|prefix|] == '/';
      assert prefix + "/" == pattern[..|prefix| + 1];
    }
  }

  lemma {:induction false} StripLeftFacts(s: string, chars: set<char>)
    ensures var r := StripLeft(s, chars); r == "" || r[0] !in chars
  {
    if s != "" && s[0] in chars { StripLeftFacts(s[1..], chars); }
  }

  lemma BelowStartsAlike(path: string, prefix: string)
    requires prefix != "" && AtOrBelow(path, prefix)
    ensures path != "" && path[0] == prefix[0]
  {
    assert prefix + "/" <= path ==> path[0] == (prefix + "/")[0];
  }

  lemma KeepsFirst(s: string, c: char)
    requires s != "" && s[0] != c
    ensures StripRight(s, c) != "" && StripRight(s, c)[0] == s[0]
  {
    StripRightFacts(s, c);
  }

  lemma NormalizeFacts(path: string)
    ensures Normalize(path) == "" || (Normalize(path)[0] != '.' && Normalize(path)[0] != '/')
    ensures '\\' !in Normalize(path)
  {
    StripLeftFacts(ReplaceBackslashes(path), {'.', '/'});
    StripLeftShortens(ReplaceBackslashes(path), {'.', '/'}, '\\');
  }

  lemma {:induction false} StripLeftShortens(s: string, chars: set<char>, c: char)
    requires c !in s
    ensures c !in StripLeft(s, chars)
  {
    if s != "" && s[0] in chars { StripLeftShortens(s[1..], chars, c); }
  }

  /** Normalising strips every leading dot, so an exception for a dotted path such as `.github` covers nothing at all. */
  lemma DottedPatternNeverMatches(cl: Classes, pattern: string, path: string)
    requires pattern != "" && pattern[0] == '.'
    ensures !MatchesPath(cl, pattern, path)
  {
    var name := Normalize(path);
    NormalizeFacts(path);
    assert Tokens(pattern)[0] == Literal('.');
    KeepsFirst(pattern, '*');
    KeepsFirst(StripRight(pattern, '*'), '/');
    if PrefixClause(pattern, name) { BelowStartsAlike(name, PrefixOf(pattern)); }
    if DoubleStarClause(pattern, name) {
      var q := pattern[..|pattern| - 3];
      assert pattern == q + "/**";
      DoubleStarPrefix(q);
      BelowStartsAlike(name, PrefixOf(pattern));
    }
  }

  // ---------------------------------------------------------------- patterns without brackets

  /** What a pattern without brackets matches contains its literal characters. */
  lemma {:induction false} LiteralsRemain(cl: Classes, p: string, s: string, c: char)
    requires '[' !in p && c in p && c != '*' && c != '?' && MatchTokens(cl, Tokens(p), s)
    ensures c in s
    decreases |p|, |s|
  {
    var ts := Tokens(p);
    assert ts[1..] == Tokens(p[1..]) && p == [p[0]] + p[1..];
    if ts[0].Star? {
      if MatchTokens(cl, ts[1..], s) {
        LiteralsRemain(cl, p[1..], s, c);
      } else {
        LiteralsRemain(cl, p, s[1..], c);
      }
    } else if p[0] != c {
      LiteralsRemain(cl, p[1..], s[1..], c);
    }
  }

  lemma StripKeeps(s: string, c: char, d: char)
    requires d in s && c != d
    ensures d in StripRight(s, c)
  {
    StripRightFacts(s, c);
    var i :| 0 <= i < |s| && s[i] == d;
    assert i < |StripRight(s, c)|;
    assert StripRight(s, c)[i] == d;
  }

  /** Paths are normalised to slashes and patterns are not, so a pattern with a backslash covers nothing either. */
  lemma BackslashNeverMatches(cl: Classes, pattern: string, path: string)
    requires '[' !in pattern && '\\' in pattern
    ensures !MatchesPath(cl, pattern, path)
  {
    var name := Normalize(path);
    NormalizeFacts(path);
    if Fnmatch(cl, name, pattern) { LiteralsRemain(cl, pattern, name, '\\'); }
    StripKeeps(pattern, '*', '\\');
    StripKeeps(StripRight(pattern, '*'), '/', '\\');
    if DoubleStarClause(pattern, name) {
      assert pattern == pattern[..|pattern| - 3] + "/**";
      DoubleStarPrefix(pattern[..|pattern| - 3]);
    }
    if AtOrBelow(name, PrefixOf(pattern)) { BelowContains(name, PrefixOf(pattern), '\\'); }
  }

  lemma BelowContains(path: string, prefix: string, c: char)
    requires AtOrBelow(path, prefix) && c in prefix
    ensures c in path
  {
    var i :| 0 <= i < |prefix| && prefix[i] == c;
    if path != prefix {
      assert path[i] == (prefix + "/")[i] == c;
    }
  }

  /** A pattern without brackets matches its own text. */
  lemma {:induction false} MatchesItself(cl: Classes, p: string)
    requires '[' !in p
    ensures MatchTokens(cl, Tokens(p), p)
  {
    if p != "" {
      MatchesItself(cl, p[1..]);
      var ts := Tokens(p);
      assert ts[1..] == Tokens(p[1..]);
      if ts[0].Star? { assert MatchTokens(cl, ts, p[1..]); }
    }
  }

  /** A valid exception without brackets covers some path, and its own, exactly when it has no leading dot and no backslash. */
  lemma UsefulIff(cl: Classes, pattern: string)
    requires '[' !in pattern && RepoRelative(pattern) && pattern != ""
    ensures MatchesPath(cl, pattern, pattern) <==> pattern[0] != '.' && '\\' !in pattern
    ensures (exists path :: MatchesPath(cl, pattern, path)) <==> pattern[0] != '.' && '\\' !in pattern
  {
    if pattern[0] == '.' || '\\' in pattern {
      forall path ensures !MatchesPath(cl, pattern, path) {
        if pattern[0] == '.' {
          DottedPatternNeverMatches(cl, pattern, path);
        } else {
          BackslashNeverMatches(cl, pattern, path);
        }
      }
    } else {
      assert pattern[..1] == [pattern[0]] && pattern[0] != '/';
      assert ReplaceBackslashes(pattern) == pattern;
      MatchesItself(cl, pattern);
      assert MatchesPath(cl, pattern, pattern);
    }
  }

  // ---------------------------------------------------------------- trailing stars

  lemma {:induction false} StarsMatchAll(cl: Classes, stars: string, s: string)
    requires stars != "" && forall i :: 0 <= i < |stars| ==> stars[i] == '*'
    ensures MatchTokens(cl, Tokens(stars), s)
    decreases |stars|, |s|
  {
    assert Tokens(stars)[0] == Star && Tokens(stars)[1..] == Tokens(stars[1..]);
    if s != "" {
      StarsMatchAll(cl, stars, s[1..]);
    } else if |stars| > 1 {
      StarsMatchAll(cl, stars[1..], s);
    }
  }

  lemma {:induction false} TokensConcat(p: string, q: string)
    requires GlobFree(p)
    ensures Tokens(p + q) == Tokens(p) + Tokens(q)
  {
    if p == "" {
      assert p + q == q;
    } else {
      assert (p + q)[1..] == p[1..] + q && (p + q)[0] == p[0];
      TokensConcat(p[1..], q);
      TokenStep(p);
      TokenStep(p + q);
    }
  }

  lemma {:induction false} StripTrailingStars(base: string, stars: string)
    requires '*' !in base && forall i :: 0 <= i < |stars| ==> stars[i] == '*'
    ensures StripRight(base + stars, '*') == base
  {
    if stars == "" {
      assert base + stars == base;
      StripStars(base);
    } else {
      var init := stars[..|stars| - 1];
      StripTrailingStars(base, init);
      assert base + stars == (base + init) + "*";
      StripRightAppend(base + init, '*');
    }
  }

  /** Literal text and then stars: everything that starts with the text, and its directory itself. */
  lemma TrailingStarsIff(cl: Classes, base: string, stars: string, path: string)
    requires GlobFree(base) && RepoRelative(base + stars)
    requires stars != "" && forall i :: 0 <= i < |stars| ==> stars[i] == '*'
    ensures MatchesPath(cl, base + stars, path) <==>
            StartsWith(Normalize(path), base) || AtOrBelow(Normalize(path), StripRight(base, '/'))
  {
    var name := Normalize(path);
    TokensConcat(base, stars);
    LiteralHead(cl, base, Tokens(stars), name);
    if base <= name { StarsMatchAll(cl, stars, name[|base|..]); }
    StripTrailingStars(base, stars);
    OnlySlashes(base);
    assert base != "" ==> (base + stars)[0] == base[0];
    if DoubleStarClause(base + stars, name) { DoubleStarIsRedundant(base + stars, name); }
  }

  // ---------------------------------------------------------------- time and lookup

  /** `is_active`; a naive time is taken as UTC, and no time at all means now. */
  predicate IsActive(w: Waiver, at: Option<Time>, now: int)
  {
    w.expiresAt.None? || (if at.Some? then at.value.instant else now) <= w.expiresAt.value.instant
  }

  predicate Applies(cl: Classes, w: Waiver, ruleId: string, path: Option<string>, at: Option<Time>, now: int)
  {
    w.ruleId == ruleId && IsActive(w, at, now) && (path.None? || MatchesPath(cl, w.path, path.value))
  }

  /** `find_active_exception`: the index of the first one that applies. */
  function FindActive(cl: Classes, ws: seq<Waiver>, ruleId: string, path: Option<string>, at: Option<Time>, now: int): Option<nat>
  {
    if ws == [] then None
    else if Applies(cl, ws[0], ruleId, path, at, now) then Some(0)
    else match FindActive(cl, ws[1..], ruleId, path, at, now)
      case None => None
      case Some(i) => Some(i + 1)
  }

  lemma {:induction false} FoundIsFirst(cl: Classes, ws: seq<Waiver>, ruleId: string, path: Option<string>, at: Option<Time>, now: int)
    ensures var r := FindActive(cl, ws, ruleId, path, at, now);
            && (r.None? <==> forall i :: 0 <= i < |ws| ==> !Applies(cl, ws[i], ruleId, path, at, now))
            && (r.Some? ==> && r.value < |ws| && Applies(cl, ws[r.value], ruleId, path, at, now)
                            && forall i :: 0 <= i < r.value ==> !Applies(cl, ws[i], ruleId, path, at, now))
  {
    if ws != [] {
      FoundIsFirst(cl, ws[1..], ruleId, path, at, now);
      assert forall i :: 0 < i < |ws| ==> ws[i] == ws[1..][i - 1];
    }
  }

  /** What is found at a later time is found at every earlier one, no later in the list. */
  lemma EarlierFindsToo(cl: Classes, ws: seq<Waiver>, ruleId: string, path: Option<string>, early: Time, late: Time, now: int)
    requires early.instant <= late.instant && FindActive(cl, ws, ruleId, path, Some(late), now).Some?
    ensures var r, r' := FindActive(cl, ws, ruleId, path, Some(early), now), FindActive(cl, ws, ruleId, path, Some(late), now);
            r.Some? && r.value <= r'.value
  {
    FoundIsFirst(cl, ws, ruleId, path, Some(early), now);
    FoundIsFirst(cl, ws, ruleId, path, Some(late), now);
    var i := FindActive(cl, ws, ruleId, path, Some(late), now).value;
    assert Applies(cl, ws[i], ruleId, path, Some(early), now);
  }
}
