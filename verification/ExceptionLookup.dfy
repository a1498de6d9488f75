/** What an exception covers and when it counts, stated on the pattern, the path and the expiry themselves. */
module ExceptionLookup {
  import opened Collections
  import opened Contract
  import opened ExceptionPaths

  // ---------------------------------------------------------------- shell patterns

  function Concat(parts: seq<string>): string { if parts == [] then "" else parts[0] + Concat(parts[1..]) }

  /** What one token of a pattern stands for. */
  predicate Fits(cl: Classes, t: Token, piece: string)
  {
    match t
    case Star => true
    case AnyChar => |piece| == 1
    case Bracket(text) => |piece| == 1 && cl(text, piece[0])
    case Literal(c) => piece == [c]
  }

  /** The text can be cut into one piece per token, each piece fitting its token. */
  ghost predicate Cut(cl: Classes, ts: seq<Token>, s: string)
  {
    exists parts: seq<string> :: Pieces(cl, ts, s, parts)
  }

  predicate Pieces(cl: Classes, ts: seq<Token>, s: string, parts: seq<string>)
  {
    |parts| == |ts| && Concat(parts) == s && forall i :: 0 <= i < |ts| ==> Fits(cl, ts[i], parts[i])
  }

  lemma PiecesCons(cl: Classes, ts: seq<Token>, s: string, piece: string, rest: seq<string>)
    requires ts != [] && piece <= s && Fits(cl, ts[0], piece) && Pieces(cl, ts[1..], s[|piece|..], rest)
    ensures Cut(cl, ts, s)
  {
    var parts := [piece] + rest;
    assert parts[1..] == rest && piece + s[|piece|..] == s;
    assert forall i :: 0 < i < |ts| ==> ts[i] == ts[1..][i - 1];
    assert Pieces(cl, ts, s, parts);
  }

  lemma PiecesTail(cl: Classes, ts: seq<Token>, s: string, parts: seq<string>)
    requires ts != [] && Pieces(cl, ts, s, parts)
    ensures parts[0] <= s && Fits(cl, ts[0], parts[0]) && Pieces(cl, ts[1..], s[|parts[0]|..], parts[1..])
  {
    assert s == parts[0] + Concat(parts[1..]);
    assert s[|parts[0]|..] == Concat(parts[1..]);
    assert forall i :: 0 <= i < |ts[1..]| ==> ts[1..][i] == ts[i + 1] && parts[1..][i] == parts[i + 1];
  }

  lemma {:induction false} CutWhenMatched(cl: Classes, ts: seq<Token>, s: string)
    requires MatchTokens(cl, ts, s)
    ensures Cut(cl, ts, s)
    decreases |ts|, |s|
  {
    if ts == [] {
      assert Pieces(cl, ts, s, []);
    } else if !ts[0].Star? {
      CutWhenMatched(cl, ts[1..], s[1..]);
      var rest :| Pieces(cl, ts[1..], s[1..], rest);
      PiecesCons(cl, ts, s, s[..1], rest);
    } else if MatchTokens(cl, ts[1..], s) {
      CutWhenMatched(cl, ts[1..], s);
      var rest :| Pieces(cl, ts[1..], s, rest);
      assert s[0..] == s;
      PiecesCons(cl, ts, s, "", rest);
    } else {
      CutWhenMatched(cl, ts, s[1..]);
      var parts :| Pieces(cl, ts, s[1..], parts);
      PiecesTail(cl, ts, s[1..], parts);
      var piece := s[..1] + parts[0];
      assert s == s[..1] + s[1..] && s[|piece|..] == s[1..][|parts[0]|..];
      PiecesCons(cl, ts, s, piece, parts[1..]);
    }
  }

  lemma {:induction false} MatchedWhenCut(cl: Classes, ts: seq<Token>, s: string, parts: seq<string>)
    requires Pieces(cl, ts, s, parts)
    ensures MatchTokens(cl, ts, s)
    decreases |ts|, |s|
  {
    if ts != [] {
      PiecesTail(cl, ts, s, parts);
      if !ts[0].Star? || parts[0] == "" {
        MatchedWhenCut(cl, ts[1..], s[|parts[0]|..], parts[1..]);
        assert s[0..] == s;
      } else {
        var shorter := [parts[0][1..]] + parts[1..];
        assert s[1..] == parts[0][1..] + Concat(parts[1..]) && shorter[1..] == parts[1..];
        MatchedWhenCut(cl, ts, s[1..], shorter);
      }
    }
  }

  /** A pattern matches exactly the texts that can be cut along its tokens. */
  lemma MatchIffCut(cl: Classes, ts: seq<Token>, s: string)
    ensures MatchTokens(cl, ts, s) <==> Cut(cl, ts, s)
  {
    if MatchTokens(cl, ts, s) { CutWhenMatched(cl, ts, s); }
    if parts :| Pieces(cl, ts, s, parts) { MatchedWhenCut(cl, ts, s, parts); }
  }

  function Spell(t: Token): string
  {
    match t
    case Star => "*"
    case AnyChar => "?"
    case Bracket(text) => "[" + text + "]"
    case Literal(c) => [c]
  }

  function Spelling(ts: seq<Token>): string { if ts == [] then "" else Spell(ts[0]) + Spelling(ts[1..]) }

  lemma {:induction false} ClosingIsFirst(p: string, i: nat)
    requires i <= |p|
    ensures var j := ClosingBracket(p, i);
            (j < |p| ==> p[j] == ']') && forall k :: i <= k < j ==> p[k] != ']'
    decreases |p| - i
  {
    if i < |p| && p[i] != ']' { ClosingIsFirst(p, i + 1); }
  }

  lemma BracketCloses(p: string)
    requires p != "" && p[0] == '[' && BracketEnd(p) < |p|
    ensures var j := BracketEnd(p);
            p[j] == ']' && p == "[" + p[1..j] + "]" + p[j + 1..]
  {
    ClosingIsFirst(p, if |p| > 1 && p[1] == '!' then (if 2 < |p| && p[2] == ']' then 3 else 2)
                      else if 1 < |p| && p[1] == ']' then 2 else 1);
  }

  predicate Honest(ts: seq<Token>)
  {
    forall i :: 0 <= i < |ts| ==> ts[i] != Literal('*') && ts[i] != Literal('?')
  }

  lemma HeadToken(p: string) returns (t: Token, rest: string)
    requires p != ""
    ensures |rest| < |p| && p == Spell(t) + rest && Tokens(p) == [t] + Tokens(rest)
    ensures t != Literal('*') && t != Literal('?')
  {
    if p[0] == '[' && BracketEnd(p) < |p| {
      var j := BracketEnd(p);
      BracketCloses(p);
      t, rest := Bracket(p[1..j]), p[j + 1..];
    } else {
      t := if p[0] == '*' then Star else if p[0] == '?' then AnyChar else Literal(p[0]);
      rest := p[1..];
    }
  }

  /** Spelling the tokens out gives the pattern back, and no wildcard is read as a literal. */
  lemma {:induction false} TokensSpell(p: string)
    ensures Spelling(Tokens(p)) == p && Honest(Tokens(p))
    decreases |p|
  {
    if p != "" {
      var t, rest := HeadToken(p);
      TokensSpell(rest);
      SpellCons(t, Tokens(rest));
    }
  }

  lemma SpellCons(t: Token, ts: seq<Token>)
    ensures Spelling([t] + ts) == Spell(t) + Spelling(ts)
  {
    assert ([t] + ts)[1..] == ts;
  }

  // ---------------------------------------------------------------- paths

  /** `name` is the path with backslashes turned and every leading dot and slash removed. */
  predicate Normalized(path: string, name: string)
  {
    && |name| <= |path|
    && (forall i :: 0 <= i < |path| - |name| ==> path[i] == '.' || path[i] == '/' || path[i] == '\\')
    && (forall i :: 0 <= i < |name| ==>
          name[i] == if path[|path| - |name| + i] == '\\' then '/' else path[|path| - |name| + i])
    && (name != "" ==> name[0] != '.' && name[0] != '/')
  }

  lemma {:induction false} StripLeftCut(s: string, chars: set<char>) returns (n: nat)
    ensures n <= |s| && StripLeft(s, chars) == s[n..]
    ensures n < |s| ==> s[n] !in chars
    ensures forall i :: 0 <= i < n ==> s[i] in chars
  {
    if s == "" || s[0] !in chars {
      n := 0;
      assert s[0..] == s;
    } else {
      var t := s[1..];
      var m := StripLeftCut(t, chars);
      n := m + 1;
      assert s[n..] == t[m..];
      assert n < |s| ==> s[n] == t[m];
      forall i | 0 <= i < n ensures s[i] in chars {
        assert i > 0 ==> s[i] == t[i - 1];
      }
    }
  }

  lemma NormalizeIsNormalized(path: string)
    ensures Normalized(path, Normalize(path))
  {
    var s := ReplaceBackslashes(path);
    var r := StripLeft(s, {'.', '/'});
    var n := StripLeftCut(s, {'.', '/'});
    assert n == |path| - |r|;
    assert forall i :: 0 <= i < n ==> s[i] in {'.', '/'} && s[i] == if path[i] == '\\' then '/' else path[i];
    assert forall i :: 0 <= i < |r| ==> r[i] == s[n + i];
  }

  /** At most one text is what a path normalises to. */
  lemma NormalizedIff(path: string, name: string)
    ensures Normalize(path) == name <==> Normalized(path, name)
  {
    NormalizeIsNormalized(path);
    if Normalized(path, name) {
      var r := Normalize(path);
      NotShorter(path, r, name);
      NotShorter(path, name, r);
      assert name == r;
    }
  }

  lemma NotShorter(path: string, a: string, b: string)
    requires Normalized(path, a) && Normalized(path, b)
    ensures |a| >= |b|
  {
    assert b != "" ==> b[0] == if path[|path| - |b|] == '\\' then '/' else path[|path| - |b|];
  }

  /** The pattern without its trailing stars and then without its trailing slashes names `name` or a directory above it. */
  ghost predicate BelowBase(pattern: string, name: string)
  {
    exists i, j :: 0 < i <= j <= |pattern| && BaseEnds(pattern, i, j) && AtOrBelow(name, pattern[..i])
  }

  predicate BaseEnds(pattern: string, i: nat, j: nat)
    requires 0 < i <= j <= |pattern|
  {
    && (forall k :: j <= k < |pattern| ==> pattern[k] == '*') && pattern[j - 1] != '*'
    && (forall k :: i <= k < j ==> pattern[k] == '/') && pattern[i - 1] != '/'
  }

  lemma StripRightIs(s: string, c: char, n: nat)
    requires 0 < n <= |s| && s[n - 1] != c && forall k :: n <= k < |s| ==> s[k] == c
    ensures StripRight(s, c) == s[..n]
  {
    StripRightFacts(s, c);
  }

  lemma PrefixClauseIff(pattern: string, name: string)
    ensures PrefixClause(pattern, name) <==> BelowBase(pattern, name)
  {
    var inner := StripRight(pattern, '*');
    StripRightFacts(pattern, '*');
    StripRightFacts(inner, '/');
    if PrefixOf(pattern) != "" {
      var i, j := |PrefixOf(pattern)|, |inner|;
      assert inner == pattern[..j] && PrefixOf(pattern) == pattern[..i];
      assert BaseEnds(pattern, i, j);
    }
    if i, j :| 0 < i <= j <= |pattern| && BaseEnds(pattern, i, j) && AtOrBelow(name, pattern[..i]) {
      StripRightIs(pattern, '*', j);
      StripRightIs(pattern[..j], '/', i);
      assert pattern[..j][..i] == pattern[..i];
    }
  }

  /** A valid exception covers a path exactly when its pattern matches it or its base lies on the way to it. */
  lemma CoversIff(cl: Classes, pattern: string, path: string, name: string)
    requires RepoRelative(pattern) && Normalized(path, name)
    ensures MatchesPath(cl, pattern, path) <==> Cut(cl, Tokens(pattern), name) || BelowBase(pattern, name)
  {
    NormalizedIff(path, name);
    MatchIffCut(cl, Tokens(pattern), name);
    PrefixClauseIff(pattern, name);
    if DoubleStarClause(pattern, name) { DoubleStarIsRedundant(pattern, name); }
  }

  // ---------------------------------------------------------------- time

  /** An exception is in force for ever, or up to and including the instant it expires. */
  predicate InForce(w: Waiver, asked: int)
  {
    match w.expiresAt
    case None => true
    case Some(t) => !(t.instant < asked)
  }

  function Asked(at: Option<Time>, now: int): int
  {
    match at
    case None => now
    case Some(t) => t.instant
  }

  ghost predicate Counts(cl: Classes, w: Waiver, ruleId: string, path: Option<string>, asked: int)
  {
    && w.ruleId == ruleId && InForce(w, asked)
    && (path.Some? ==> exists name :: Normalized(path.value, name) && (Cut(cl, Tokens(w.path), name) || BelowBase(w.path, name)))
  }

  lemma CountsIff(cl: Classes, w: Waiver, ruleId: string, path: Option<string>, at: Option<Time>, now: int)
    requires RepoRelative(w.path)
    ensures Applies(cl, w, ruleId, path, at, now) <==> Counts(cl, w, ruleId, path, Asked(at, now))
  {
    if path.Some? {
      NormalizeIsNormalized(path.value);
      forall name | Normalized(path.value, name)
        ensures MatchesPath(cl, w.path, path.value) <==> Cut(cl, Tokens(w.path), name) || BelowBase(w.path, name)
      {
        CoversIff(cl, w.path, path.value, name);
      }
    }
  }

  /** The lookup finds an exception exactly when it is the first in the list for the rule, in force and covering the path. */
  lemma FoundIff(cl: Classes, ws: seq<Waiver>, ruleId: string, path: Option<string>, at: Option<Time>, now: int, i: nat)
    requires forall k :: 0 <= k < |ws| ==> RepoRelative(ws[k].path)
    ensures FindActive(cl, ws, ruleId, path, at, now) == Some(i) <==>
            && i < |ws| && Counts(cl, ws[i], ruleId, path, Asked(at, now))
            && forall k :: 0 <= k < i ==> !Counts(cl, ws[k], ruleId, path, Asked(at, now))
  {
    FoundIsFirst(cl, ws, ruleId, path, at, now);
    forall k | 0 <= k < |ws|
      ensures Applies(cl, ws[k], ruleId, path, at, now) <==> Counts(cl, ws[k], ruleId, path, Asked(at, now))
    {
      CountsIff(cl, ws[k], ruleId, path, at, now);
    }
  }

  /** Nothing that is found expired before the asked time; at the very instant it expires an exception still counts. */
  lemma FoundIsInForce(cl: Classes, ws: seq<Waiver>, ruleId: string, path: Option<string>, at: Option<Time>, now: int)
    ensures var r := FindActive(cl, ws, ruleId, path, at, now);
            r.Some? ==> && r.value < |ws|
                        && (ws[r.value].expiresAt.Some? ==> Asked(at, now) <= ws[r.value].expiresAt.value.instant)
  {
    FoundIsFirst(cl, ws, ruleId, path, at, now);
  }
}
