/** Python string operations: `strip`, `lstrip`, `rstrip`, `startswith`, `endswith`, `split`, `join`. */
module PyText {

  /** `str.isspace` for one character. */
  predicate IsSpace(c: char)
  {
    var n := c as int;
    || 0x09 <= n <= 0x0D || 0x1C <= n <= 0x20 || n == 0x85 || n == 0xA0 || n == 0x1680
    || 0x2000 <= n <= 0x200A || n == 0x2028 || n == 0x2029 || n == 0x202F || n == 0x205F || n == 0x3000
  }

  /** Below U+0080 the white space is: tab, line feed, vertical tab, form feed, carriage return, four separators, space. */
  lemma AsciiSpaces(c: char)
    requires c as int < 128
    ensures IsSpace(c) <==> c in {'\t', '\n', '\U{0B}', '\U{0C}', '\r', '\U{1C}', '\U{1D}', '\U{1E}', '\U{1F}', ' '}
  {
  }

  function LStrip(s: string): string
  {
    if s == "" || !IsSpace(s[0]) then s else LStrip(s[1..])
  }

  function RStrip(s: string): string
  {
    if s == "" || !IsSpace(s[|s| - 1]) then s else RStrip(s[..|s| - 1])
  }

  lemma {:induction false} LStripFacts(s: string)
    ensures var r := LStrip(s);
            && |r| <= |s| && r == s[|s| - |r|..]
            && (r == "" || !IsSpace(r[0]))
            && forall i :: 0 <= i < |s| - |r| ==> IsSpace(s[i])
  {
    if s != "" && IsSpace(s[0]) {
      LStripFacts(s[1..]);
      assert forall i :: 0 < i < |s| ==> s[i] == s[1..][i - 1];
    }
  }

  lemma {:induction false} RStripFacts(s: string)
    ensures var r := RStrip(s);
            && r <= s
            && (r == "" || !IsSpace(r[|r| - 1]))
            && forall i :: |r| <= i < |s| ==> IsSpace(s[i])
  {
    if s != "" && IsSpace(s[|s| - 1]) {
      RStripFacts(s[..|s| - 1]);
    }
  }

  function Strip(s: string): string { RStrip(LStrip(s)) }

  predicate Trimmed(s: string) { s == "" || (!IsSpace(s[0]) && !IsSpace(s[|s| - 1])) }

  predicate Blank(s: string) { forall i :: 0 <= i < |s| ==> IsSpace(s[i]) }

  /** Stripping yields trimmed text, changes trimmed text alone, and is empty exactly on blanks. */
  lemma StripFacts(s: string)
    ensures Trimmed(Strip(s))
    ensures Strip(s) == s <==> Trimmed(s)
    ensures Strip(s) == "" <==> Blank(s)
    ensures Strip(Strip(s)) == Strip(s)
  {
    StripTrims(s);
    StripTrims(Strip(s));
    StripBlank(s);
  }

  lemma StripTrims(s: string)
    ensures Trimmed(Strip(s))
    ensures Trimmed(s) ==> Strip(s) == s
  {
    var l := LStrip(s);
    var r := RStrip(l);
    LStripFacts(s);
    RStripFacts(l);
    if r != "" { assert r[0] == l[0]; }
    if Trimmed(s) && s != "" { assert l == s; }
  }

  lemma StripBlank(s: string)
    ensures Strip(s) == "" <==> Blank(s)
  {
    if i :| 0 <= i < |s| && !IsSpace(s[i]) {
      NonSpaceSurvives(s, i);
    } else {
      LStripFacts(s);
      RStripFacts(LStrip(s));
    }
  }

  lemma NonSpaceSurvives(s: string, i: nat)
    requires i < |s| && !IsSpace(s[i])
    ensures Strip(s) != ""
  {
    var l := LStrip(s);
    LStripFacts(s);
    RStripFacts(l);
    var j := i - (|s| - |l|);
    assert l[j] == s[i];
    assert j < |RStrip(l)|;
  }

  /** The text form of a SHA-256 digest, as `[0-9a-f]{64}` matches it in full. */
  predicate HexDigest(s: string)
  {
    |s| == 64 && forall i :: 0 <= i < |s| ==> '0' <= s[i] <= '9' || 'a' <= s[i] <= 'f'
  }

  predicate StartsWith(s: string, p: string) { p <= s }

  predicate EndsWith(s: string, p: string) { |p| <= |s| && s[|s| - |p|..] == p }

  /** `p in s` for strings. */
  predicate Contains(s: string, p: string)
  {
    exists i :: 0 <= i <= |s| && p <= s[i..]
  }

  // ---------------------------------------------------------------- split and join on one separator

  /** `s.split(sep)` for a one-character separator. */
  function Split(s: string, sep: char): (parts: seq<string>)
    ensures |parts| > 0
  {
    if s == "" then [""]
    else
      var rest := Split(s[1..], sep);
      if s[0] == sep then [""] + rest else [[s[0]] + rest[0]] + rest[1..]
  }

  /** `sep.join(parts)`. */
  function JoinWith(parts: seq<string>, sep: string): string
  {
    if parts == [] then "" else if |parts| == 1 then parts[0] else parts[0] + sep + JoinWith(parts[1..], sep)
  }

  lemma {:induction false} JoinSplit(s: string, sep: char)
    ensures JoinWith(Split(s, sep), [sep]) == s
    ensures forall i :: 0 <= i < |Split(s, sep)| ==> sep !in Split(s, sep)[i]
  {
    if s != "" {
      var rest := Split(s[1..], sep);
      JoinSplit(s[1..], sep);
      var parts := Split(s, sep);
      if s[0] == sep {
        assert parts[1..] == rest;
        assert JoinWith(parts, [sep]) == "" + [sep] + JoinWith(rest, [sep]);
        assert s == [sep] + s[1..];
      } else {
        assert parts[0] == [s[0]] + rest[0] && parts[1..] == rest[1..];
        JoinHead(rest, [s[0]], [sep]);
        assert s == [s[0]] + s[1..];
      }
    }
  }

  lemma JoinHead(parts: seq<string>, p: string, sep: string)
    requires parts != []
    ensures JoinWith([p + parts[0]] + parts[1..], sep) == p + JoinWith(parts, sep)
  {
    var q := [p + parts[0]] + parts[1..];
    assert q[1..] == parts[1..];
    if |parts| > 1 {
      assert p + parts[0] + sep + JoinWith(parts[1..], sep) == p + (parts[0] + sep + JoinWith(parts[1..], sep));
    }
  }

  /** Splitting undoes joining when no part holds the separator. */
  lemma {:induction false} SplitJoin(parts: seq<string>, sep: char)
    requires parts != [] && forall i :: 0 <= i < |parts| ==> sep !in parts[i]
    ensures Split(JoinWith(parts, [sep]), sep) == parts
  {
    if |parts| > 1 {
      SplitJoin(parts[1..], sep);
      SplitFront(parts[0], JoinWith(parts[1..], [sep]), sep);
      assert parts[0] + [sep] + JoinWith(parts[1..], [sep]) == parts[0] + ([sep] + JoinWith(parts[1..], [sep]));
    } else {
      SplitWhole(parts[0], sep);
    }
  }

  lemma {:induction false} SplitFront(s: string, rest: string, sep: char)
    requires sep !in s
    ensures Split(s + ([sep] + rest), sep) == [s] + Split(rest, sep)
  {
    var t := s + ([sep] + rest);
    if s == "" {
      assert t[1..] == rest;
    } else {
      assert t[1..] == s[1..] + ([sep] + rest) && t[0] == s[0];
      SplitFront(s[1..], rest, sep);
      assert [s[0]] + s[1..] == s;
    }
  }

  lemma {:induction false} SplitWhole(s: string, sep: char)
    requires sep !in s
    ensures Split(s, sep) == [s]
  {
    if s != "" {
      SplitWhole(s[1..], sep);
      assert [s[0]] + s[1..] == s;
    }
  }
}
