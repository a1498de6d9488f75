/**
 * String escaping of `json.dumps(..., ensure_ascii=True)`, on Python strings: sequences of code
 * points in which surrogates may stand alone.
 */
module JsonStrings {
  import opened Collections

  type CodePoint = c: int | 0 <= c < 0x110000
  type Unit = u: int | 0 <= u < 0x10000

  predicate High(c: int) { 0xD800 <= c < 0xDC00 }
  predicate Low(c: int) { 0xDC00 <= c < 0xE000 }

  // ---------------------------------------------------------------- code points and UTF-16 units

  function UnitsOf(c: CodePoint): seq<Unit>
  {
    if c < 0x10000 then [c]
    else [0xD800 + (c - 0x10000) / 0x400, 0xDC00 + (c - 0x10000) % 0x400]
  }

  function Utf16(s: seq<CodePoint>): seq<Unit>
  {
    if s == [] then [] else UnitsOf(s[0]) + Utf16(s[1..])
  }

  function Join(hi: Unit, lo: Unit): CodePoint
    requires High(hi) && Low(lo)
  {
    var n: int := (hi - 0xD800) as int * 0x400 + (lo - 0xDC00) as int;
    n + 0x10000
  }

  /** Decoding joins a high surrogate with a low one that follows it. */
  function FromUtf16(us: seq<Unit>): seq<CodePoint>
  {
    if us == [] then []
    else if |us| >= 2 && High(us[0]) && Low(us[1]) then
      [Join(us[0], us[1])] + FromUtf16(us[2..])
    else [us[0]] + FromUtf16(us[1..])
  }

  /** No high surrogate is directly followed by a low one. */
  predicate WellPaired(s: seq<CodePoint>)
  {
    forall i :: 0 <= i < |s| - 1 ==> !(High(s[i]) && Low(s[i + 1]))
  }

  lemma WellPairedTail(s: seq<CodePoint>)
    requires s != [] && WellPaired(s)
    ensures WellPaired(s[1..])
  {
    var r := s[1..];
    forall i | 0 <= i < |r| - 1 ensures !(High(r[i]) && Low(r[i + 1])) {
      assert r[i] == s[i + 1] && r[i + 1] == s[i + 1 + 1];
    }
  }

  /** What UTF-16 starts with tells whether the string starts with a low surrogate. */
  lemma Utf16Head(s: seq<CodePoint>)
    ensures Utf16(s) == [] <==> s == []
    ensures s != [] ==> (Low(Utf16(s)[0]) <==> Low(s[0]))
  {
  }

  lemma {:induction false} Utf16RoundTrip(s: seq<CodePoint>)
    requires WellPaired(s)
    ensures FromUtf16(Utf16(s)) == s
  {
    if s != [] {
      WellPairedTail(s);
      Utf16RoundTrip(s[1..]);
      Utf16Head(s[1..]);
      var us := Utf16(s);
      assert s == [s[0]] + s[1..];
      if s[0] < 0x10000 {
        assert us[1..] == Utf16(s[1..]);
        if |us| >= 2 && High(us[0]) {
          assert s[1..][0] == s[1] && !(High(s[0]) && Low(s[1]));
        }
      } else {
        assert us[2..] == Utf16(s[1..]);
      }
    }
  }

  /** Decoded text never has a high surrogate before a low one. */
  lemma {:induction false} DecodedIsWellPaired(us: seq<Unit>)
    ensures WellPaired(FromUtf16(us))
    ensures us != [] && !(High(us[0]) && |us| >= 2 && Low(us[1])) ==> FromUtf16(us)[0] == us[0]
    ensures us != [] && FromUtf16(us) != [] && Low(FromUtf16(us)[0]) ==> Low(us[0])
    decreases |us|
  {
    if us == [] {
    } else if |us| >= 2 && High(us[0]) && Low(us[1]) {
      var rest := FromUtf16(us[2..]);
      DecodedIsWellPaired(us[2..]);
      PrependKeepsWellPaired(Join(us[0], us[1]), rest);
    } else {
      DecodedIsWellPaired(us[1..]);
      PrependKeepsWellPaired(us[0], FromUtf16(us[1..]));
    }
  }

  lemma PrependKeepsWellPaired(c: CodePoint, s: seq<CodePoint>)
    requires WellPaired(s) && (s != [] && High(c) ==> !Low(s[0]))
    ensures WellPaired([c] + s)
  {
    var r := [c] + s;
    forall i | 0 <= i < |r| - 1 ensures !(High(r[i]) && Low(r[i + 1])) {
      if i > 0 { assert r[i] == s[i - 1] && r[i + 1] == s[i]; }
    }
  }

  // ---------------------------------------------------------------- escaping one unit

  function Hex(d: int): char
    requires 0 <= d < 16
  {
    "0123456789abcdef"[d]
  }

  function UnHex(c: char): Option<int>
  {
    if '0' <= c <= '9' then Some(c as int - '0' as int)
    else if 'a' <= c <= 'f' then Some(c as int - 'a' as int + 10)
    else None
  }

  function Hex4(u: Unit): string
  {
    var q1 := u / 16;
    var q2 := q1 / 16;
    [Hex(q2 / 16), Hex(q2 % 16), Hex(q1 % 16), Hex(u % 16)]
  }

  function UnHex4(t: string): (r: Option<Unit>)
    requires |t| == 4
  {
    var a, b, c, d := UnHex(t[0]), UnHex(t[1]), UnHex(t[2]), UnHex(t[3]);
    if a.Some? && b.Some? && c.Some? && d.Some? && 0 <= a.value < 16 && 0 <= b.value < 16 && 0 <= c.value < 16 && 0 <= d.value < 16 then
      Some(((a.value * 16 + b.value) * 16 + c.value) * 16 + d.value)
    else None
  }

  /** The two-character escapes. */
  function ShortEscape(u: Unit): Option<char>
  {
    if u == 0x22 then Some('"')
    else if u == 0x5C then Some('\\')
    else if u == 0x0A then Some('n')
    else if u == 0x0D then Some('r')
    else if u == 0x09 then Some('t')
    else if u == 0x0C then Some('f')
    else if u == 0x08 then Some('b')
    else None
  }

  function ShortUnescape(c: char): Option<Unit>
  {
    if c == '"' then Some(0x22)
    else if c == '\\' then Some(0x5C)
    else if c == 'n' then Some(0x0A)
    else if c == 'r' then Some(0x0D)
    else if c == 't' then Some(0x09)
    else if c == 'f' then Some(0x0C)
    else if c == 'b' then Some(0x08)
    else None
  }

  function EscapeUnit(u: Unit): string
  {
    if ShortEscape(u).Some? then ['\\', ShortEscape(u).value]
    else if 0x20 <= u < 0x7F then [u as char]
    else "\\u" + Hex4(u)
  }

  function EscapeUnits(us: seq<Unit>): string
  {
    if us == [] then "" else EscapeUnit(us[0]) + EscapeUnits(us[1..])
  }

  /** `json.dumps` of a string, without the quotes. */
  function Escape(s: seq<CodePoint>): string { EscapeUnits(Utf16(s)) }

  // ---------------------------------------------------------------- reading a string back

  /** One unit at the front of `t`: the unit and how many characters spell it. */
  function ReadUnit(t: string): (r: Option<(Unit, nat)>)
    ensures r.Some? ==> 1 <= r.value.1 <= |t|
  {
    if t == "" || t[0] == '"' then None
    else if t[0] != '\\' then
      if 0x20 <= t[0] as int < 0x10000 then Some((t[0] as int, 1)) else None
    else if |t| < 2 then None
    else if t[1] == 'u' then
      if |t| < 6 || UnHex4(t[2..6]).None? then None else Some((UnHex4(t[2..6]).value, 6))
    else
      match ShortUnescape(t[1])
      case None => None
      case Some(u) => Some((u, 2))
  }

  /** The units up to the closing quote, and the text after it. */
  function ReadUnits(t: string): (r: Option<(seq<Unit>, string)>)
    ensures r.Some? ==> |r.value.1| < |t|
    decreases |t|
  {
    if t == "" then None
    else if t[0] == '"' then Some(([], t[1..]))
    else
      match ReadUnit(t)
      case None => None
      case Some((u, n)) =>
        match ReadUnits(t[n..])
        case None => None
        case Some((us, rest)) => Some(([u] + us, rest))
  }

  lemma HexRoundTrip(u: Unit)
    ensures UnHex4(Hex4(u)) == Some(u)
  {
    var q1 := u / 16;
    var q2 := q1 / 16;
    HexDigit(q2 / 16);
    HexDigit(q2 % 16);
    HexDigit(q1 % 16);
    HexDigit(u % 16);
  }

  lemma HexDigit(d: int)
    requires 0 <= d < 16
    ensures UnHex(Hex(d)) == Some(d)
  {
    if d < 10 { assert Hex(d) == ('0' as int + d) as char; } else { assert Hex(d) == ('a' as int + d - 10) as char; }
  }

  lemma ReadEscapedUnit(u: Unit, rest: string)
    ensures ReadUnit(EscapeUnit(u) + rest) == Some((u, |EscapeUnit(u)|))
  {
    var t := EscapeUnit(u) + rest;
    if ShortEscape(u).Some? {
      assert t[0] == '\\' && t[1] == ShortEscape(u).value;
    } else if 0x20 <= u < 0x7F {
      assert t[0] == u as char;
    } else {
      HexRoundTrip(u);
      assert t[0] == '\\' && t[1] == 'u' && t[2..6] == Hex4(u);
    }
  }

  lemma {:induction false} ReadEscapedUnits(us: seq<Unit>, rest: string)
    ensures ReadUnits(EscapeUnits(us) + "\"" + rest) == Some((us, rest))
  {
    var t := EscapeUnits(us) + "\"" + rest;
    if us == [] {
      assert t == ['"'] + rest;
    } else {
      var tail := EscapeUnits(us[1..]) + "\"" + rest;
      assert t == EscapeUnit(us[0]) + tail;
      ReadEscapedUnit(us[0], tail);
      ReadEscapedUnits(us[1..], rest);
      assert t[|EscapeUnit(us[0])|..] == tail;
      assert us == [us[0]] + us[1..];
    }
  }

  /** `json.loads` of a quoted string: its content and what follows the closing quote. */
  function ReadString(t: string): (r: Option<(seq<CodePoint>, string)>)
    ensures r.Some? ==> |r.value.1| < |t|
  {
    match ReadUnits(t)
    case None => None
    case Some((us, rest)) => Some((FromUtf16(us), rest))
  }

  // ---------------------------------------------------------------- main results

  /** A string survives `dumps` and `loads` exactly when no high surrogate precedes a low one in it. */
  lemma StringRoundTripIff(s: seq<CodePoint>, rest: string)
    ensures ReadString(Escape(s) + "\"" + rest).Some?
    ensures ReadString(Escape(s) + "\"" + rest).value.1 == rest
    ensures ReadString(Escape(s) + "\"" + rest).value.0 == s <==> WellPaired(s)
  {
    ReadEscapedUnits(Utf16(s), rest);
    if WellPaired(s) {
      Utf16RoundTrip(s);
    } else {
      DecodedIsWellPaired(Utf16(s));
    }
  }

  /** Two strings escape alike exactly when they are the same UTF-16 text. */
  lemma EscapeInjectiveOnUnits(s: seq<CodePoint>, t: seq<CodePoint>)
    ensures Escape(s) == Escape(t) <==> Utf16(s) == Utf16(t)
  {
    ReadEscapedUnits(Utf16(s), "");
    ReadEscapedUnits(Utf16(t), "");
  }

  /** One astral character and the two lone surrogates that spell it have the same escaped text. */
  lemma SurrogatesCollide()
    ensures [0x1F600] != [0xD83D, 0xDE00]
    ensures Escape([0x1F600]) == Escape([0xD83D, 0xDE00])
  {
    assert Utf16([0x1F600]) == [0xD83D, 0xDE00] + Utf16([]);
    var p: seq<CodePoint> := [0xD83D, 0xDE00];
    assert p[1..] == [0xDE00];
    assert Utf16([0xDE00]) == [0xDE00] + Utf16([]);
    assert Utf16(p) == [0xD83D] + Utf16(p[1..]);
  }
}
