/** Strict UTF-8, as Python encodes and decodes text files. */
module Utf8 {
  import opened Collections

  type Byte = x: int | 0 <= x < 256

  /** One code point as one to four bytes. */
  function EncodeChar(c: char): seq<Byte>
  {
    var n := c as int;
    if n < 0x80 then [n]
    else if n < 0x800 then [0xC0 + n / 64, 0x80 + n % 64]
    else if n < 0x10000 then [0xE0 + n / 4096, 0x80 + n / 64 % 64, 0x80 + n % 64]
    else [0xF0 + n / 262144, 0x80 + n / 4096 % 64, 0x80 + n / 64 % 64, 0x80 + n % 64]
  }

  function Encode(s: string): seq<Byte>
  {
    if s == "" then [] else EncodeChar(s[0]) + Encode(s[1..])
  }

  /** How many bytes a lead byte announces. */
  function LeadLength(b: Byte): nat
  {
    if b < 0xC0 then 1 else if b < 0xE0 then 2 else if b < 0xF0 then 3 else 4
  }

  function CodePoint(b: seq<int>): int
    requires 1 <= |b| <= 4
  {
    if |b| == 1 then b[0]
    else if |b| == 2 then (b[0] - 0xC0) * 64 + (b[1] - 0x80)
    else if |b| == 3 then (b[0] - 0xE0) * 4096 + (b[1] - 0x80) * 64 + (b[2] - 0x80)
    else (b[0] - 0xF0) * 262144 + (b[1] - 0x80) * 4096 + (b[2] - 0x80) * 64 + (b[3] - 0x80)
  }

  predicate IsScalar(n: int) { 0 <= n < 0xD800 || 0xE000 <= n < 0x110000 }

  /** Strict decoding: only what the encoder could have written is accepted. */
  function Decode(b: seq<Byte>): Option<string>
  {
    if b == [] then Some("")
    else
      var k := LeadLength(b[0]);
      if k > |b| || !IsScalar(CodePoint(b[..k])) then None
      else
        var c := CodePoint(b[..k]) as char;
        if EncodeChar(c) != b[..k] then None
        else match Decode(b[k..])
          case None => None
          case Some(rest) => Some([c] + rest)
  }

  lemma EncodeCharFacts(c: char)
    ensures var e := EncodeChar(c); 1 <= |e| <= 4 && LeadLength(e[0]) == |e| && CodePoint(e) == c as int
    ensures 0 in EncodeChar(c) ==> c == '\0'
  {
    var n := c as int;
    assert n / 64 / 64 == n / 4096 && n / 4096 / 64 == n / 262144;
  }

  lemma {:induction false} RoundTrip(s: string)
    ensures Decode(Encode(s)) == Some(s)
  {
    if s != "" {
      var e, rest := EncodeChar(s[0]), Encode(s[1..]);
      EncodeCharFacts(s[0]);
      RoundTrip(s[1..]);
      var b := e + rest;
      assert b[..|e|] == e && b[|e|..] == rest;
      assert s == [s[0]] + s[1..];
    }
  }

  lemma EncodeInjective(s: string, t: string)
    requires Encode(s) == Encode(t)
    ensures s == t
  {
    RoundTrip(s);
    RoundTrip(t);
  }

  /** The encoding of text without NUL characters holds no zero byte. */
  lemma {:induction false} NoZeroByte(s: string)
    requires '\0' !in s
    ensures 0 !in Encode(s)
  {
    if s != "" {
      EncodeCharFacts(s[0]);
      NoZeroByte(s[1..]);
    }
  }
}
