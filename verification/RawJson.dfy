/**
 * Canonical JSON with `ensure_ascii=False`, the form that is UTF-8 encoded and hashed for content
 * identities. Escaping its non-ASCII characters afterwards gives the ASCII form, so it is injective
 * because that one is.
 */
module RawJson {
  import opened Orders
  import opened JsonStrings
  import opened CanonicalJson
  import opened Utf8

  /** Only quotes, backslashes and control characters below U+0020 are escaped. */
  function RawChar(c: char): string
  {
    var n := c as int;
    if n < 0x10000 && (n < 0x20 || ShortEscape(n).Some?) then EscapeUnit(n) else [c]
  }

  function RawChars(s: string): string
  {
    if s == "" then "" else RawChar(s[0]) + RawChars(s[1..])
  }

  function RawQuote(s: string): string { "\"" + RawChars(s) + "\"" }

  function RawPrint(v: Json): string
    decreases v, 1
  {
    match v
    case Null => "null"
    case Bool(b) => if b then "true" else "false"
    case Int(n) => IntText(n)
    case Str(s) => RawQuote(s)
    case Arr(items) => "[" + RawItems(items)
    case Obj(fields) => "{" + RawFields(v, SortedKeys(fields.Keys))
  }

  function RawItems(items: seq<Json>): string
    decreases items, 0
  {
    if items == [] then "]"
    else if |items| == 1 then RawPrint(items[0]) + "]"
    else RawPrint(items[0]) + "," + RawItems(items[1..])
  }

  function RawFields(v: Json, keys: seq<string>): string
    requires v.Obj? && forall k :: k in keys ==> k in v.fields
    decreases v, 0, |keys|
  {
    if keys == [] then "}"
    else
      var one := RawQuote(keys[0]) + ":" + RawPrint(v.fields[keys[0]]);
      if |keys| == 1 then one + "}" else one + "," + RawFields(v, keys[1..])
  }

  /** What is hashed. */
  function Preimage(v: Json): seq<Byte> { Encode(RawPrint(v)) }

  // ---------------------------------------------------------------- back to the ASCII form

  predicate Plain(c: char) { 0x20 <= c as int < 0x7F }

  function AsciiChar(c: char): string { if Plain(c) then [c] else EscapeUnits(UnitsOf(c as int)) }

  function Ascii(t: string): string
  {
    if t == "" then "" else AsciiChar(t[0]) + Ascii(t[1..])
  }

  lemma {:induction false} AsciiConcat(a: string, b: string)
    ensures Ascii(a + b) == Ascii(a) + Ascii(b)
  {
    if a == "" {
      assert a + b == b;
    } else {
      assert (a + b)[1..] == a[1..] + b;
      AsciiConcat(a[1..], b);
      Chain(AsciiChar(a[0]), Ascii(a[1..]), Ascii(b));
    }
  }

  lemma {:induction false} AsciiPlain(t: string)
    requires forall i :: 0 <= i < |t| ==> Plain(t[i])
    ensures Ascii(t) == t
  {
    if t != "" {
      AsciiPlain(t[1..]);
      assert t == [t[0]] + t[1..];
    }
  }

  lemma HexIsPlain(u: Unit)
    ensures forall i :: 0 <= i < 4 ==> Plain(Hex4(u)[i])
  {
  }

  lemma EscapeUnitIsPlain(u: Unit)
    ensures forall i :: 0 <= i < |EscapeUnit(u)| ==> Plain(EscapeUnit(u)[i])
  {
    HexIsPlain(u);
  }

  lemma OneUnit(u: Unit)
    ensures EscapeUnits([u]) == EscapeUnit(u)
  {
    assert [u][1..] == [];
    assert EscapeUnit(u) + "" == EscapeUnit(u);
  }

  lemma AsciiOfRawChar(c: char)
    ensures Ascii(RawChar(c)) == EscapeUnits(UnitsOf(c as int))
  {
    var n := c as int;
    if n < 0x10000 && (n < 0x20 || ShortEscape(n).Some?) {
      EscapeUnitIsPlain(n);
      AsciiPlain(EscapeUnit(n));
      OneUnit(n);
    } else {
      assert [c][1..] == "" && AsciiChar(c) + "" == AsciiChar(c);
      if Plain(c) { OneUnit(n); }
    }
  }

  lemma {:induction false} EscapeUnitsConcat(a: seq<Unit>, b: seq<Unit>)
    ensures EscapeUnits(a + b) == EscapeUnits(a) + EscapeUnits(b)
  {
    if a == [] {
      assert a + b == b;
    } else {
      assert (a + b)[1..] == a[1..] + b;
      EscapeUnitsConcat(a[1..], b);
      Chain(EscapeUnit(a[0]), EscapeUnits(a[1..]), EscapeUnits(b));
    }
  }

  lemma EscapeCons(s: string)
    requires s != ""
    ensures Escape(CodePoints(s)) == EscapeUnits(UnitsOf(s[0] as int)) + Escape(CodePoints(s[1..]))
  {
    assert CodePoints(s)[1..] == CodePoints(s[1..]);
    EscapeUnitsConcat(UnitsOf(CodePoints(s)[0]), Utf16(CodePoints(s)[1..]));
  }

  lemma {:induction false} AsciiOfRawChars(s: string)
    ensures Ascii(RawChars(s)) == Escape(CodePoints(s))
  {
    if s == "" {
      assert CodePoints(s) == [];
    } else {
      AsciiConcat(RawChar(s[0]), RawChars(s[1..]));
      AsciiOfRawChar(s[0]);
      AsciiOfRawChars(s[1..]);
      EscapeCons(s);
    }
  }

  lemma AsciiOfQuote(s: string)
    ensures Ascii(RawQuote(s)) == Quote(s)
  {
    AsciiOfRawChars(s);
    AsciiConcat("\"" + RawChars(s), "\"");
    AsciiConcat("\"", RawChars(s));
    AsciiPlain("\"");
  }

  lemma AsciiThen(a: string, p: string)
    requires forall i :: 0 <= i < |p| ==> Plain(p[i])
    ensures Ascii(a + p) == Ascii(a) + p && Ascii(p + a) == p + Ascii(a)
  {
    AsciiConcat(a, p);
    AsciiConcat(p, a);
    AsciiPlain(p);
  }

  lemma AsciiOfInt(n: int)
    ensures Ascii(IntText(n)) == IntText(n)
  {
    NatTextDigits(if n < 0 then -n else n);
    AsciiPlain(IntText(n));
  }

  lemma AsciiOfWords()
    ensures Ascii("null") == "null" && Ascii("true") == "true" && Ascii("false") == "false"
  {
    AsciiPlain("null");
    AsciiPlain("true");
    AsciiPlain("false");
  }

  lemma AsciiOfScalar(v: Json)
    requires !v.Arr? && !v.Obj?
    ensures Ascii(RawPrint(v)) == Print(v)
  {
    AsciiOfWords();
    if v.Int? { AsciiOfInt(v.n); }
    if v.Str? { AsciiOfQuote(v.s); }
  }

  lemma AsciiPrefix(p: string, raw: string, printed: string)
    requires (forall i :: 0 <= i < |p| ==> Plain(p[i])) && Ascii(raw) == printed
    ensures Ascii(p + raw) == p + printed
  {
    AsciiThen(raw, p);
  }

  lemma ArrSpelling(v: Json)
    requires v.Arr?
    ensures RawPrint(v) == "[" + RawItems(v.items) && Print(v) == "[" + PrintItems(v.items)
  {
  }

  lemma ObjSpelling(v: Json, keys: seq<string>)
    requires v.Obj? && keys == SortedKeys(v.fields.Keys)
    ensures RawPrint(v) == "{" + RawFields(v, keys) && Print(v) == "{" + PrintFields(v, keys)
  {
  }

  /** Escaping the non-ASCII characters of the raw form gives the ASCII form. */
  lemma {:induction false} AsciiOfPrint(v: Json)
    ensures Ascii(RawPrint(v)) == Print(v)
    decreases v, 2
  {
    if v.Arr? {
      AsciiOfArr(v);
    } else if v.Obj? {
      AsciiOfObj(v);
    } else {
      AsciiOfScalar(v);
    }
  }

  lemma {:induction false} AsciiOfArr(v: Json)
    requires v.Arr?
    ensures Ascii(RawPrint(v)) == Print(v)
    decreases v, 1
  {
    AsciiOfItems(v.items);
    ArrSpelling(v);
    AsciiPrefix("[", RawItems(v.items), PrintItems(v.items));
  }

  lemma {:induction false} AsciiOfObj(v: Json)
    requires v.Obj?
    ensures Ascii(RawPrint(v)) == Print(v)
    decreases v, 1
  {
    var keys := SortedKeys(v.fields.Keys);
    AsciiOfFields(v, keys);
    ObjSpelling(v, keys);
    AsciiPrefix("{", RawFields(v, keys), PrintFields(v, keys));
  }

  lemma {:induction false} AsciiOfItems(items: seq<Json>)
    ensures Ascii(RawItems(items)) == PrintItems(items)
    decreases items, 0
  {
    if items == [] {
      AsciiPlain("]");
    } else {
      AsciiOfPrint(items[0]);
      AsciiThen(RawPrint(items[0]), "]");
      if |items| > 1 {
        AsciiOfItems(items[1..]);
        AsciiThen(RawPrint(items[0]), ",");
        AsciiConcat(RawPrint(items[0]) + ",", RawItems(items[1..]));
      }
    }
  }

  lemma {:induction false} AsciiOfFields(v: Json, keys: seq<string>)
    requires v.Obj? && forall k :: k in keys ==> k in v.fields
    ensures Ascii(RawFields(v, keys)) == PrintFields(v, keys)
    decreases v, 0, |keys|
  {
    if keys == [] {
      AsciiPlain("}");
    } else {
      var x := v.fields[keys[0]];
      var q, p := RawQuote(keys[0]), RawPrint(x);
      AsciiOfPrint(x);
      AsciiOfQuote(keys[0]);
      AsciiThen(q, ":");
      AsciiConcat(q + ":", p);
      AsciiThen(q + ":" + p, "}");
      if |keys| > 1 {
        AsciiOfFields(v, keys[1..]);
        AsciiThen(q + ":" + p, ",");
        AsciiConcat(q + ":" + p + ",", RawFields(v, keys[1..]));
      }
    }
  }

  /** The hashed bytes determine the value. */
  lemma PreimageInjective(v: Json, w: Json)
    ensures Preimage(v) == Preimage(w) <==> v == w
  {
    AsciiOfPrint(v);
    AsciiOfPrint(w);
    if Preimage(v) == Preimage(w) {
      EncodeInjective(RawPrint(v), RawPrint(w));
    }
    PrintInjective(v, w);
  }
}
