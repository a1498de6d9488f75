/** The text of canonical JSON itself, in both spellings: separators, key order, numerals and escapes. */
module JsonText {
  import opened Collections
  import opened Orders
  import opened JsonStrings
  import opened CanonicalJson
  import opened PyText
  import opened RawJson
  import opened Utf8

  type Show = Json -> string

  function Shown(items: seq<Json>, show: Show): seq<string>
  {
    seq(|items|, i requires 0 <= i < |items| => show(items[i]))
  }

  /** `[` and `]` around the elements, commas between them. */
  function Bracketed(items: seq<Json>, show: Show): string { "[" + (JoinWith(Shown(items, show), ",") + "]") }

  function FieldText(m: map<string, Json>, k: string, quote: string -> string, show: Show): string
  {
    quote(k) + ":" + if k in m then show(m[k]) else ""
  }

  function FieldTexts(m: map<string, Json>, keys: seq<string>, quote: string -> string, show: Show): seq<string>
  {
    seq(|keys|, i requires 0 <= i < |keys| => FieldText(m, keys[i], quote, show))
  }

  /** `{` and `}` around the fields in the order of their keys, commas between them, a colon in each. */
  function Braced(m: map<string, Json>, keys: seq<string>, quote: string -> string, show: Show): string
  {
    "{" + (JoinWith(FieldTexts(m, keys, quote, show), ",") + "}")
  }

  lemma JoinCons(x: string, xs: seq<string>, close: string)
    ensures JoinWith([x] + xs, ",") + close == if xs == [] then x + close else x + "," + (JoinWith(xs, ",") + close)
  {
    assert ([x] + xs)[1..] == xs;
  }

  lemma ShownCons(items: seq<Json>, show: Show)
    requires items != []
    ensures Shown(items, show) == [show(items[0])] + Shown(items[1..], show)
  {
  }

  lemma FieldTextsCons(m: map<string, Json>, keys: seq<string>, quote: string -> string, show: Show)
    requires keys != []
    ensures FieldTexts(m, keys, quote, show) ==
            [FieldText(m, keys[0], quote, show)] + FieldTexts(m, keys[1..], quote, show)
  {
  }

  lemma {:induction false} ItemsText(items: seq<Json>)
    ensures PrintItems(items) == JoinWith(Shown(items, Print), ",") + "]"
  {
    if items != [] {
      ItemsText(items[1..]);
      ShownCons(items, Print);
      JoinCons(Print(items[0]), Shown(items[1..], Print), "]");
    }
  }

  lemma {:induction false} RawItemsText(items: seq<Json>)
    ensures RawItems(items) == JoinWith(Shown(items, RawPrint), ",") + "]"
  {
    if items != [] {
      RawItemsText(items[1..]);
      ShownCons(items, RawPrint);
      JoinCons(RawPrint(items[0]), Shown(items[1..], RawPrint), "]");
    }
  }

  lemma {:induction false} FieldsText(v: Json, keys: seq<string>)
    requires v.Obj? && forall k :: k in keys ==> k in v.fields
    ensures PrintFields(v, keys) == JoinWith(FieldTexts(v.fields, keys, Quote, Print), ",") + "}"
  {
    if keys != [] {
      FieldsText(v, keys[1..]);
      FieldTextsCons(v.fields, keys, Quote, Print);
      JoinCons(FieldText(v.fields, keys[0], Quote, Print), FieldTexts(v.fields, keys[1..], Quote, Print), "}");
    }
  }

  lemma {:induction false} RawFieldsText(v: Json, keys: seq<string>)
    requires v.Obj? && forall k :: k in keys ==> k in v.fields
    ensures RawFields(v, keys) == JoinWith(FieldTexts(v.fields, keys, RawQuote, RawPrint), ",") + "}"
  {
    if keys != [] {
      RawFieldsText(v, keys[1..]);
      FieldTextsCons(v.fields, keys, RawQuote, RawPrint);
      JoinCons(FieldText(v.fields, keys[0], RawQuote, RawPrint), FieldTexts(v.fields, keys[1..], RawQuote, RawPrint), "}");
    }
  }

  lemma Constants()
    ensures Print(Null) == RawPrint(Null) == "null"
    ensures Print(Bool(true)) == RawPrint(Bool(true)) == "true"
    ensures Print(Bool(false)) == RawPrint(Bool(false)) == "false"
  {
  }

  lemma ArrayText(items: seq<Json>)
    ensures Print(Arr(items)) == Bracketed(items, Print) && RawPrint(Arr(items)) == Bracketed(items, RawPrint)
  {
    ItemsText(items);
    RawItemsText(items);
  }

  /** Both spellings lay an object out alike: no white space, every key once, in code point order. */
  lemma ObjectText(m: map<string, Json>, keys: seq<string>)
    requires Sorted(keys) && Distinct(keys) && forall k :: k in keys <==> k in m
    ensures Print(Obj(m)) == Braced(m, keys, Quote, Print) && RawPrint(Obj(m)) == Braced(m, keys, RawQuote, RawPrint)
  {
    SortedKeysUnique(keys, m.Keys);
    FieldsText(Obj(m), keys);
    RawFieldsText(Obj(m), keys);
  }

  /** Text of decimal digits without a leading zero. */
  predicate Numeral(t: string)
  {
    t != "" && (forall i :: 0 <= i < |t| ==> '0' <= t[i] <= '9') && (t[0] == '0' ==> |t| == 1)
  }

  lemma {:induction false} NumeralText(n: nat)
    ensures Numeral(NatText(n)) && (n > 0 ==> NatText(n)[0] != '0') && NatValue(NatText(n)) == n
  {
    if n >= 10 {
      NumeralText(n / 10);
      var t := NatText(n);
      assert t[..|t| - 1] == NatText(n / 10) && t[|t| - 1] == Digit(n % 10);
    } else {
      assert NatText(n)[..0] == "";
    }
  }

  /** An integer is its numeral, with a minus sign in front of a negative one. */
  lemma IntegerText(n: int)
    ensures Print(Int(n)) == RawPrint(Int(n))
    ensures n >= 0 ==> Numeral(Print(Int(n))) && NatValue(Print(Int(n))) == n
    ensures n < 0 ==> exists t :: Numeral(t) && NatValue(t) == -n && Print(Int(n)) == "-" + t
  {
    NumeralText(if n < 0 then -n else n);
    if n < 0 { assert Print(Int(n)) == "-" + NatText(-n); }
  }

  // ---------------------------------------------------------------- strings

  lemma EscapeOne(c: char)
    requires c as int < 0x10000
    ensures Quote([c]) == "\"" + EscapeUnit(c as int) + "\""
  {
    assert CodePoints([c]) == [c as int];
    assert Utf16([c as int]) == [c as int] + Utf16([]);
    assert EscapeUnits([c as int]) == EscapeUnit(c as int) + EscapeUnits([]);
  }

  /** The seven characters with an escape of their own. */
  lemma ShortEscapes()
    ensures EscapeUnit('\"' as int) == "\\\"" && EscapeUnit('\\' as int) == "\\\\" && EscapeUnit('\n' as int) == "\\n"
    ensures EscapeUnit('\r' as int) == "\\r" && EscapeUnit('\t' as int) == "\\t"
    ensures EscapeUnit(0x0C) == "\\f" && EscapeUnit(0x08) == "\\b"
  {
  }

  /** Printable ASCII stands for itself; every other unit is spelled with the four hexadecimal digits of its value. */
  lemma LongEscapes(u: Unit)
    requires u !in {0x22, 0x5C, 0x0A, 0x0D, 0x09, 0x0C, 0x08}
    ensures 0x20 <= u <= 0x7E ==> EscapeUnit(u) == [u as char]
    ensures u < 0x20 || u >= 0x7F ==>
              |EscapeUnit(u)| == 6 && EscapeUnit(u)[..2] == "\\u" && UnHex4(EscapeUnit(u)[2..]) == Some(u)
  {
    if u < 0x20 || u >= 0x7F {
      HexRoundTrip(u);
      assert EscapeUnit(u)[2..] == Hex4(u);
    }
  }

  /** A character beyond the basic plane becomes two units, high surrogate first. */
  lemma SurrogatePair()
    ensures UnitsOf(0x1F600) == [0xD83D, 0xDE00] && UnitsOf(0x10000) == [0xD800, 0xDC00]
  {
  }

  predicate Ordinary(c: char) { c as int >= 0x20 && c != '\"' && c != '\\' }

  /** The raw spelling leaves everything but quotes, backslashes and control characters as it is. */
  lemma {:induction false} RawKeepsOrdinary(s: string)
    requires forall i :: 0 <= i < |s| ==> Ordinary(s[i])
    ensures RawQuote(s) == "\"" + s + "\""
  {
    if s != "" {
      RawKeepsOrdinary(s[1..]);
      assert RawChars(s[1..]) == s[1..] by {
        assert RawQuote(s[1..])[1..|RawQuote(s[1..])| - 1] == RawChars(s[1..]);
      }
      assert s == [s[0]] + s[1..];
    }
  }

  /** What is hashed of such a text is its own UTF-8 bytes between quotes. */
  lemma OrdinaryTextIsHashedAsIs(s: string)
    requires forall i :: 0 <= i < |s| ==> Ordinary(s[i])
    ensures Preimage(Str(s)) == Encode("\"" + s + "\"")
  {
    RawKeepsOrdinary(s);
  }

  /** And escapes those as the ASCII spelling does. */
  lemma RawEscapesAlike(c: char)
    requires !Ordinary(c)
    ensures RawQuote([c]) == Quote([c])
  {
    EscapeOne(c);
    assert RawChars([c]) == RawChar(c) + RawChars("");
  }

  // ---------------------------------------------------------------- bytes

  /** One character of each length in UTF-8. */
  lemma EncodedSamples()
    ensures Encode("A") == [0x41] && Encode("\U{00E9}") == [0xC3, 0xA9]
    ensures Encode("\U{20AC}") == [0xE2, 0x82, 0xAC] && Encode("\U{1F600}") == [0xF0, 0x9F, 0x98, 0x80]
  {
    EncodeOne('A');
    EncodeOne('\U{00E9}');
    EncodeOne('\U{20AC}');
    EncodeOne('\U{1F600}');
  }

  lemma EncodeOne(c: char)
    ensures Encode([c]) == EncodeChar(c)
  {
    assert Encode([c]) == EncodeChar(c) + Encode("");
  }
}
