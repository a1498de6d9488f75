/**
 * Canonical JSON: `json.dumps(v, sort_keys=True, separators=(",", ":"), ensure_ascii=True)`, and a
 * reader for it (sections 4 to 7 of RFC 8259). An object is a map, so key order does not exist in
 * the value and is fixed by the printer.
 */
module CanonicalJson {
  import opened Collections
  import opened Orders
  import opened JsonStrings

  datatype Json =
    | Null
    | Bool(b: bool)
    | Int(n: int)
    | Str(s: string)
    | Arr(items: seq<Json>)
    | Obj(fields: map<string, Json>)

  // ---------------------------------------------------------------- strings

  function CodePoints(s: string): seq<CodePoint>
  {
    seq(|s|, i requires 0 <= i < |s| => s[i] as int)
  }

  predicate Scalar(c: CodePoint) { !High(c) && !Low(c) }

  function FromCodePoints(cs: seq<CodePoint>): Option<string>
  {
    if forall i :: 0 <= i < |cs| ==> Scalar(cs[i]) then
      Some(seq(|cs|, i requires 0 <= i < |cs| => cs[i] as char))
    else None
  }

  lemma CodePointsRoundTrip(s: string)
    ensures FromCodePoints(CodePoints(s)) == Some(s)
    ensures WellPaired(CodePoints(s))
  {
    var cs := CodePoints(s);
    assert forall i :: 0 <= i < |cs| ==> Scalar(cs[i]);
    assert seq(|cs|, i requires 0 <= i < |cs| => cs[i] as char) == s;
  }

  function Quote(s: string): string { "\"" + Escape(CodePoints(s)) + "\"" }

  /** Reads a quoted string. */
  function Unquote(t: string): (r: Option<(string, string)>)
    ensures r.Some? ==> |r.value.1| + 1 < |t|
  {
    if t == "" || t[0] != '"' then None
    else
      match ReadString(t[1..])
      case None => None
      case Some((cs, rest)) =>
        match FromCodePoints(cs)
        case None => None
        case Some(s) => Some((s, rest))
  }

  lemma UnquoteStep(t: string, cs: seq<CodePoint>, s: string, rest: string)
    requires ReadString(t) == Some((cs, rest)) && FromCodePoints(cs) == Some(s)
    ensures Unquote("\"" + t) == Some((s, rest))
  {
    assert ("\"" + t)[1..] == t;
  }

  lemma ReadEscaped(s: string, rest: string)
    ensures ReadString(Escape(CodePoints(s)) + "\"" + rest) == Some((CodePoints(s), rest))
  {
    CodePointsRoundTrip(s);
    StringRoundTripIff(CodePoints(s), rest);
  }

  lemma QuoteShape(s: string, rest: string)
    ensures Quote(s) + rest == "\"" + (Escape(CodePoints(s)) + "\"" + rest)
  {
  }

  lemma QuoteRoundTrip(s: string, rest: string)
    ensures Unquote(Quote(s) + rest) == Some((s, rest))
  {
    CodePointsRoundTrip(s);
    ReadEscaped(s, rest);
    QuoteShape(s, rest);
    UnquoteStep(Escape(CodePoints(s)) + "\"" + rest, CodePoints(s), s, rest);
  }

  // ---------------------------------------------------------------- numbers

  predicate IsDigit(c: char) { '0' <= c <= '9' }

  function Digit(d: int): char
    requires 0 <= d < 10
  {
    ('0' as int + d) as char
  }

  function NatText(n: nat): string
  {
    if n < 10 then [Digit(n)] else NatText(n / 10) + [Digit(n % 10)]
  }

  function IntText(n: int): string { if n < 0 then "-" + NatText(-n) else NatText(n) }

  /** How many digits `t` starts with. */
  function DigitRun(t: string): (k: nat)
    ensures k <= |t|
  {
    if t == "" || !IsDigit(t[0]) then 0 else 1 + DigitRun(t[1..])
  }

  function NatValue(t: string): nat
    requires forall i :: 0 <= i < |t| ==> IsDigit(t[i])
  {
    if t == "" then 0
    else
      assert IsDigit(t[|t| - 1]);
      NatValue(t[..|t| - 1]) * 10 + (t[|t| - 1] as int - '0' as int)
  }

  lemma {:induction false} DigitRunAll(t: string)
    ensures forall i :: 0 <= i < DigitRun(t) ==> IsDigit(t[i])
  {
    if t != "" && IsDigit(t[0]) {
      DigitRunAll(t[1..]);
      assert forall i :: 0 < i < DigitRun(t) ==> t[i] == t[1..][i - 1];
    }
  }

  function ReadNat(t: string): (r: Option<(nat, string)>)
    ensures r.Some? ==> |r.value.1| < |t|
  {
    var k := DigitRun(t);
    DigitRunAll(t);
    if k == 0 then None else Some((NatValue(t[..k]), t[k..]))
  }

  function ReadInt(t: string): (r: Option<(int, string)>)
    ensures r.Some? ==> |r.value.1| < |t|
  {
    if t != "" && t[0] == '-' then
      match ReadNat(t[1..])
      case None => None
      case Some((n, rest)) => var m: int := -(n as int); Some((m, rest))
    else
      match ReadNat(t)
      case None => None
      case Some((n, rest)) => Some((n, rest))
  }

  /** What may follow a number: nothing, or something that is not another digit. */
  predicate EndsNumber(rest: string) { rest == "" || !IsDigit(rest[0]) }

  lemma {:induction false} NatTextDigits(n: nat)
    ensures |NatText(n)| > 0
    ensures forall i :: 0 <= i < |NatText(n)| ==> IsDigit(NatText(n)[i])
    ensures NatValue(NatText(n)) == n
  {
    if n >= 10 {
      NatTextDigits(n / 10);
      assert NatText(n)[..|NatText(n)| - 1] == NatText(n / 10);
    } else {
      assert NatText(n)[..0] == "";
      assert NatValue("") == 0;
    }
  }

  lemma {:induction false} DigitRunPrefix(d: string, rest: string)
    requires forall i :: 0 <= i < |d| ==> IsDigit(d[i])
    requires EndsNumber(rest)
    ensures DigitRun(d + rest) == |d|
  {
    if d == "" {
      assert d + rest == rest;
    } else {
      assert (d + rest)[1..] == d[1..] + rest;
      DigitRunPrefix(d[1..], rest);
    }
  }

  lemma NatRoundTrip(n: nat, rest: string)
    requires EndsNumber(rest)
    ensures ReadNat(NatText(n) + rest) == Some((n, rest))
    ensures NatText(n) != "" && IsDigit(NatText(n)[0])
  {
    var d := NatText(n);
    NatTextDigits(n);
    DigitRunPrefix(d, rest);
    assert (d + rest)[..|d|] == d && (d + rest)[|d|..] == rest;
  }

  lemma ReadMinus(t: string)
    requires ReadNat(t).Some?
    ensures ReadInt("-" + t) == Some((-(ReadNat(t).value.0 as int), ReadNat(t).value.1))
  {
    assert ("-" + t)[1..] == t;
  }

  lemma ReadPlain(t: string)
    requires ReadNat(t).Some?
    ensures ReadInt(t) == Some((ReadNat(t).value.0 as int, ReadNat(t).value.1))
  {
  }

  lemma IntRoundTrip(n: int, rest: string)
    requires EndsNumber(rest)
    ensures ReadInt(IntText(n) + rest) == Some((n, rest))
  {
    if n < 0 {
      NatRoundTrip(-n, rest);
      ReadMinus(NatText(-n) + rest);
      assert IntText(n) + rest == "-" + (NatText(-n) + rest);
    } else {
      NatRoundTrip(n, rest);
      ReadPlain(NatText(n) + rest);
    }
  }

  lemma IntHead(n: int, rest: string)
    ensures IntText(n) != "" && IntText(n) + rest != ""
    ensures IsDigit((IntText(n) + rest)[0]) || (IntText(n) + rest)[0] == '-'
    ensures (IntText(n) + rest)[0] == IntText(n)[0]
  {
    NatTextDigits(if n < 0 then -n else n);
  }

  // ---------------------------------------------------------------- printing

  function Print(v: Json): string
    decreases v, 1
  {
    match v
    case Null => "null"
    case Bool(b) => if b then "true" else "false"
    case Int(n) => IntText(n)
    case Str(s) => Quote(s)
    case Arr(items) => "[" + PrintItems(items)
    case Obj(fields) => "{" + PrintFields(v, SortedKeys(fields.Keys))
  }

  /** The elements and the closing bracket. */
  function PrintItems(items: seq<Json>): string
    decreases items, 0
  {
    if items == [] then "]"
    else if |items| == 1 then Print(items[0]) + "]"
    else Print(items[0]) + "," + PrintItems(items[1..])
  }

  /** The fields of `v` named by `keys`, in that order, and the closing brace. */
  function PrintFields(v: Json, keys: seq<string>): string
    requires v.Obj? && forall k :: k in keys ==> k in v.fields
    decreases v, 0, |keys|
  {
    if keys == [] then "}"
    else
      var one := Quote(keys[0]) + ":" + Print(v.fields[keys[0]]);
      if |keys| == 1 then one + "}" else one + "," + PrintFields(v, keys[1..])
  }

  // ---------------------------------------------------------------- reading

  function Literal(t: string, word: string, v: Json): Option<(Json, string)>
  {
    if word <= t then Some((v, t[|word|..])) else None
  }

  /** One value at the front of `t`, and the text after it. */
  function Read(t: string): (r: Option<(Json, string)>)
    ensures r.Some? ==> |r.value.1| < |t|
    decreases |t|, 1
  {
    if t == "" then None
    else if t[0] == 'n' then Literal(t, "null", Null)
    else if t[0] == 't' then Literal(t, "true", Bool(true))
    else if t[0] == 'f' then Literal(t, "false", Bool(false))
    else if t[0] == '"' then
      match Unquote(t)
      case None => None
      case Some((s, rest)) => Some((Str(s), rest))
    else if t[0] == '[' then
      if |t| > 1 && t[1] == ']' then Some((Arr([]), t[2..]))
      else
        match ReadItems(t[1..])
        case None => None
        case Some((items, rest)) => Some((Arr(items), rest))
    else if t[0] == '{' then
      if |t| > 1 && t[1] == '}' then Some((Obj(map[]), t[2..]))
      else
        match ReadFields(t[1..])
        case None => None
        case Some((fields, rest)) => Some((Obj(fields), rest))
    else
      match ReadInt(t)
      case None => None
      case Some((n, rest)) => Some((Int(n), rest))
  }

  /** A non-empty list of values up to the closing bracket. */
  function ReadItems(t: string): (r: Option<(seq<Json>, string)>)
    ensures r.Some? ==> |r.value.1| < |t|
    decreases |t|, 2
  {
    match Read(t)
    case None => None
    case Some((v, rest)) =>
      if rest == "" then None
      else if rest[0] == ']' then Some(([v], rest[1..]))
      else if rest[0] == ',' then
        match ReadItems(rest[1..])
        case None => None
        case Some((vs, rest')) => Some(([v] + vs, rest'))
      else None
  }

  /** A non-empty list of fields up to the closing brace; a repeated key is refused. */
  function ReadFields(t: string): (r: Option<(map<string, Json>, string)>)
    ensures r.Some? ==> |r.value.1| < |t|
    decreases |t|, 2
  {
    match Unquote(t)
    case None => None
    case Some((k, afterKey)) =>
      if afterKey == "" || afterKey[0] != ':' then None
      else
        match Read(afterKey[1..])
        case None => None
        case Some((v, rest)) =>
          if rest == "" then None
          else if rest[0] == '}' then Some((map[k := v], rest[1..]))
          else if rest[0] == ',' then
            match ReadFields(rest[1..])
            case None => None
            case Some((m, rest')) => if k in m then None else Some((m[k := v], rest'))
          else None
  }

  // ---------------------------------------------------------------- round trip

  lemma FirstCharacter(v: Json)
    ensures Print(v) != "" && Print(v)[0] != ']' && Print(v)[0] != '}'
  {
    if v.Int? { IntHead(v.n, ""); }
  }

  /** Part of an object's fields. */
  function Restrict(m: map<string, Json>, keys: seq<string>): map<string, Json>
    requires forall k :: k in keys ==> k in m
  {
    map k | k in keys :: m[k]
  }

  // How the reader proceeds, without reference to the printer.

  lemma ReadArr(t: string, items: seq<Json>, rest: string)
    requires t != "" && t[0] != ']' && ReadItems(t) == Some((items, rest))
    ensures Read("[" + t) == Some((Arr(items), rest))
  {
    var u := "[" + t;
    assert u[0] == '[' && u[1] == t[0] && u[1..] == t;
  }

  lemma ReadObj(t: string, fields: map<string, Json>, rest: string)
    requires t != "" && t[0] != '}' && ReadFields(t) == Some((fields, rest))
    ensures Read("{" + t) == Some((Obj(fields), rest))
  {
    var u := "{" + t;
    assert u[0] == '{' && u[1] == t[0] && u[1..] == t;
  }

  lemma ReadEmpty(rest: string)
    ensures Read("[]" + rest) == Some((Arr([]), rest))
    ensures Read("{}" + rest) == Some((Obj(map[]), rest))
  {
    assert ("[]" + rest)[2..] == rest && ("{}" + rest)[2..] == rest;
  }

  lemma ReadItemsStep(t: string, v: Json, tail: string)
    requires Read(t) == Some((v, tail)) && tail != ""
    ensures tail[0] == ']' ==> ReadItems(t) == Some(([v], tail[1..]))
    ensures tail[0] == ',' && ReadItems(tail[1..]).Some? ==>
            ReadItems(t) == Some(([v] + ReadItems(tail[1..]).value.0, ReadItems(tail[1..]).value.1))
  {
  }

  lemma ReadFieldsStep(t: string, k: string, afterKey: string, v: Json, tail: string)
    requires Unquote(t) == Some((k, afterKey)) && afterKey != "" && afterKey[0] == ':'
    requires Read(afterKey[1..]) == Some((v, tail)) && tail != ""
    ensures tail[0] == '}' ==> ReadFields(t) == Some((map[k := v], tail[1..]))
    ensures tail[0] == ',' && ReadFields(tail[1..]).Some? && k !in ReadFields(tail[1..]).value.0 ==>
            ReadFields(t) == Some((ReadFields(tail[1..]).value.0[k := v], ReadFields(tail[1..]).value.1))
  {
  }

  lemma ReadWords(rest: string)
    ensures Read("null" + rest) == Some((Null, rest))
    ensures Read("true" + rest) == Some((Bool(true), rest))
    ensures Read("false" + rest) == Some((Bool(false), rest))
  {
    assert ("null" + rest)[4..] == rest && ("true" + rest)[4..] == rest && ("false" + rest)[5..] == rest;
  }

  lemma ReadNumber(t: string)
    requires ReadInt(t).Some? && t != "" && (IsDigit(t[0]) || t[0] == '-')
    ensures Read(t) == Some((Int(ReadInt(t).value.0), ReadInt(t).value.1))
  {
  }

  lemma ReadQuoted(t: string)
    requires Unquote(t).Some?
    ensures Read(t) == Some((Str(Unquote(t).value.0), Unquote(t).value.1))
  {
  }

  lemma ScalarRoundTrip(v: Json, rest: string)
    requires (v.Int? ==> EndsNumber(rest)) && !v.Arr? && !v.Obj?
    ensures Read(Print(v) + rest) == Some((v, rest))
  {
    match v
    case Null => ReadWords(rest);
    case Bool(_) => ReadWords(rest);
    case Int(n) => IntRoundTrip(n, rest); IntHead(n, rest); ReadNumber(IntText(n) + rest);
    case Str(s) => QuoteRoundTrip(s, rest); ReadQuoted(Quote(s) + rest);
  }

  /** Reading back what was printed gives the value and leaves what followed it; only a number must not run into a digit. */
  lemma {:induction false} PrintRoundTrip(v: Json, rest: string)
    requires v.Int? ==> EndsNumber(rest)
    ensures Read(Print(v) + rest) == Some((v, rest))
    decreases v, 1
  {
    if v.Arr? && v.items != [] {
      ItemsRoundTrip(v.items, rest);
      ArrReadsBack(v, rest);
    } else if v.Obj? && v.fields != map[] {
      var keys := SortedKeys(v.fields.Keys);
      assert keys != [];
      FieldsRoundTrip(v, keys, rest);
      ObjReadsBack(v, keys, rest);
    } else {
      LeafRoundTrip(v, rest);
    }
  }

  lemma LeafRoundTrip(v: Json, rest: string)
    requires (v.Int? ==> EndsNumber(rest)) && (v.Arr? ==> v.items == []) && (v.Obj? ==> v.fields == map[])
    ensures Read(Print(v) + rest) == Some((v, rest))
  {
    if v.Arr? || v.Obj? {
      ReadEmpty(rest);
      assert v.Obj? ==> SortedKeys(v.fields.Keys) == [];
      assert Print(v) == if v.Arr? then "[]" else "{}";
    } else {
      ScalarRoundTrip(v, rest);
    }
  }

  lemma ArrShape(v: Json, rest: string)
    requires v.Arr? && v.items != []
    ensures Print(v) + rest == "[" + (PrintItems(v.items) + rest)
    ensures PrintItems(v.items) != "" && PrintItems(v.items)[0] != ']'
  {
    FirstCharacter(v.items[0]);
    assert PrintItems(v.items)[0] == Print(v.items[0])[0];
  }

  lemma ArrReadsBack(v: Json, rest: string)
    requires v.Arr? && v.items != []
    requires ReadItems(PrintItems(v.items) + rest) == Some((v.items, rest))
    ensures Read(Print(v) + rest) == Some((v, rest))
  {
    ArrShape(v, rest);
    ReadArr(PrintItems(v.items) + rest, v.items, rest);
  }

  lemma ObjShape(v: Json, keys: seq<string>, rest: string)
    requires v.Obj? && keys == SortedKeys(v.fields.Keys) && keys != []
    ensures Print(v) + rest == "{" + (PrintFields(v, keys) + rest)
    ensures PrintFields(v, keys) != "" && PrintFields(v, keys)[0] == '"'
    ensures Restrict(v.fields, keys) == v.fields
  {
    QuoteHead(keys[0]);
    RestrictAll(v.fields);
  }

  lemma ObjReadsBack(v: Json, keys: seq<string>, rest: string)
    requires v.Obj? && keys == SortedKeys(v.fields.Keys) && keys != []
    requires ReadFields(PrintFields(v, keys) + rest) == Some((Restrict(v.fields, keys), rest))
    ensures Read(Print(v) + rest) == Some((v, rest))
  {
    ObjShape(v, keys, rest);
    ReadObj(PrintFields(v, keys) + rest, v.fields, rest);
  }

  lemma ItemsShape(items: seq<Json>, rest: string)
    requires items != []
    ensures var more := if |items| == 1 then rest else PrintItems(items[1..]) + rest;
            PrintItems(items) + rest == Print(items[0]) + ((if |items| == 1 then "]" else ",") + more)
  {
    if |items| == 1 {
      Chain(Print(items[0]), "]", rest);
    } else {
      Chain(Print(items[0]) + ",", PrintItems(items[1..]), rest);
      Chain(Print(items[0]), ",", PrintItems(items[1..]) + rest);
    }
  }

  lemma HeadAndTail(items: seq<Json>)
    requires items != []
    ensures items == [items[0]] + items[1..]
  {
  }

  lemma Chain(a: string, b: string, c: string)
    ensures a + b + c == a + (b + c)
  {
  }

  lemma {:induction false} ItemsRoundTrip(items: seq<Json>, rest: string)
    requires items != []
    ensures ReadItems(PrintItems(items) + rest) == Some((items, rest))
    decreases items, 0
  {
    var more := if |items| == 1 then rest else PrintItems(items[1..]) + rest;
    var tail := (if |items| == 1 then "]" else ",") + more;
    ItemsShape(items, rest);
    PrintRoundTrip(items[0], tail);
    if |items| > 1 {
      ItemsRoundTrip(items[1..], rest);
    }
    ItemsReadBack(Print(items[0]) + tail, items, tail, more, rest);
  }

  lemma ItemsReadBack(t: string, items: seq<Json>, tail: string, more: string, rest: string)
    requires items != [] && Read(t) == Some((items[0], tail))
    requires if |items| == 1 then tail == "]" + more && more == rest
             else tail == "," + more && ReadItems(more) == Some((items[1..], rest))
    ensures ReadItems(t) == Some((items, rest))
  {
    assert tail[1..] == more;
    ReadItemsStep(t, items[0], tail);
    if |items| == 1 {
      assert items == [items[0]];
    } else {
      HeadAndTail(items);
    }
  }

  lemma {:induction false} FieldsRoundTrip(v: Json, keys: seq<string>, rest: string)
    requires v.Obj? && keys != [] && Distinct(keys) && forall k :: k in keys ==> k in v.fields
    ensures ReadFields(PrintFields(v, keys) + rest) == Some((Restrict(v.fields, keys), rest))
    decreases v, 0, |keys|
  {
    var k := keys[0];
    var x := v.fields[k];
    var more := if |keys| == 1 then rest else PrintFields(v, keys[1..]) + rest;
    var tail := (if |keys| == 1 then "}" else ",") + more;
    var afterKey := ":" + (Print(x) + tail);
    PrintFieldsShape(v, keys, rest);
    QuoteRoundTrip(k, afterKey);
    assert afterKey[1..] == Print(x) + tail && tail[1..] == more;
    PrintRoundTrip(x, tail);
    if |keys| > 1 {
      FieldsRoundTrip(v, keys[1..], rest);
    }
    RestrictStep(v.fields, keys);
    ReadFieldsStep(Quote(k) + afterKey, k, afterKey, x, tail);
  }

  lemma Regroup(q: string, p: string, c: string, more: string, rest: string)
    ensures q + ":" + p + c + more + rest == q + (":" + (p + (c + (more + rest))))
  {
  }

  lemma PrintFieldsShape(v: Json, keys: seq<string>, rest: string)
    requires v.Obj? && keys != [] && forall k :: k in keys ==> k in v.fields
    ensures var more := if |keys| == 1 then rest else PrintFields(v, keys[1..]) + rest;
            var tail := (if |keys| == 1 then "}" else ",") + more;
            PrintFields(v, keys) + rest == Quote(keys[0]) + (":" + (Print(v.fields[keys[0]]) + tail))
  {
    var q, p := Quote(keys[0]), Print(v.fields[keys[0]]);
    if |keys| == 1 {
      Regroup(q, p, "}", "", rest);
      assert q + ":" + p + "}" + "" == q + ":" + p + "}" && "" + rest == rest;
    } else {
      Regroup(q, p, ",", PrintFields(v, keys[1..]), rest);
    }
  }

  lemma QuoteHead(s: string)
    ensures Quote(s) != "" && Quote(s)[0] == '"'
  {
  }

  lemma RestrictAll(m: map<string, Json>)
    ensures Restrict(m, SortedKeys(m.Keys)) == m
  {
  }

  lemma RestrictStep(m: map<string, Json>, keys: seq<string>)
    requires keys != [] && Distinct(keys) && forall k :: k in keys ==> k in m
    ensures keys[0] !in Restrict(m, keys[1..])
    ensures Restrict(m, keys) == Restrict(m, keys[1..])[keys[0] := m[keys[0]]]
    ensures |keys| == 1 ==> Restrict(m, keys) == map[keys[0] := m[keys[0]]]
  {
    assert keys == [keys[0]] + keys[1..];
  }

  /** Equal canonical text means equal values: the pre-image of a fingerprint is injective. */
  lemma PrintInjective(v: Json, w: Json)
    ensures Print(v) == Print(w) <==> v == w
  {
    PrintRoundTrip(v, "");
    PrintRoundTrip(w, "");
    assert Print(v) + "" == Print(v) && Print(w) + "" == Print(w);
  }
}
