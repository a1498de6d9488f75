/**
 * Canonical JSON of Python values whose strings may hold lone surrogates. Two values print alike
 * exactly when they agree up to the UTF-16 text of their strings. A dictionary is the list of its
 * members in the order of its sorted keys.
 */
module PythonJson {
  import opened Orders
  import opened JsonStrings
  import opened CanonicalJson

  type PyText = seq<CodePoint>
  type Units = seq<Unit>

  /** A JSON value over some kind of strings. */
  datatype Tree<S> = TNull | TBool(b: bool) | TInt(n: int) | TStr(s: S) | TArr(items: seq<Tree<S>>) | TObj(members: seq<Member<S>>)

  datatype Member<S> = Member(key: S, value: Tree<S>)

  // ---------------------------------------------------------------- down to UTF-16

  function ToUnits(v: Tree<PyText>): Tree<Units>
    decreases v, 1
  {
    match v
    case TNull => TNull
    case TBool(b) => TBool(b)
    case TInt(n) => TInt(n)
    case TStr(s) => TStr(Utf16(s))
    case TArr(items) => TArr(ItemsToUnits(items))
    case TObj(members) => TObj(MembersToUnits(members))
  }

  function ItemsToUnits(items: seq<Tree<PyText>>): seq<Tree<Units>>
    decreases items, 0
  {
    if items == [] then [] else [ToUnits(items[0])] + ItemsToUnits(items[1..])
  }

  function MembersToUnits(ms: seq<Member<PyText>>): seq<Member<Units>>
    decreases ms, 0
  {
    if ms == [] then [] else [MemberToUnits(ms[0])] + MembersToUnits(ms[1..])
  }

  function MemberToUnits(m: Member<PyText>): Member<Units>
    decreases m, 2
  {
    Member(Utf16(m.key), ToUnits(m.value))
  }

  // ---------------------------------------------------------------- printing

  function QuoteUnits(us: Units): string { "\"" + EscapeUnits(us) + "\"" }

  function PrintTree(v: Tree<Units>): string
    decreases v, 1
  {
    match v
    case TNull => "null"
    case TBool(b) => if b then "true" else "false"
    case TInt(n) => IntText(n)
    case TStr(us) => QuoteUnits(us)
    case TArr(items) => "[" + (if items == [] then "]" else PrintTree(items[0]) + ItemsTail(items[1..]))
    case TObj(ms) => "{" + (if ms == [] then "}" else PrintMember(ms[0]) + MembersTail(ms[1..]))
  }

  function ItemsTail(items: seq<Tree<Units>>): string
    decreases items, 0
  {
    if items == [] then "]" else "," + (PrintTree(items[0]) + ItemsTail(items[1..]))
  }

  function PrintMember(m: Member<Units>): string
    decreases m, 2
  {
    QuoteUnits(m.key) + (":" + PrintTree(m.value))
  }

  function MembersTail(ms: seq<Member<Units>>): string
    decreases ms, 0
  {
    if ms == [] then "}" else "," + (PrintMember(ms[0]) + MembersTail(ms[1..]))
  }

  /** `json.dumps(v, sort_keys=True, separators=(",", ":"), ensure_ascii=True)`. */
  function PyPrint(v: Tree<PyText>): string { PrintTree(ToUnits(v)) }

  // ---------------------------------------------------------------- equal texts, equal trees

  /** What the first character of a printed value tells. */
  function Kind(c: char): int
  {
    if c == 'n' then 0 else if c == 't' || c == 'f' then 1 else if IsDigit(c) || c == '-' then 2
    else if c == '"' then 3 else if c == '[' then 4 else if c == '{' then 5 else 6
  }

  function KindOf<S>(v: Tree<S>): int
  {
    match v
    case TNull => 0
    case TBool(_) => 1
    case TInt(_) => 2
    case TStr(_) => 3
    case TArr(_) => 4
    case TObj(_) => 5
  }

  lemma HeadTells(v: Tree<Units>)
    ensures PrintTree(v) != "" && Kind(PrintTree(v)[0]) == KindOf(v)
  {
    if v.TInt? { IntHead(v.n, ""); }
  }

  lemma SameHead(a: string, r: string, b: string, s: string)
    requires a + r == b + s && a != "" && b != ""
    ensures a[0] == b[0]
  {
    assert (a + r)[0] == a[0] && (b + s)[0] == b[0];
  }

  lemma SameKind(u: Tree<Units>, r: string, v: Tree<Units>, s: string)
    requires PrintTree(u) + r == PrintTree(v) + s
    ensures KindOf(u) == KindOf(v)
  {
    HeadTells(u);
    HeadTells(v);
    SameHead(PrintTree(u), r, PrintTree(v), s);
  }

  lemma CancelPrefix(p: string, a: string, r: string, b: string, s: string)
    requires p + a + r == p + b + s
    ensures a + r == b + s
  {
    assert (p + a + r)[|p|..] == a + r && (p + b + s)[|p|..] == b + s;
  }

  lemma QuoteTail(a: Units, r: string)
    ensures (QuoteUnits(a) + r)[1..] == EscapeUnits(a) + "\"" + r
  {
    Chain("\"", EscapeUnits(a), "\"");
    Chain("\"", EscapeUnits(a) + "\"", r);
  }

  lemma CancelQuoted(a: Units, r: string, b: Units, s: string)
    requires QuoteUnits(a) + r == QuoteUnits(b) + s
    ensures a == b && r == s
  {
    QuoteTail(a, r);
    QuoteTail(b, s);
    ReadEscapedUnits(a, r);
    ReadEscapedUnits(b, s);
  }

  lemma CancelInt(m: int, r: string, n: int, s: string)
    requires IntText(m) + r == IntText(n) + s && EndsNumber(r) && EndsNumber(s)
    ensures m == n && r == s
  {
    IntRoundTrip(m, r);
    IntRoundTrip(n, s);
  }

  lemma CancelWord(b: bool, r: string, c: bool, s: string)
    requires (if b then "true" else "false") + r == (if c then "true" else "false") + s
    ensures b == c && r == s
  {
    SameHead(if b then "true" else "false", r, if c then "true" else "false", s);
    var w := if b then "true" else "false";
    assert (w + r)[|w|..] == r && (w + s)[|w|..] == s;
  }

  lemma CancelNull(r: string, s: string)
    requires "null" + r == "null" + s
    ensures r == s
  {
    assert ("null" + r)[4..] == r && ("null" + s)[4..] == s;
  }

  /** Printed values can be told apart from what follows them, and determine the tree. */
  lemma {:induction false} Cancel(u: Tree<Units>, r: string, v: Tree<Units>, s: string)
    requires PrintTree(u) + r == PrintTree(v) + s && EndsNumber(r) && EndsNumber(s)
    ensures u == v && r == s
    decreases u, 1
  {
    SameKind(u, r, v, s);
    match u
    case TNull => CancelNull(r, s);
    case TBool(b) => CancelWord(b, r, v.b, s);
    case TInt(n) => CancelInt(n, r, v.n, s);
    case TStr(us) => CancelQuoted(us, r, v.s, s);
    case TArr(_) => CancelArr(u, r, v, s);
    case TObj(_) => CancelObj(u, r, v, s);
  }

  lemma TailEndsNumber(tail: string, r: string)
    requires tail != "" && !IsDigit(tail[0])
    ensures EndsNumber(tail + r)
  {
    assert (tail + r)[0] == tail[0];
  }

  lemma TailHeads(items: seq<Tree<Units>>, ms: seq<Member<Units>>)
    ensures ItemsTail(items) != "" && ItemsTail(items)[0] == if items == [] then ']' else ','
    ensures MembersTail(ms) != "" && MembersTail(ms)[0] == if ms == [] then '}' else ','
  {
  }

  lemma {:induction false} CancelArr(u: Tree<Units>, r: string, v: Tree<Units>, s: string)
    requires u.TArr? && v.TArr? && PrintTree(u) + r == PrintTree(v) + s
    ensures u == v && r == s
    decreases u, 0
  {
    var a := if u.items == [] then "]" else PrintTree(u.items[0]) + ItemsTail(u.items[1..]);
    var b := if v.items == [] then "]" else PrintTree(v.items[0]) + ItemsTail(v.items[1..]);
    CancelPrefix("[", a, r, b, s);
    ArrHead(u.items, a);
    ArrHead(v.items, b);
    SameHead(a, r, b, s);
    if u.items == [] {
      assert (a + r)[1..] == r && (b + s)[1..] == s;
    } else {
      CancelFirst(u.items, r, v.items, s);
    }
  }

  lemma ArrHead(items: seq<Tree<Units>>, body: string)
    requires body == if items == [] then "]" else PrintTree(items[0]) + ItemsTail(items[1..])
    ensures body != "" && (body[0] == ']' <==> items == [])
  {
    if items != [] {
      HeadTells(items[0]);
      assert body[0] == PrintTree(items[0])[0];
    }
  }

  lemma {:induction false} CancelFirst(us: seq<Tree<Units>>, r: string, vs: seq<Tree<Units>>, s: string)
    requires us != [] && vs != []
    requires PrintTree(us[0]) + ItemsTail(us[1..]) + r == PrintTree(vs[0]) + ItemsTail(vs[1..]) + s
    ensures us == vs && r == s
    decreases us, 0
  {
    var t, t' := ItemsTail(us[1..]), ItemsTail(vs[1..]);
    Chain(PrintTree(us[0]), t, r);
    Chain(PrintTree(vs[0]), t', s);
    TailHeads(us[1..], []);
    TailHeads(vs[1..], []);
    TailEndsNumber(t, r);
    TailEndsNumber(t', s);
    Cancel(us[0], t + r, vs[0], t' + s);
    CancelItems(us[1..], r, vs[1..], s);
    assert us == [us[0]] + us[1..] && vs == [vs[0]] + vs[1..];
  }

  lemma {:induction false} CancelItems(us: seq<Tree<Units>>, r: string, vs: seq<Tree<Units>>, s: string)
    requires ItemsTail(us) + r == ItemsTail(vs) + s
    ensures us == vs && r == s
    decreases us, 1
  {
    TailHeads(us, []);
    TailHeads(vs, []);
    SameHead(ItemsTail(us), r, ItemsTail(vs), s);
    if us == [] {
      assert (ItemsTail(us) + r)[1..] == r && (ItemsTail(vs) + s)[1..] == s;
    } else {
      CancelPrefix(",", PrintTree(us[0]) + ItemsTail(us[1..]), r, PrintTree(vs[0]) + ItemsTail(vs[1..]), s);
      CancelFirst(us, r, vs, s);
    }
  }

  lemma {:induction false} CancelObj(u: Tree<Units>, r: string, v: Tree<Units>, s: string)
    requires u.TObj? && v.TObj? && PrintTree(u) + r == PrintTree(v) + s
    ensures u == v && r == s
    decreases u, 0
  {
    var a := if u.members == [] then "}" else PrintMember(u.members[0]) + MembersTail(u.members[1..]);
    var b := if v.members == [] then "}" else PrintMember(v.members[0]) + MembersTail(v.members[1..]);
    CancelPrefix("{", a, r, b, s);
    ObjHead(u.members, a);
    ObjHead(v.members, b);
    SameHead(a, r, b, s);
    if u.members == [] {
      assert (a + r)[1..] == r && (b + s)[1..] == s;
    } else {
      CancelFirstMember(u.members, r, v.members, s);
    }
  }

  lemma MemberHead(m: Member<Units>)
    ensures PrintMember(m) != "" && PrintMember(m)[0] == '"'
  {
  }

  lemma ObjHead(ms: seq<Member<Units>>, body: string)
    requires body == if ms == [] then "}" else PrintMember(ms[0]) + MembersTail(ms[1..])
    ensures body != "" && (body[0] == '}' <==> ms == [])
  {
    if ms != [] {
      MemberHead(ms[0]);
      assert body[0] == PrintMember(ms[0])[0];
    }
  }

  lemma {:induction false} CancelFirstMember(us: seq<Member<Units>>, r: string, vs: seq<Member<Units>>, s: string)
    requires us != [] && vs != []
    requires PrintMember(us[0]) + MembersTail(us[1..]) + r == PrintMember(vs[0]) + MembersTail(vs[1..]) + s
    ensures us == vs && r == s
    decreases us, 0
  {
    var t, t' := MembersTail(us[1..]), MembersTail(vs[1..]);
    Chain(PrintMember(us[0]), t, r);
    Chain(PrintMember(vs[0]), t', s);
    TailHeads([], us[1..]);
    TailHeads([], vs[1..]);
    TailEndsNumber(t, r);
    TailEndsNumber(t', s);
    CancelMember(us[0], t + r, vs[0], t' + s);
    CancelMembers(us[1..], r, vs[1..], s);
    assert us == [us[0]] + us[1..] && vs == [vs[0]] + vs[1..];
  }

  lemma {:induction false} CancelMember(m: Member<Units>, r: string, n: Member<Units>, s: string)
    requires PrintMember(m) + r == PrintMember(n) + s && EndsNumber(r) && EndsNumber(s)
    ensures m == n && r == s
    decreases m, 2
  {
    var x, y := ":" + PrintTree(m.value), ":" + PrintTree(n.value);
    Chain(QuoteUnits(m.key), x, r);
    Chain(QuoteUnits(n.key), y, s);
    CancelQuoted(m.key, x + r, n.key, y + s);
    CancelPrefix(":", PrintTree(m.value), r, PrintTree(n.value), s);
    Cancel(m.value, r, n.value, s);
  }

  lemma {:induction false} CancelMembers(us: seq<Member<Units>>, r: string, vs: seq<Member<Units>>, s: string)
    requires MembersTail(us) + r == MembersTail(vs) + s
    ensures us == vs && r == s
    decreases us, 1
  {
    TailHeads([], us);
    TailHeads([], vs);
    SameHead(MembersTail(us), r, MembersTail(vs), s);
    if us == [] {
      assert (MembersTail(us) + r)[1..] == r && (MembersTail(vs) + s)[1..] == s;
    } else {
      CancelPrefix(",", PrintMember(us[0]) + MembersTail(us[1..]), r, PrintMember(vs[0]) + MembersTail(vs[1..]), s);
      CancelFirstMember(us, r, vs, s);
    }
  }

  /** Python values print alike exactly when they agree up to the UTF-16 text of their strings. */
  lemma PrintsAlikeIff(v: Tree<PyText>, w: Tree<PyText>)
    ensures PyPrint(v) == PyPrint(w) <==> ToUnits(v) == ToUnits(w)
  {
    if PyPrint(v) == PyPrint(w) {
      Cancel(ToUnits(v), "", ToUnits(w), "");
    }
  }

  // ---------------------------------------------------------------- values without split surrogate pairs

  /** No string, key or value, has a high surrogate in front of a low one. */
  predicate AllPaired(v: Tree<PyText>)
    decreases v, 1
  {
    match v
    case TStr(s) => WellPaired(s)
    case TArr(items) => ItemsPaired(items)
    case TObj(ms) => MembersPaired(ms)
    case _ => true
  }

  predicate ItemsPaired(items: seq<Tree<PyText>>)
    decreases items, 0
  {
    items == [] || (AllPaired(items[0]) && ItemsPaired(items[1..]))
  }

  predicate MembersPaired(ms: seq<Member<PyText>>)
    decreases ms, 0
  {
    ms == [] || (MemberPaired(ms[0]) && MembersPaired(ms[1..]))
  }

  predicate MemberPaired(m: Member<PyText>)
    decreases m, 2
  {
    WellPaired(m.key) && AllPaired(m.value)
  }

  lemma Utf16Injective(s: PyText, t: PyText)
    requires WellPaired(s) && WellPaired(t) && Utf16(s) == Utf16(t)
    ensures s == t
  {
    Utf16RoundTrip(s);
    Utf16RoundTrip(t);
  }

  lemma {:induction false} UnitsPin(v: Tree<PyText>, w: Tree<PyText>)
    requires AllPaired(v) && AllPaired(w) && ToUnits(v) == ToUnits(w)
    ensures v == w
    decreases v, 1
  {
    match v
    case TStr(s) => Utf16Injective(s, w.s);
    case TArr(items) => UnitsPinItems(items, w.items);
    case TObj(ms) => UnitsPinMembers(ms, w.members);
    case _ =>
  }

  lemma {:induction false} UnitsPinItems(a: seq<Tree<PyText>>, b: seq<Tree<PyText>>)
    requires ItemsPaired(a) && ItemsPaired(b) && ItemsToUnits(a) == ItemsToUnits(b)
    ensures a == b
    decreases a, 0
  {
    if a != [] && b != [] {
      var x, y := ItemsToUnits(a), ItemsToUnits(b);
      assert x[0] == ToUnits(a[0]) && y[0] == ToUnits(b[0]);
      assert x[1..] == ItemsToUnits(a[1..]) && y[1..] == ItemsToUnits(b[1..]);
      UnitsPin(a[0], b[0]);
      UnitsPinItems(a[1..], b[1..]);
      assert a == [a[0]] + a[1..] && b == [b[0]] + b[1..];
    }
  }

  lemma {:induction false} UnitsPinMembers(a: seq<Member<PyText>>, b: seq<Member<PyText>>)
    requires MembersPaired(a) && MembersPaired(b) && MembersToUnits(a) == MembersToUnits(b)
    ensures a == b
    decreases a, 0
  {
    if a != [] && b != [] {
      var x, y := MembersToUnits(a), MembersToUnits(b);
      assert x[0] == MemberToUnits(a[0]) && y[0] == MemberToUnits(b[0]);
      assert x[1..] == MembersToUnits(a[1..]) && y[1..] == MembersToUnits(b[1..]);
      UnitsPinMember(a[0], b[0]);
      UnitsPinMembers(a[1..], b[1..]);
      assert a == [a[0]] + a[1..] && b == [b[0]] + b[1..];
    }
  }

  lemma {:induction false} UnitsPinMember(m: Member<PyText>, n: Member<PyText>)
    requires MemberPaired(m) && MemberPaired(n) && MemberToUnits(m) == MemberToUnits(n)
    ensures m == n
    decreases m, 2
  {
    Utf16Injective(m.key, n.key);
    UnitsPin(m.value, n.value);
  }

  /** Without split surrogate pairs the canonical text determines the value; with them it may not. */
  lemma PairedPrintsInjective(v: Tree<PyText>, w: Tree<PyText>)
    requires AllPaired(v) && AllPaired(w)
    ensures PyPrint(v) == PyPrint(w) <==> v == w
  {
    PrintsAlikeIff(v, w);
    if ToUnits(v) == ToUnits(w) { UnitsPin(v, w); }
  }

  // ---------------------------------------------------------------- the surrogate-free values

  /** A value whose strings are Unicode text, its keys in sorted order. */
  function Embed(v: Json): Tree<PyText>
    decreases v, 1
  {
    match v
    case Null => TNull
    case Bool(b) => TBool(b)
    case Int(n) => TInt(n)
    case Str(s) => TStr(CodePoints(s))
    case Arr(items) => TArr(EmbedItems(items))
    case Obj(fields) => TObj(EmbedFields(v, SortedKeys(fields.Keys)))
  }

  function EmbedItems(items: seq<Json>): seq<Tree<PyText>>
    decreases items, 0
  {
    if items == [] then [] else [Embed(items[0])] + EmbedItems(items[1..])
  }

  function EmbedFields(v: Json, keys: seq<string>): seq<Member<PyText>>
    requires v.Obj? && forall k :: k in keys ==> k in v.fields
    decreases v, 0, |keys|
  {
    if keys == [] then [] else [Member(CodePoints(keys[0]), Embed(v.fields[keys[0]]))] + EmbedFields(v, keys[1..])
  }

  function Texted(v: Json): Tree<Units> { ToUnits(Embed(v)) }

  lemma ItemsCons(items: seq<Json>)
    requires items != []
    ensures var us := ItemsToUnits(EmbedItems(items));
            us != [] && us[0] == Texted(items[0]) && us[1..] == ItemsToUnits(EmbedItems(items[1..]))
  {
    assert EmbedItems(items)[1..] == EmbedItems(items[1..]);
  }

  lemma FieldsCons(v: Json, keys: seq<string>)
    requires v.Obj? && keys != [] && forall k :: k in keys ==> k in v.fields
    ensures var us := MembersToUnits(EmbedFields(v, keys));
            && us != [] && us[0] == Member(Utf16(CodePoints(keys[0])), Texted(v.fields[keys[0]]))
            && us[1..] == MembersToUnits(EmbedFields(v, keys[1..]))
  {
    assert EmbedFields(v, keys)[1..] == EmbedFields(v, keys[1..]);
  }

  /** On those the printer is the one of the contract fingerprint. */
  lemma {:induction false} EmbedPrints(v: Json)
    ensures PyPrint(Embed(v)) == Print(v)
    decreases v, 2
  {
    if v.Arr? && v.items != [] {
      ItemsEmbed(v.items);
      ItemsCons(v.items);
    } else if v.Obj? {
      FieldsPrint(v);
    } else {
      LeafPrints(v);
    }
  }

  lemma LeafPrints(v: Json)
    requires !v.Obj? && (v.Arr? ==> v.items == [])
    ensures PyPrint(Embed(v)) == Print(v)
  {
    match v
    case Str(s) => assert Texted(v) == TStr(Utf16(CodePoints(s)));
    case Arr(items) =>
      assert EmbedItems(items) == [];
      assert Texted(v) == TArr([]);
      assert PrintItems(items) == "]";
    case Null => assert Texted(v) == TNull;
    case Bool(b) => assert Texted(v) == TBool(b);
    case Int(n) => assert Texted(v) == TInt(n);
  }

  lemma ObjPrinted(v: Json, keys: seq<string>)
    requires v.Obj? && keys == SortedKeys(v.fields.Keys)
    ensures Print(v) == "{" + PrintFields(v, keys)
  {
  }

  lemma ObjTexted(v: Json, keys: seq<string>)
    requires v.Obj? && keys == SortedKeys(v.fields.Keys)
    ensures Texted(v) == TObj(MembersToUnits(EmbedFields(v, keys)))
  {
  }

  lemma MembersPrinted(ms: seq<Member<Units>>, body: string)
    requires body == if ms == [] then "}" else PrintMember(ms[0]) + MembersTail(ms[1..])
    ensures PrintTree(TObj(ms)) == "{" + body
  {
  }

  lemma {:induction false} FieldsPrint(v: Json)
    requires v.Obj?
    ensures PyPrint(Embed(v)) == Print(v)
    decreases v, 1
  {
    var keys := SortedKeys(v.fields.Keys);
    if keys != [] {
      FieldsEmbed(v, keys);
      FieldsCons(v, keys);
    }
    ObjPrinted(v, keys);
    ObjTexted(v, keys);
    MembersPrinted(MembersToUnits(EmbedFields(v, keys)), PrintFields(v, keys));
  }

  lemma {:induction false} ItemsEmbed(items: seq<Json>)
    requires items != []
    ensures PrintTree(Texted(items[0])) + ItemsTail(ItemsToUnits(EmbedItems(items[1..]))) == PrintItems(items)
    decreases items, 0
  {
    EmbedPrints(items[0]);
    var rest := items[1..];
    if rest != [] {
      ItemsEmbed(rest);
      ItemsCons(rest);
      assert ItemsTail(ItemsToUnits(EmbedItems(rest))) == "," + PrintItems(rest);
      Chain(Print(items[0]), ",", PrintItems(rest));
    }
  }

  lemma {:induction false} FieldsEmbed(v: Json, keys: seq<string>)
    requires v.Obj? && keys != [] && forall k :: k in keys ==> k in v.fields
    ensures PrintMember(Member(Utf16(CodePoints(keys[0])), Texted(v.fields[keys[0]])))
            + MembersTail(MembersToUnits(EmbedFields(v, keys[1..]))) == PrintFields(v, keys)
    decreases v, 0, |keys|
  {
    var x := v.fields[keys[0]];
    EmbedPrints(x);
    var q, rest := Quote(keys[0]), keys[1..];
    Chain(q, ":", Print(x));
    if rest != [] {
      FieldsEmbed(v, rest);
      FieldsCons(v, rest);
      assert MembersTail(MembersToUnits(EmbedFields(v, rest))) == "," + PrintFields(v, rest);
      Chain(q + ":" + Print(x), ",", PrintFields(v, rest));
    }
  }
}
