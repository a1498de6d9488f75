/** What conditions compute, in the numbers, texts and containers they are about. */
module ConditionValues {
  import opened Collections
  import opened Orders
  import opened Conditions
  import opened ConditionErrors

  type Builtins = (Value, string) -> Option<Value>

  // ---------------------------------------------------------------- arithmetic and comparison

  /** Sum, difference and product of integers, left operand first. */
  lemma IntArithmetic(builtin: Builtins, h: Heap, ctx: Context, l: Expr, r: Expr, x: int, y: int)
    requires Eval(ExactOps(builtin), h, ctx, l) == Ok(VInt(x)) && Eval(ExactOps(builtin), h, ctx, r) == Ok(VInt(y))
    ensures Eval(ExactOps(builtin), h, ctx, Binary(Add, l, r)) == Ok(VInt(x + y))
    ensures Eval(ExactOps(builtin), h, ctx, Binary(Sub, l, r)) == Ok(VInt(x - y))
    ensures Eval(ExactOps(builtin), h, ctx, Binary(Mult, l, r)) == Ok(VInt(x * y))
  {
  }

  /** Quotient and remainder; the remainder takes the sign of the divisor. */
  lemma IntDivision(builtin: Builtins, h: Heap, ctx: Context, l: Expr, r: Expr, x: int, y: int)
    requires Eval(ExactOps(builtin), h, ctx, l) == Ok(VInt(x)) && Eval(ExactOps(builtin), h, ctx, r) == Ok(VInt(y))
    ensures y == 0 ==> Eval(ExactOps(builtin), h, ctx, Binary(Div, l, r)) == Eval(ExactOps(builtin), h, ctx, Binary(Mod, l, r)) == Err(ZeroDivision)
    ensures y != 0 ==> Eval(ExactOps(builtin), h, ctx, Binary(Div, l, r)) == Ok(VReal(x as real / y as real))
    ensures y > 0 ==> Eval(ExactOps(builtin), h, ctx, Binary(Mod, l, r)) == Ok(VInt(x % y))
    ensures y < 0 ==> var v := Eval(ExactOps(builtin), h, ctx, Binary(Mod, l, r)); v.Ok? && v.value.VInt? && IsRemainder(x, y, v.value.n)
  {
  }

  /** The remainder of a division by a negative number. */
  ghost predicate IsRemainder(x: int, y: int, m: int) { y < m <= 0 && exists q :: x == y * q + m }

  /** The six orderings and equalities on integers. */
  lemma IntComparisons(builtin: Builtins, h: Heap, ctx: Context, l: Expr, r: Expr, x: int, y: int)
    requires Eval(ExactOps(builtin), h, ctx, l) == Ok(VInt(x)) && Eval(ExactOps(builtin), h, ctx, r) == Ok(VInt(y))
    ensures Eval(ExactOps(builtin), h, ctx, Compare(l, [Link(Lt, r)])) == Ok(VBool(x < y))
    ensures Eval(ExactOps(builtin), h, ctx, Compare(l, [Link(LtE, r)])) == Ok(VBool(x <= y))
    ensures Eval(ExactOps(builtin), h, ctx, Compare(l, [Link(Gt, r)])) == Ok(VBool(x > y))
    ensures Eval(ExactOps(builtin), h, ctx, Compare(l, [Link(GtE, r)])) == Ok(VBool(x >= y))
    ensures Eval(ExactOps(builtin), h, ctx, Compare(l, [Link(Eq, r)])) == Ok(VBool(x == y))
    ensures Eval(ExactOps(builtin), h, ctx, Compare(l, [Link(NotEq, r)])) == Ok(VBool(x != y))
  {
    OneComparison(builtin, h, ctx, l, r, Lt, VInt(x), VInt(y));
    OneComparison(builtin, h, ctx, l, r, LtE, VInt(x), VInt(y));
    OneComparison(builtin, h, ctx, l, r, Gt, VInt(x), VInt(y));
    OneComparison(builtin, h, ctx, l, r, GtE, VInt(x), VInt(y));
    OneComparison(builtin, h, ctx, l, r, Eq, VInt(x), VInt(y));
    OneComparison(builtin, h, ctx, l, r, NotEq, VInt(x), VInt(y));
  }

  function Verdict(v: Outcome): Outcome { if v.Ok? then Ok(VBool(Truthy(v.value))) else v }

  lemma NoLinks(ops: Ops, h: Heap, ctx: Context, a: Value)
    ensures EvalChain(ops, h, ctx, a, []) == Ok(VBool(true))
  {
  }

  lemma OneLink(ops: Ops, h: Heap, ctx: Context, a: Value, l: Link, b: Value)
    requires EvalLink(ops, h, ctx, l) == Ok(b)
    ensures EvalChain(ops, h, ctx, a, [l]) == Verdict(ops.cmp(l.op, a, b))
  {
    NoLinks(ops, h, ctx, b);
    assert [l][0] == l && [l][1..] == [];
  }

  lemma LinkValue(ops: Ops, h: Heap, ctx: Context, r: Expr, op: CmpOp, b: Value)
    requires !op.Unlisted? && Eval(ops, h, ctx, r) == Ok(b)
    ensures EvalLink(ops, h, ctx, Link(op, r)) == Ok(b)
  {
  }

  lemma FirstOperand(ops: Ops, h: Heap, ctx: Context, l: Expr, links: seq<Link>, a: Value)
    requires Eval(ops, h, ctx, l) == Ok(a)
    ensures Eval(ops, h, ctx, Compare(l, links)) == EvalChain(ops, h, ctx, a, links)
  {
  }

  lemma ExactTable(builtin: Builtins, op: CmpOp, a: Value, b: Value)
    ensures ExactOps(builtin).cmp(op, a, b) == ExactCmp(op, a, b)
  {
  }

  /** A single comparison asks the table about the left and then the right value. */
  lemma OneComparison(builtin: Builtins, h: Heap, ctx: Context, l: Expr, r: Expr, op: CmpOp, a: Value, b: Value)
    requires Eval(ExactOps(builtin), h, ctx, l) == Ok(a) && Eval(ExactOps(builtin), h, ctx, r) == Ok(b) && !op.Unlisted?
    ensures Eval(ExactOps(builtin), h, ctx, Compare(l, [Link(op, r)])) == Verdict(ExactCmp(op, a, b))
  {
    var ops := ExactOps(builtin);
    FirstOperand(ops, h, ctx, l, [Link(op, r)], a);
    LinkValue(ops, h, ctx, r, op, b);
    OneLink(ops, h, ctx, a, Link(op, r), b);
    ExactTable(builtin, op, a, b);
  }

  /** `+` joins texts and lists in order. */
  lemma Joining(builtin: Builtins, h: Heap, ctx: Context, l: Expr, r: Expr, a: Value, b: Value)
    requires Eval(ExactOps(builtin), h, ctx, l) == Ok(a) && Eval(ExactOps(builtin), h, ctx, r) == Ok(b)
    ensures a.VStr? && b.VStr? ==> Eval(ExactOps(builtin), h, ctx, Binary(Add, l, r)) == Ok(VStr(a.s + b.s))
    ensures a.VList? && b.VList? ==> Eval(ExactOps(builtin), h, ctx, Binary(Add, l, r)) == Ok(VList(a.items + b.items))
    ensures a.VStr? && b.VInt? ==> Eval(ExactOps(builtin), h, ctx, Binary(Add, l, r)) == Err(TypeErr)
  {
  }

  lemma Signs(builtin: Builtins, h: Heap, ctx: Context, e: Expr, x: int)
    requires Eval(ExactOps(builtin), h, ctx, e) == Ok(VInt(x))
    ensures Eval(ExactOps(builtin), h, ctx, Neg(e)) == Ok(VInt(-x)) && Eval(ExactOps(builtin), h, ctx, Pos(e)) == Ok(VInt(x))
    ensures Eval(ExactOps(builtin), h, ctx, Not(e)) == Ok(VBool(x == 0))
  {
  }

  /** `in` on a list of integers and on a list of texts. */
  lemma Membership(builtin: Builtins, h: Heap, ctx: Context, l: Expr, r: Expr, a: Value, b: Value)
    requires Eval(ExactOps(builtin), h, ctx, l) == Ok(a) && Eval(ExactOps(builtin), h, ctx, r) == Ok(b)
    ensures a.VInt? && b.VList? && (forall i :: 0 <= i < |b.items| ==> b.items[i].VInt?) ==>
            && Eval(ExactOps(builtin), h, ctx, Compare(l, [Link(In, r)])) == Ok(VBool(a in b.items))
            && Eval(ExactOps(builtin), h, ctx, Compare(l, [Link(NotIn, r)])) == Ok(VBool(a !in b.items))
    ensures a.VStr? && b.VList? && (forall i :: 0 <= i < |b.items| ==> b.items[i].VStr?) ==>
            Eval(ExactOps(builtin), h, ctx, Compare(l, [Link(In, r)])) == Ok(VBool(a in b.items))
  {
    OneComparison(builtin, h, ctx, l, r, In, a, b);
    OneComparison(builtin, h, ctx, l, r, NotIn, a, b);
    if a.VInt? && b.VList? && (forall i :: 0 <= i < |b.items| ==> b.items[i].VInt?) {
      MemberIff(b.items, a);
    } else if a.VStr? && b.VList? && (forall i :: 0 <= i < |b.items| ==> b.items[i].VStr?) {
      MemberIff(b.items, a);
    }
  }

  lemma MemberIff(items: seq<Value>, a: Value)
    requires (a.VInt? && forall i :: 0 <= i < |items| ==> items[i].VInt?) || (a.VStr? && forall i :: 0 <= i < |items| ==> items[i].VStr?)
    ensures Member(items, a) <==> a in items
  {
    forall i | 0 <= i < |items| ensures PyEq(a, items[i]) <==> a == items[i] {
    }
  }

  /** The number a value stands for; a truth value stands for one or zero. */
  predicate Stands(v: Value, x: real)
  {
    v == VReal(x) || (v.VInt? && x == v.n as real) || (v == VBool(true) && x == 1.0) || (v == VBool(false) && x == 0.0)
  }

  /** Integers, reals and truth values compare as numbers with each other. */
  lemma MixedNumbers(builtin: Builtins, h: Heap, ctx: Context, l: Expr, r: Expr, a: Value, b: Value, x: real, y: real)
    requires Eval(ExactOps(builtin), h, ctx, l) == Ok(a) && Eval(ExactOps(builtin), h, ctx, r) == Ok(b)
    requires Stands(a, x) && Stands(b, y)
    ensures Eval(ExactOps(builtin), h, ctx, Compare(l, [Link(Lt, r)])) == Ok(VBool(x < y))
    ensures Eval(ExactOps(builtin), h, ctx, Compare(l, [Link(Eq, r)])) == Ok(VBool(x == y))
  {
    OneComparison(builtin, h, ctx, l, r, Lt, a, b);
    OneComparison(builtin, h, ctx, l, r, Eq, a, b);
  }

  /** Equality and code point order of texts. */
  lemma TextOrder(builtin: Builtins, h: Heap, ctx: Context, l: Expr, r: Expr, x: string, y: string)
    requires Eval(ExactOps(builtin), h, ctx, l) == Ok(VStr(x)) && Eval(ExactOps(builtin), h, ctx, r) == Ok(VStr(y))
    ensures Eval(ExactOps(builtin), h, ctx, Compare(l, [Link(Eq, r)])) == Ok(VBool(x == y))
    ensures Eval(ExactOps(builtin), h, ctx, Compare(l, [Link(LtE, r)])) == Ok(VBool(StrLe(x, y)))
    ensures Eval(ExactOps(builtin), h, ctx, Compare(l, [Link(Gt, r)])) == Ok(VBool(!StrLe(x, y)))
  {
    OneComparison(builtin, h, ctx, l, r, Eq, VStr(x), VStr(y));
    OneComparison(builtin, h, ctx, l, r, LtE, VStr(x), VStr(y));
    OneComparison(builtin, h, ctx, l, r, Gt, VStr(x), VStr(y));
    StrLeTotal(x, y);
  }

  lemma PartIff(x: string, y: string)
    ensures (exists i :: 0 <= i <= |y| && x <= y[i..]) <==> exists i, j :: 0 <= i <= j <= |y| && y[i..j] == x
  {
    if i :| 0 <= i <= |y| && x <= y[i..] { assert y[i..i + |x|] == x; }
    if i, j :| 0 <= i <= j <= |y| && y[i..j] == x { assert x == y[i..][..j - i]; }
  }

  /** One text is `in` another when it is a part of it. */
  lemma TextContainment(builtin: Builtins, h: Heap, ctx: Context, l: Expr, r: Expr, x: string, y: string)
    requires Eval(ExactOps(builtin), h, ctx, l) == Ok(VStr(x)) && Eval(ExactOps(builtin), h, ctx, r) == Ok(VStr(y))
    ensures Eval(ExactOps(builtin), h, ctx, Compare(l, [Link(In, r)])) ==
            Ok(VBool(exists i, j :: 0 <= i <= j <= |y| && y[i..j] == x))
  {
    OneComparison(builtin, h, ctx, l, r, In, VStr(x), VStr(y));
    PartIff(x, y);
  }

  // ---------------------------------------------------------------- operands

  /** A failing operand fails the operation with its own error, the left one first. */
  lemma OperandsFail(ops: Ops, h: Heap, ctx: Context, l: Expr, r: Expr, op: BinOp, k: ErrKind)
    requires Eval(ops, h, ctx, l) == Err(k) || (Eval(ops, h, ctx, l).Ok? && Eval(ops, h, ctx, r) == Err(k))
    ensures Eval(ops, h, ctx, Binary(op, l, r)) == Err(k) && Eval(ops, h, ctx, Subscript(l, r)) == Err(k)
  {
  }

  predicate Holds(ops: Ops, h: Heap, ctx: Context, e: Expr)
  {
    var v := Eval(ops, h, ctx, e); v.Ok? && Truthy(v.value)
  }

  predicate Fails(ops: Ops, h: Heap, ctx: Context, e: Expr)
  {
    var v := Eval(ops, h, ctx, e); v.Ok? && !Truthy(v.value)
  }

  /** `and` is decided by the first operand that does not hold, whatever comes after it: its error, or false. */
  lemma {:induction false} AndStops(ops: Ops, h: Heap, ctx: Context, es: seq<Expr>, n: nat)
    requires n <= |es| && (n < |es| ==> !Holds(ops, h, ctx, es[n]))
    requires forall i :: 0 <= i < n ==> Holds(ops, h, ctx, es[i])
    ensures Eval(ops, h, ctx, And(es)) ==
            if n == |es| then Ok(VBool(true))
            else if Eval(ops, h, ctx, es[n]).Err? then Eval(ops, h, ctx, es[n]) else Ok(VBool(false))
  {
    if n > 0 {
      assert Holds(ops, h, ctx, es[0]);
      AndStops(ops, h, ctx, es[1..], n - 1);
    }
  }

  /** And `or` by the first that does not fail. */
  lemma {:induction false} OrStops(ops: Ops, h: Heap, ctx: Context, es: seq<Expr>, n: nat)
    requires n <= |es| && (n < |es| ==> !Fails(ops, h, ctx, es[n]))
    requires forall i :: 0 <= i < n ==> Fails(ops, h, ctx, es[i])
    ensures Eval(ops, h, ctx, Or(es)) ==
            if n == |es| then Ok(VBool(false))
            else if Eval(ops, h, ctx, es[n]).Err? then Eval(ops, h, ctx, es[n]) else Ok(VBool(true))
  {
    if n > 0 {
      assert Fails(ops, h, ctx, es[0]);
      OrStops(ops, h, ctx, es[1..], n - 1);
    }
  }

  // ---------------------------------------------------------------- containers

  lemma {:induction false} AllIff(ops: Ops, h: Heap, ctx: Context, es: seq<Expr>, vs: seq<Value>)
    ensures EvalAll(ops, h, ctx, es) == Ok(vs) <==>
            |vs| == |es| && forall i :: 0 <= i < |es| ==> Eval(ops, h, ctx, es[i]) == Ok(vs[i])
  {
    if es != [] && vs != [] {
      AllIff(ops, h, ctx, es[1..], vs[1..]);
      assert vs == [vs[0]] + vs[1..];
      assert forall i :: 0 < i < |es| ==> es[i] == es[1..][i - 1];
      if EvalAll(ops, h, ctx, es) == Ok(vs) {
        assert vs[1..] == EvalAll(ops, h, ctx, es[1..]).value;
        assert forall i :: 0 < i < |vs| ==> vs[i] == vs[1..][i - 1];
      }
    }
  }

  /** A display has the values of its elements in order; a name has the context's value, and fails without one. */
  lemma DisplaysAndNames(ops: Ops, h: Heap, ctx: Context, es: seq<Expr>, vs: seq<Value>, id: string)
    ensures Eval(ops, h, ctx, ListOf(es)) == Ok(VList(vs)) <==>
            |vs| == |es| && forall i :: 0 <= i < |es| ==> Eval(ops, h, ctx, es[i]) == Ok(vs[i])
    ensures Eval(ops, h, ctx, TupleOf(es)) == Ok(VTuple(vs)) <==>
            |vs| == |es| && forall i :: 0 <= i < |es| ==> Eval(ops, h, ctx, es[i]) == Ok(vs[i])
    ensures id in ctx ==> Eval(ops, h, ctx, Name(id)) == Ok(ctx[id])
    ensures id !in ctx ==> Eval(ops, h, ctx, Name(id)) == Err(KeyErr)
  {
    AllIff(ops, h, ctx, es, vs);
  }

  /** The element at an index from the front or, when negative, from the back. */
  lemma ListElement(ops: Ops, h: Heap, ctx: Context, l: Expr, k: Expr, items: seq<Value>, i: int)
    requires Eval(ops, h, ctx, l) == Ok(VList(items)) && Eval(ops, h, ctx, k) == Ok(VInt(i))
    ensures 0 <= i < |items| ==> Eval(ops, h, ctx, Subscript(l, k)) == Ok(items[i])
    ensures -|items| <= i < 0 ==> Eval(ops, h, ctx, Subscript(l, k)) == Ok(items[|items| + i])
    ensures !(-|items| <= i < |items|) ==> Eval(ops, h, ctx, Subscript(l, k)) == Err(IndexErr)
  {
  }

  lemma TextElement(ops: Ops, h: Heap, ctx: Context, l: Expr, k: Expr, s: string, i: int)
    requires Eval(ops, h, ctx, l) == Ok(VStr(s)) && Eval(ops, h, ctx, k) == Ok(VInt(i))
    ensures 0 <= i < |s| ==> Eval(ops, h, ctx, Subscript(l, k)) == Ok(VStr([s[i]]))
    ensures -|s| <= i < 0 ==> Eval(ops, h, ctx, Subscript(l, k)) == Ok(VStr([s[|s| + i]]))
  {
  }

  /** Inserting under a text key is seen under that key and under no other. */
  lemma {:induction false} FindInserted(entries: seq<Entry>, k: string, v: Value, key: string)
    requires forall i :: 0 <= i < |entries| ==> entries[i].key.VStr?
    ensures Find(Insert(entries, VStr(k), v), VStr(key)) == if key == k then Some(v) else Find(entries, VStr(key))
  {
    if entries != [] {
      var rest := entries[1..];
      FindInserted(rest, k, v, key);
      var r := Insert(entries, VStr(k), v);
      assert r[1..] == if PyEq(VStr(k), entries[0].key) then rest else Insert(rest, VStr(k), v);
    } else {
      var r := Insert(entries, VStr(k), v);
      assert r[1..] == [];
    }
  }

  predicate TextKeys(entries: seq<Entry>) { forall i :: 0 <= i < |entries| ==> entries[i].key.VStr? }

  lemma {:induction false} InsertKeepsTextKeys(entries: seq<Entry>, k: string, v: Value)
    requires TextKeys(entries)
    ensures TextKeys(Insert(entries, VStr(k), v))
  {
    if entries != [] {
      InsertKeepsTextKeys(entries[1..], k, v);
    }
  }

  /** The pairs of a display with constant text keys. */
  predicate TextPairs(ps: seq<Pair>) { forall i :: 0 <= i < |ps| ==> ps[i].key.Const? && ps[i].key.v.VStr? }

  /** The value the last pair with this key holds. */
  function LastValue(ops: Ops, h: Heap, ctx: Context, ps: seq<Pair>, key: string): Option<Value>
  {
    if ps == [] then None
    else
      var p := ps[|ps| - 1];
      if p.key == Const(VStr(key)) && Eval(ops, h, ctx, p.value).Ok? then Some(Eval(ops, h, ctx, p.value).value)
      else LastValue(ops, h, ctx, ps[..|ps| - 1], key)
  }

  /** A pair whose key is a text gives that key. */
  lemma TextPair(ops: Ops, h: Heap, ctx: Context, p: Pair)
    requires p.key.Const? && p.key.v.VStr?
    ensures Eval(ops, h, ctx, p.key) == Ok(p.key.v) && Hashable(p.key.v)
    ensures EvalPair(ops, h, ctx, p).Ok? <==> Eval(ops, h, ctx, p.value).Ok?
    ensures EvalPair(ops, h, ctx, p).Ok? ==> EvalPair(ops, h, ctx, p).value == Entry(p.key.v, Eval(ops, h, ctx, p.value).value)
  {
    assert Eval(ops, h, ctx, p.key) == Ok(p.key.v);
  }

  lemma LastEntry(ops: Ops, h: Heap, ctx: Context, p: Pair, acc: seq<Entry>)
    requires p.key.Const? && p.key.v.VStr? && EvalEntries(ops, h, ctx, [p], acc).Ok?
    ensures Eval(ops, h, ctx, p.value).Ok?
    ensures EvalEntries(ops, h, ctx, [p], acc).value == Insert(acc, p.key.v, Eval(ops, h, ctx, p.value).value)
  {
    TextPair(ops, h, ctx, p);
    var e := EvalPair(ops, h, ctx, p).value;
    assert [p][1..] == [];
    assert EvalEntries(ops, h, ctx, [p], acc) == EvalEntries(ops, h, ctx, [p][1..], Insert(acc, e.key, e.value));
  }

  lemma {:induction false} EntriesSnoc(ops: Ops, h: Heap, ctx: Context, ps: seq<Pair>, p: Pair, acc: seq<Entry>)
    requires p.key.Const? && p.key.v.VStr? && EvalEntries(ops, h, ctx, ps + [p], acc).Ok?
    ensures EvalEntries(ops, h, ctx, ps, acc).Ok? && Eval(ops, h, ctx, p.value).Ok?
    ensures EvalEntries(ops, h, ctx, ps + [p], acc).value ==
            Insert(EvalEntries(ops, h, ctx, ps, acc).value, p.key.v, Eval(ops, h, ctx, p.value).value)
    decreases |ps|
  {
    var all := ps + [p];
    if ps == [] {
      assert all == [p];
      LastEntry(ops, h, ctx, p, acc);
    } else {
      assert all[0] == ps[0] && all[1..] == ps[1..] + [p];
      var e := EvalPair(ops, h, ctx, ps[0]).value;
      EntriesSnoc(ops, h, ctx, ps[1..], p, Insert(acc, e.key, e.value));
    }
  }

  lemma {:induction false} DisplayEntries(ops: Ops, h: Heap, ctx: Context, ps: seq<Pair>, key: string)
    requires TextPairs(ps) && EvalEntries(ops, h, ctx, ps, []).Ok?
    ensures TextKeys(EvalEntries(ops, h, ctx, ps, []).value)
    ensures Find(EvalEntries(ops, h, ctx, ps, []).value, VStr(key)) == LastValue(ops, h, ctx, ps, key)
  {
    if ps != [] {
      var init, p := ps[..|ps| - 1], ps[|ps| - 1];
      assert ps == init + [p];
      EntriesSnoc(ops, h, ctx, init, p, []);
      DisplayEntries(ops, h, ctx, init, key);
      var before, v := EvalEntries(ops, h, ctx, init, []).value, Eval(ops, h, ctx, p.value).value;
      InsertKeepsTextKeys(before, p.key.v.s, v);
      FindInserted(before, p.key.v.s, v, key);
    }
  }

  /** A dictionary display answers a subscript, and an attribute, with the last value given for the key. */
  lemma DisplayLookup(ops: Ops, h: Heap, ctx: Context, ps: seq<Pair>, key: string)
    requires TextPairs(ps) && Eval(ops, h, ctx, DictOf(ps)).Ok?
    ensures Eval(ops, h, ctx, Subscript(DictOf(ps), Const(VStr(key)))) ==
            match LastValue(ops, h, ctx, ps, key) case None => Err(KeyErr) case Some(v) => Ok(v)
    ensures !Private(key) ==> Eval(ops, h, ctx, Attribute(DictOf(ps), key)) == Eval(ops, h, ctx, Subscript(DictOf(ps), Const(VStr(key))))
  {
    DisplayEntries(ops, h, ctx, ps, key);
    assert Eval(ops, h, ctx, DictOf(ps)) == Ok(VDict(EvalEntries(ops, h, ctx, ps, []).value));
    assert Eval(ops, h, ctx, Const(VStr(key))) == Ok(VStr(key));
  }

  /** A public attribute of an object is what the heap holds; a private one is refused whatever it holds. */
  lemma ObjectAttribute(ops: Ops, h: Heap, ctx: Context, e: Expr, ref: nat, attr: string)
    requires Eval(ops, h, ctx, e) == Ok(VObj(ref))
    ensures attr != "" && attr[0] == '_' ==> Eval(ops, h, ctx, Attribute(e, attr)) == Err(ConditionError)
    ensures (attr == "" || attr[0] != '_') && ref in h && attr in h[ref] ==> Eval(ops, h, ctx, Attribute(e, attr)) == Ok(h[ref][attr])
    ensures (attr == "" || attr[0] != '_') && (ref !in h || attr !in h[ref]) ==> Eval(ops, h, ctx, Attribute(e, attr)) == Err(KeyErr)
  {
  }

  // ---------------------------------------------------------------- truth

  /** Exactly eight values are falsy. */
  lemma FalsyIff(v: Value)
    ensures !Truthy(v) <==>
            v in {VNone, VBool(false), VInt(0), VReal(0.0), VStr(""), VList([]), VTuple([]), VDict([])}
  {
  }

  /** The answer of `evaluate`: the truth of the parsed condition, and a condition error for a text of illegal length. */
  lemma EvaluateMeans(ops: Ops, h: Heap, ctx: Context, parse: string -> Result<Expr, ErrKind>, text: string)
    ensures |text| == 0 || |text| > 512 ==> Evaluate(ops, h, ctx, parse, text) == Err(ConditionError)
    ensures 1 <= |text| <= 512 && parse(text).Ok? && Eval(ops, h, ctx, parse(text).value).Ok? ==>
            Evaluate(ops, h, ctx, parse, text) == Ok(Truthy(Eval(ops, h, ctx, parse(text).value).value))
    ensures 1 <= |text| <= 512 && parse(text) == Err(SyntaxErr) ==> Evaluate(ops, h, ctx, parse, text) == Err(ConditionError)
  {
  }
}
