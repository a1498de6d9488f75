/** Which failure of a condition leaves `evaluate` unwrapped, and the operator table with exact arithmetic. */
module ConditionErrors {
  import opened Collections
  import opened Orders
  import opened Conditions

  /** The operators raise no index error, as those of Python's numbers, strings and containers do not. */
  ghost predicate Tame(ops: Ops)
  {
    && (forall op, a, b :: ops.bin(op, a, b) != Err(IndexErr))
    && (forall op, a, b :: ops.cmp(op, a, b) != Err(IndexErr))
    && (forall a :: ops.neg(a) != Err(IndexErr) && ops.pos(a) != Err(IndexErr))
  }

  // ---------------------------------------------------------------- what an evaluation reaches

  /**
   * Evaluating `e` evaluates `sub`: every operand before it succeeds, no `and`, `or` or comparison
   * has stopped short of it, and it is not hidden behind a private name or a forbidden operator.
   */
  predicate Demanded(ops: Ops, h: Heap, ctx: Context, sub: Expr, e: Expr)
    decreases e, 1
  {
    sub == e ||
    match e
    case ListOf(elts) => DemandedAll(ops, h, ctx, sub, elts)
    case TupleOf(elts) => DemandedAll(ops, h, ctx, sub, elts)
    case DictOf(pairs) => DemandedEntries(ops, h, ctx, sub, pairs)
    case Attribute(value, attr) => !Private(attr) && Demanded(ops, h, ctx, sub, value)
    case Subscript(value, slice) =>
      Demanded(ops, h, ctx, sub, value) || (Eval(ops, h, ctx, value).Ok? && Demanded(ops, h, ctx, sub, slice))
    case And(values) => DemandedAnd(ops, h, ctx, sub, values)
    case Or(values) => DemandedOr(ops, h, ctx, sub, values)
    case Not(x) => Demanded(ops, h, ctx, sub, x)
    case Neg(x) => Demanded(ops, h, ctx, sub, x)
    case Pos(x) => Demanded(ops, h, ctx, sub, x)
    case Binary(_, left, right) =>
      Demanded(ops, h, ctx, sub, left) || (Eval(ops, h, ctx, left).Ok? && Demanded(ops, h, ctx, sub, right))
    case Compare(first, links) =>
      || Demanded(ops, h, ctx, sub, first)
      || (Eval(ops, h, ctx, first).Ok? && DemandedChain(ops, h, ctx, sub, Eval(ops, h, ctx, first).value, links))
    case _ => false
  }

  predicate DemandedAll(ops: Ops, h: Heap, ctx: Context, sub: Expr, es: seq<Expr>)
    decreases es, 0
  {
    es != [] &&
    (Demanded(ops, h, ctx, sub, es[0]) || (Eval(ops, h, ctx, es[0]).Ok? && DemandedAll(ops, h, ctx, sub, es[1..])))
  }

  predicate DemandedAnd(ops: Ops, h: Heap, ctx: Context, sub: Expr, es: seq<Expr>)
    decreases es, 0
  {
    es != [] &&
    var v := Eval(ops, h, ctx, es[0]);
    Demanded(ops, h, ctx, sub, es[0]) || (v.Ok? && Truthy(v.value) && DemandedAnd(ops, h, ctx, sub, es[1..]))
  }

  predicate DemandedOr(ops: Ops, h: Heap, ctx: Context, sub: Expr, es: seq<Expr>)
    decreases es, 0
  {
    es != [] &&
    var v := Eval(ops, h, ctx, es[0]);
    Demanded(ops, h, ctx, sub, es[0]) || (v.Ok? && !Truthy(v.value) && DemandedOr(ops, h, ctx, sub, es[1..]))
  }

  predicate DemandedEntries(ops: Ops, h: Heap, ctx: Context, sub: Expr, ps: seq<Pair>)
    decreases ps, 0
  {
    ps != [] &&
    var entry := EvalPair(ops, h, ctx, ps[0]);
    || DemandedPair(ops, h, ctx, sub, ps[0])
    || (entry.Ok? && Hashable(entry.value.key) && DemandedEntries(ops, h, ctx, sub, ps[1..]))
  }

  predicate DemandedPair(ops: Ops, h: Heap, ctx: Context, sub: Expr, p: Pair)
    decreases p, 2
  {
    Demanded(ops, h, ctx, sub, p.key) || (Eval(ops, h, ctx, p.key).Ok? && Demanded(ops, h, ctx, sub, p.value))
  }

  predicate DemandedChain(ops: Ops, h: Heap, ctx: Context, sub: Expr, left: Value, links: seq<Link>)
    decreases links, 0
  {
    links != [] &&
    var right := EvalLink(ops, h, ctx, links[0]);
    || DemandedLink(ops, h, ctx, sub, links[0])
    || (right.Ok? && Holds(ops, links[0].op, left, right.value) && DemandedChain(ops, h, ctx, sub, right.value, links[1..]))
  }

  predicate DemandedLink(ops: Ops, h: Heap, ctx: Context, sub: Expr, l: Link)
    decreases l, 2
  {
    !l.op.Unlisted? && Demanded(ops, h, ctx, sub, l.operand)
  }

  predicate Holds(ops: Ops, op: CmpOp, a: Value, b: Value) { ops.cmp(op, a, b).Ok? && Truthy(ops.cmp(op, a, b).value) }

  // ---------------------------------------------------------------- who raised the index error

  function Length(v: Value): Option<int>
  {
    match v
    case VList(items) => Some(|items|)
    case VTuple(parts) => Some(|parts|)
    case VStr(s) => Some(|s|)
    case _ => None
  }

  /** A subscript whose sequence and integer index both evaluate, with the index out of range. */
  predicate Overrun(ops: Ops, h: Heap, ctx: Context, e: Expr)
  {
    && e.Subscript?
    && var v := Eval(ops, h, ctx, e.value);
       var k := Eval(ops, h, ctx, e.slice);
       && v.Ok? && k.Ok? && Length(v.value).Some? && AsIndex(k.value).Some?
       && !(-Length(v.value).value <= AsIndex(k.value).value < Length(v.value).value)
  }

  lemma OverrunIff(v: Value, k: Value)
    ensures Index(v, k) == Err(IndexErr) <==>
            Length(v).Some? && AsIndex(k).Some? && !(-Length(v).value <= AsIndex(k).value < Length(v).value)
  {
  }

  lemma AttrNeverOverruns(ops: Ops, h: Heap, v: Value, attr: string)
    ensures Attr(ops, h, v, attr) != Err(IndexErr)
  {
  }

  /** An index error is always the work of some evaluated subscript that overruns. */
  lemma {:induction false} Blame(ops: Ops, h: Heap, ctx: Context, e: Expr) returns (sub: Expr)
    requires Tame(ops) && Eval(ops, h, ctx, e) == Err(IndexErr)
    ensures Demanded(ops, h, ctx, sub, e) && Overrun(ops, h, ctx, sub)
    decreases e, 1
  {
    match e
    case ListOf(elts) => sub := BlameAll(ops, h, ctx, elts);
    case TupleOf(elts) => sub := BlameAll(ops, h, ctx, elts);
    case DictOf(pairs) => sub := BlameEntries(ops, h, ctx, pairs, []);
    case Attribute(value, attr) =>
      if Eval(ops, h, ctx, value).Ok? { AttrNeverOverruns(ops, h, Eval(ops, h, ctx, value).value, attr); }
      sub := Blame(ops, h, ctx, value);
    case Subscript(_, _) => sub := BlameSubscript(ops, h, ctx, e);
    case And(values) => sub := BlameAnd(ops, h, ctx, values);
    case Or(values) => sub := BlameOr(ops, h, ctx, values);
    case Not(x) => sub := Blame(ops, h, ctx, x);
    case Neg(x) => sub := Blame(ops, h, ctx, x);
    case Pos(x) => sub := Blame(ops, h, ctx, x);
    case Binary(_, _, _) => sub := BlameBinary(ops, h, ctx, e);
    case Compare(_, _) => sub := BlameCompare(ops, h, ctx, e);
  }

  lemma {:induction false} BlameSubscript(ops: Ops, h: Heap, ctx: Context, e: Expr) returns (sub: Expr)
    requires Tame(ops) && e.Subscript? && Eval(ops, h, ctx, e) == Err(IndexErr)
    ensures Demanded(ops, h, ctx, sub, e) && Overrun(ops, h, ctx, sub)
    decreases e, 0
  {
    var v, k := Eval(ops, h, ctx, e.value), Eval(ops, h, ctx, e.slice);
    if v.Err? {
      sub := Blame(ops, h, ctx, e.value);
    } else if k.Err? {
      sub := Blame(ops, h, ctx, e.slice);
    } else {
      OverrunIff(v.value, k.value);
      sub := e;
    }
  }

  lemma {:induction false} BlameBinary(ops: Ops, h: Heap, ctx: Context, e: Expr) returns (sub: Expr)
    requires Tame(ops) && e.Binary? && Eval(ops, h, ctx, e) == Err(IndexErr)
    ensures Demanded(ops, h, ctx, sub, e) && Overrun(ops, h, ctx, sub)
    decreases e, 0
  {
    if Eval(ops, h, ctx, e.left).Err? { sub := Blame(ops, h, ctx, e.left); } else { sub := Blame(ops, h, ctx, e.right); }
  }

  lemma {:induction false} BlameCompare(ops: Ops, h: Heap, ctx: Context, e: Expr) returns (sub: Expr)
    requires Tame(ops) && e.Compare? && Eval(ops, h, ctx, e) == Err(IndexErr)
    ensures Demanded(ops, h, ctx, sub, e) && Overrun(ops, h, ctx, sub)
    decreases e, 0
  {
    var v := Eval(ops, h, ctx, e.first);
    if v.Err? { sub := Blame(ops, h, ctx, e.first); } else { sub := BlameChain(ops, h, ctx, v.value, e.links); }
  }

  lemma {:induction false} BlameAll(ops: Ops, h: Heap, ctx: Context, es: seq<Expr>) returns (sub: Expr)
    requires Tame(ops) && EvalAll(ops, h, ctx, es) == Err(IndexErr)
    ensures DemandedAll(ops, h, ctx, sub, es) && Overrun(ops, h, ctx, sub)
    decreases es, 0
  {
    if Eval(ops, h, ctx, es[0]).Err? { sub := Blame(ops, h, ctx, es[0]); } else { sub := BlameAll(ops, h, ctx, es[1..]); }
  }

  lemma {:induction false} BlameAnd(ops: Ops, h: Heap, ctx: Context, es: seq<Expr>) returns (sub: Expr)
    requires Tame(ops) && EvalAnd(ops, h, ctx, es) == Err(IndexErr)
    ensures DemandedAnd(ops, h, ctx, sub, es) && Overrun(ops, h, ctx, sub)
    decreases es, 0
  {
    if Eval(ops, h, ctx, es[0]).Err? { sub := Blame(ops, h, ctx, es[0]); } else { sub := BlameAnd(ops, h, ctx, es[1..]); }
  }

  lemma {:induction false} BlameOr(ops: Ops, h: Heap, ctx: Context, es: seq<Expr>) returns (sub: Expr)
    requires Tame(ops) && EvalOr(ops, h, ctx, es) == Err(IndexErr)
    ensures DemandedOr(ops, h, ctx, sub, es) && Overrun(ops, h, ctx, sub)
    decreases es, 0
  {
    if Eval(ops, h, ctx, es[0]).Err? { sub := Blame(ops, h, ctx, es[0]); } else { sub := BlameOr(ops, h, ctx, es[1..]); }
  }

  lemma {:induction false} BlameEntries(ops: Ops, h: Heap, ctx: Context, ps: seq<Pair>, acc: seq<Entry>) returns (sub: Expr)
    requires Tame(ops) && EvalEntries(ops, h, ctx, ps, acc) == Err(IndexErr)
    ensures DemandedEntries(ops, h, ctx, sub, ps) && Overrun(ops, h, ctx, sub)
    decreases ps, 0
  {
    var entry := EvalPair(ops, h, ctx, ps[0]);
    if entry.Err? {
      sub := BlamePair(ops, h, ctx, ps[0]);
    } else {
      sub := BlameEntries(ops, h, ctx, ps[1..], Insert(acc, entry.value.key, entry.value.value));
    }
  }

  lemma {:induction false} BlamePair(ops: Ops, h: Heap, ctx: Context, p: Pair) returns (sub: Expr)
    requires Tame(ops) && EvalPair(ops, h, ctx, p) == Err(IndexErr)
    ensures DemandedPair(ops, h, ctx, sub, p) && Overrun(ops, h, ctx, sub)
    decreases p, 2
  {
    if Eval(ops, h, ctx, p.key).Err? { sub := Blame(ops, h, ctx, p.key); } else { sub := Blame(ops, h, ctx, p.value); }
  }

  lemma {:induction false} BlameChain(ops: Ops, h: Heap, ctx: Context, left: Value, links: seq<Link>) returns (sub: Expr)
    requires Tame(ops) && EvalChain(ops, h, ctx, left, links) == Err(IndexErr)
    ensures DemandedChain(ops, h, ctx, sub, left, links) && Overrun(ops, h, ctx, sub)
    decreases links, 0
  {
    var right := EvalLink(ops, h, ctx, links[0]);
    if right.Err? {
      sub := BlameLink(ops, h, ctx, links[0]);
    } else {
      sub := BlameChain(ops, h, ctx, right.value, links[1..]);
    }
  }

  lemma {:induction false} BlameLink(ops: Ops, h: Heap, ctx: Context, l: Link) returns (sub: Expr)
    requires Tame(ops) && EvalLink(ops, h, ctx, l) == Err(IndexErr)
    ensures DemandedLink(ops, h, ctx, sub, l) && Overrun(ops, h, ctx, sub)
    decreases l, 2
  {
    sub := Blame(ops, h, ctx, l.operand);
  }

  // ---------------------------------------------------------------- an overrun that is reached is raised

  lemma {:induction false} ReachedRaises(ops: Ops, h: Heap, ctx: Context, sub: Expr, e: Expr)
    requires Overrun(ops, h, ctx, sub) && Demanded(ops, h, ctx, sub, e)
    ensures Eval(ops, h, ctx, e) == Err(IndexErr)
    decreases e, 1
  {
    if sub == e {
      OverrunIff(Eval(ops, h, ctx, e.value).value, Eval(ops, h, ctx, e.slice).value);
    } else {
      match e
      case ListOf(elts) => RaisesAll(ops, h, ctx, sub, elts);
      case TupleOf(elts) => RaisesAll(ops, h, ctx, sub, elts);
      case DictOf(pairs) => RaisesEntries(ops, h, ctx, sub, pairs, []);
      case Attribute(value, _) => ReachedRaises(ops, h, ctx, sub, value);
      case Subscript(value, slice) =>
        if Demanded(ops, h, ctx, sub, value) { ReachedRaises(ops, h, ctx, sub, value); } else { ReachedRaises(ops, h, ctx, sub, slice); }
      case And(values) => RaisesAnd(ops, h, ctx, sub, values);
      case Or(values) => RaisesOr(ops, h, ctx, sub, values);
      case Not(x) => ReachedRaises(ops, h, ctx, sub, x);
      case Neg(x) => ReachedRaises(ops, h, ctx, sub, x);
      case Pos(x) => ReachedRaises(ops, h, ctx, sub, x);
      case Binary(_, left, right) =>
        if Demanded(ops, h, ctx, sub, left) { ReachedRaises(ops, h, ctx, sub, left); } else { ReachedRaises(ops, h, ctx, sub, right); }
      case Compare(first, links) =>
        if Demanded(ops, h, ctx, sub, first) {
          ReachedRaises(ops, h, ctx, sub, first);
        } else {
          RaisesChain(ops, h, ctx, sub, Eval(ops, h, ctx, first).value, links);
        }
    }
  }

  lemma {:induction false} RaisesAll(ops: Ops, h: Heap, ctx: Context, sub: Expr, es: seq<Expr>)
    requires Overrun(ops, h, ctx, sub) && DemandedAll(ops, h, ctx, sub, es)
    ensures EvalAll(ops, h, ctx, es) == Err(IndexErr)
    decreases es, 0
  {
    if Demanded(ops, h, ctx, sub, es[0]) { ReachedRaises(ops, h, ctx, sub, es[0]); } else { RaisesAll(ops, h, ctx, sub, es[1..]); }
  }

  lemma {:induction false} RaisesAnd(ops: Ops, h: Heap, ctx: Context, sub: Expr, es: seq<Expr>)
    requires Overrun(ops, h, ctx, sub) && DemandedAnd(ops, h, ctx, sub, es)
    ensures EvalAnd(ops, h, ctx, es) == Err(IndexErr)
    decreases es, 0
  {
    if Demanded(ops, h, ctx, sub, es[0]) { ReachedRaises(ops, h, ctx, sub, es[0]); } else { RaisesAnd(ops, h, ctx, sub, es[1..]); }
  }

  lemma {:induction false} RaisesOr(ops: Ops, h: Heap, ctx: Context, sub: Expr, es: seq<Expr>)
    requires Overrun(ops, h, ctx, sub) && DemandedOr(ops, h, ctx, sub, es)
    ensures EvalOr(ops, h, ctx, es) == Err(IndexErr)
    decreases es, 0
  {
    if Demanded(ops, h, ctx, sub, es[0]) { ReachedRaises(ops, h, ctx, sub, es[0]); } else { RaisesOr(ops, h, ctx, sub, es[1..]); }
  }

  lemma {:induction false} RaisesEntries(ops: Ops, h: Heap, ctx: Context, sub: Expr, ps: seq<Pair>, acc: seq<Entry>)
    requires Overrun(ops, h, ctx, sub) && DemandedEntries(ops, h, ctx, sub, ps)
    ensures EvalEntries(ops, h, ctx, ps, acc) == Err(IndexErr)
    decreases ps, 0
  {
    if DemandedPair(ops, h, ctx, sub, ps[0]) {
      RaisesPair(ops, h, ctx, sub, ps[0]);
    } else {
      var entry := EvalPair(ops, h, ctx, ps[0]).value;
      RaisesEntries(ops, h, ctx, sub, ps[1..], Insert(acc, entry.key, entry.value));
    }
  }

  lemma {:induction false} RaisesPair(ops: Ops, h: Heap, ctx: Context, sub: Expr, p: Pair)
    requires Overrun(ops, h, ctx, sub) && DemandedPair(ops, h, ctx, sub, p)
    ensures EvalPair(ops, h, ctx, p) == Err(IndexErr)
    decreases p, 2
  {
    if Demanded(ops, h, ctx, sub, p.key) { ReachedRaises(ops, h, ctx, sub, p.key); } else { ReachedRaises(ops, h, ctx, sub, p.value); }
  }

  lemma {:induction false} RaisesChain(ops: Ops, h: Heap, ctx: Context, sub: Expr, left: Value, links: seq<Link>)
    requires Overrun(ops, h, ctx, sub) && DemandedChain(ops, h, ctx, sub, left, links)
    ensures EvalChain(ops, h, ctx, left, links) == Err(IndexErr)
    decreases links, 0
  {
    if DemandedLink(ops, h, ctx, sub, links[0]) {
      RaisesLink(ops, h, ctx, sub, links[0]);
    } else {
      RaisesChain(ops, h, ctx, sub, EvalLink(ops, h, ctx, links[0]).value, links[1..]);
    }
  }

  lemma {:induction false} RaisesLink(ops: Ops, h: Heap, ctx: Context, sub: Expr, l: Link)
    requires Overrun(ops, h, ctx, sub) && DemandedLink(ops, h, ctx, sub, l)
    ensures EvalLink(ops, h, ctx, l) == Err(IndexErr)
    decreases l, 2
  {
    ReachedRaises(ops, h, ctx, sub, l.operand);
  }

  // ---------------------------------------------------------------- main results

  /** An expression raises an index error exactly when it reaches a subscript that overruns. */
  lemma OverrunIsRaisedIff(ops: Ops, h: Heap, ctx: Context, e: Expr)
    requires Tame(ops)
    ensures Eval(ops, h, ctx, e) == Err(IndexErr) <==>
            exists sub :: Demanded(ops, h, ctx, sub, e) && Overrun(ops, h, ctx, sub)
  {
    if Eval(ops, h, ctx, e) == Err(IndexErr) {
      var sub := Blame(ops, h, ctx, e);
    }
    forall sub | Demanded(ops, h, ctx, sub, e) && Overrun(ops, h, ctx, sub)
      ensures Eval(ops, h, ctx, e) == Err(IndexErr)
    {
      ReachedRaises(ops, h, ctx, sub, e);
    }
  }

  /**
   * `evaluate` raises nothing but condition errors and index errors, and an index error exactly
   * when the text has a legal length, parses, and its evaluation reaches a subscript that overruns.
   */
  lemma EscapeIff(ops: Ops, h: Heap, ctx: Context, parse: string -> Result<Expr, ErrKind>, text: string)
    requires Tame(ops) && parse(text) != Err(IndexErr)
    ensures var r := Evaluate(ops, h, ctx, parse, text);
            && (r.Err? ==> r.error == ConditionError || r.error == IndexErr)
            && (r == Err(IndexErr) <==>
                  && 0 < |text| <= MAX_CONDITION && parse(text).Ok?
                  && exists sub :: Demanded(ops, h, ctx, sub, parse(text).value) && Overrun(ops, h, ctx, sub))
  {
    if parse(text).Ok? {
      OverrunIsRaisedIff(ops, h, ctx, parse(text).value);
    }
  }

  /** The condition `[][0]` is such a text. */
  lemma EmptyListSubscriptEscapes(ops: Ops, h: Heap, ctx: Context, parse: string -> Result<Expr, ErrKind>)
    requires Tame(ops) && parse("[][0]") == Ok(Subscript(ListOf([]), Const(VInt(0))))
    ensures Evaluate(ops, h, ctx, parse, "[][0]") == Err(IndexErr)
  {
    var e := Subscript(ListOf([]), Const(VInt(0)));
    assert Eval(ops, h, ctx, e.value) == Ok(VList([])) && Eval(ops, h, ctx, e.slice) == Ok(VInt(0));
    assert Demanded(ops, h, ctx, e, e) && Overrun(ops, h, ctx, e);
    EscapeIff(ops, h, ctx, parse, "[][0]");
  }

  // ---------------------------------------------------------------- exact arithmetic

  function Int2(v: Value): Option<int> { AsIndex(v) }

  /** Python's floor division and modulo: the remainder takes the sign of the divisor. */
  function PyMod(a: int, b: int): (r: int)
    requires b != 0
    ensures b > 0 ==> 0 <= r < b
    ensures b < 0 ==> b < r <= 0
    ensures exists q :: a == b * q + r
  {
    if b > 0 then
      assert a == b * (a / b) + a % b;
      a % b
    else
      var m := -b;
      assert a == m * (a / m) + a % m;
      if a % m == 0 then
        assert a == b * (-(a / m)) + 0;
        0
      else
        assert a == b * (-(a / m) - 1) + (a % m + b);
        a % m + b
  }

  function ExactBin(op: BinOp, a: Value, b: Value): Outcome
  {
    match (Int2(a), Int2(b))
    case (Some(x), Some(y)) =>
      (match op
       case Add => Ok(VInt(x + y))
       case Sub => Ok(VInt(x - y))
       case Mult => Ok(VInt(x * y))
       case Div => if y == 0 then Err(ZeroDivision) else Ok(VReal(x as real / y as real))
       case Mod => if y == 0 then Err(ZeroDivision) else Ok(VInt(PyMod(x, y))))
    case _ =>
      match (Number(a), Number(b))
      case (Some(x), Some(y)) =>
        (match op
         case Add => Ok(VReal(x + y))
         case Sub => Ok(VReal(x - y))
         case Mult => Ok(VReal(x * y))
         case Div => if y == 0.0 then Err(ZeroDivision) else Ok(VReal(x / y))
         case Mod => if y == 0.0 then Err(ZeroDivision) else Ok(VReal(x - y * (x / y).Floor as real)))
      case _ =>
        if op.Add? && a.VStr? && b.VStr? then Ok(VStr(a.s + b.s))
        else if op.Add? && a.VList? && b.VList? then Ok(VList(a.items + b.items))
        else if op.Add? && a.VTuple? && b.VTuple? then Ok(VTuple(a.parts + b.parts))
        else Err(TypeErr)
  }

  function OrderBy(op: CmpOp, le: bool, ge: bool): Outcome
  {
    match op
    case Lt => Ok(VBool(le && !ge))
    case LtE => Ok(VBool(le))
    case Gt => Ok(VBool(ge && !le))
    case GtE => Ok(VBool(ge))
    case _ => Err(TypeErr)
  }

  predicate Member(items: seq<Value>, a: Value) { exists i :: 0 <= i < |items| && PyEq(a, items[i]) }

  /** `a in b`. */
  function ContainsValue(b: Value, a: Value): Outcome
  {
    match b
    case VList(items) => Ok(VBool(Member(items, a)))
    case VTuple(parts) => Ok(VBool(Member(parts, a)))
    case VDict(entries) => if !Hashable(a) then Err(TypeErr) else Ok(VBool(Find(entries, a).Some?))
    case VStr(s) => if a.VStr? then Ok(VBool(exists i :: 0 <= i <= |s| && a.s <= s[i..])) else Err(TypeErr)
    case _ => Err(TypeErr)
  }

  function ExactCmp(op: CmpOp, a: Value, b: Value): Outcome
  {
    match op
    case Eq => Ok(VBool(PyEq(a, b)))
    case NotEq => Ok(VBool(!PyEq(a, b)))
    case In => ContainsValue(b, a)
    case NotIn => var r :- ContainsValue(b, a); Ok(VBool(!Truthy(r)))
    case _ =>
      match (Number(a), Number(b))
      case (Some(x), Some(y)) => OrderBy(op, x <= y, y <= x)
      case _ =>
        if a.VStr? && b.VStr? then OrderBy(op, StrLe(a.s, b.s), StrLe(b.s, a.s)) else Err(TypeErr)
  }

  function ExactNeg(a: Value): Outcome
  {
    if Int2(a).Some? then Ok(VInt(-Int2(a).value)) else if a.VReal? then Ok(VReal(-a.x)) else Err(TypeErr)
  }

  function ExactPos(a: Value): Outcome
  {
    if Int2(a).Some? then Ok(VInt(Int2(a).value)) else if a.VReal? then Ok(a) else Err(TypeErr)
  }

  /** The two operator tables with exact numbers. */
  function ExactOps(builtin: (Value, string) -> Option<Value>): Ops
  {
    Ops(ExactBin, ExactCmp, ExactNeg, ExactPos, builtin)
  }

  lemma ExactOpsAreTame(builtin: (Value, string) -> Option<Value>)
    ensures Tame(ExactOps(builtin))
  {
    forall op, a, b ensures ExactBin(op, a, b) != Err(IndexErr) {}
    forall op, a, b ensures ExactCmp(op, a, b) != Err(IndexErr) {}
  }
}
