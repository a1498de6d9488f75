/**
 * The restricted evaluator for workflow conditions, over an expression datatype. What the
 * operators do is a parameter (`Ops`): every theorem that does not name a table holds for all of
 * them. Objects live in a heap and are compared by identity.
 */
module Conditions {
  import opened Collections

  datatype Value =
    | VNone
    | VBool(b: bool)
    | VInt(n: int)
    | VReal(x: real)
    | VStr(s: string)
    | VList(items: seq<Value>)
    | VTuple(parts: seq<Value>)
    | VDict(entries: seq<Entry>)
    | VObj(ref: nat)

  datatype Entry = Entry(key: Value, value: Value)

  /** Exception classes an evaluation can raise. */
  datatype ErrKind = ConditionError | SyntaxErr | TypeErr | ValueErr | KeyErr | ZeroDivision | IndexErr

  type Outcome = Result<Value, ErrKind>

  datatype BinOp = Add | Sub | Mult | Div | Mod

  /** `Unlisted` stands for the comparison operators outside the table: `is` and `is not`. */
  datatype CmpOp = Eq | NotEq | Lt | LtE | Gt | GtE | In | NotIn | Unlisted

  datatype Expr =
    | Const(v: Value)
    | Name(id: string)
    | ListOf(elts: seq<Expr>)
    | TupleOf(elts: seq<Expr>)
    | DictOf(pairs: seq<Pair>)      // the key of `**x` is `Forbidden`
    | Attribute(value: Expr, attr: string)
    | Subscript(value: Expr, slice: Expr)
    | And(values: seq<Expr>)
    | Or(values: seq<Expr>)
    | Not(operand: Expr)
    | Neg(operand: Expr)
    | Pos(operand: Expr)
    | Binary(op: BinOp, left: Expr, right: Expr)
    | Compare(first: Expr, links: seq<Link>)
    | Forbidden       // any other node: calls, lambdas, slices, `**`, `~`, ...

  datatype Pair = Pair(key: Expr, value: Expr)

  datatype Link = Link(op: CmpOp, operand: Expr)

  /** Attributes of each object. */
  type Heap = map<nat, map<string, Value>>

  type Context = map<string, Value>

  /** The operator tables and the attributes of built-in values. */
  datatype Ops = Ops(
    bin: (BinOp, Value, Value) -> Outcome,
    cmp: (CmpOp, Value, Value) -> Outcome,
    neg: Value -> Outcome,
    pos: Value -> Outcome,
    builtin: (Value, string) -> Option<Value>)

  // ---------------------------------------------------------------- values

  predicate Truthy(v: Value)
  {
    match v
    case VNone => false
    case VBool(b) => b
    case VInt(n) => n != 0
    case VReal(x) => x != 0.0
    case VStr(s) => s != ""
    case VList(items) => items != []
    case VTuple(parts) => parts != []
    case VDict(entries) => entries != []
    case VObj(_) => true
  }

  /** The number a value counts as in comparisons and arithmetic: booleans are integers. */
  function Number(v: Value): Option<real>
  {
    match v
    case VBool(b) => Some(if b then 1.0 else 0.0)
    case VInt(n) => Some(n as real)
    case VReal(x) => Some(x)
    case _ => None
  }

  /** `a == b`; objects are equal only to themselves. */
  predicate PyEq(a: Value, b: Value)
    decreases a, 1
  {
    if Number(a).Some? then Number(b) == Number(a)
    else
      match a
      case VStr(s) => b.VStr? && b.s == s
      case VList(items) => b.VList? && AllEq(items, b.items)
      case VTuple(parts) => b.VTuple? && AllEq(parts, b.parts)
      case VDict(entries) => b.VDict? && |entries| == |b.entries| && EntriesIn(entries, b.entries)
      case _ => a == b
  }

  predicate AllEq(xs: seq<Value>, ys: seq<Value>)
    decreases xs, 0
  {
    |xs| == |ys| && (xs == [] || (PyEq(xs[0], ys[0]) && AllEq(xs[1..], ys[1..])))
  }

  /** Every entry of `xs` has an equal key with an equal value in `ys`. */
  predicate EntriesIn(xs: seq<Entry>, ys: seq<Entry>)
    decreases xs, 0
  {
    xs == [] || (EntryIn(xs[0], ys) && EntriesIn(xs[1..], ys))
  }

  predicate EntryIn(x: Entry, ys: seq<Entry>)
    decreases x, 2
  {
    exists j :: 0 <= j < |ys| && PyEq(x.key, ys[j].key) && PyEq(x.value, ys[j].value)
  }

  predicate Hashable(v: Value)
  {
    match v
    case VList(_) => false
    case VDict(_) => false
    case VTuple(parts) => forall i :: 0 <= i < |parts| ==> Hashable(parts[i])
    case _ => true
  }

  /** The value under a key of a dictionary. */
  function Find(entries: seq<Entry>, key: Value): Option<Value>
  {
    if entries == [] then None
    else if PyEq(key, entries[0].key) then Some(entries[0].value)
    else Find(entries[1..], key)
  }

  /** Inserting into a dictionary: an equal key keeps its place and takes the new value. */
  function Insert(entries: seq<Entry>, key: Value, v: Value): seq<Entry>
  {
    if entries == [] then [Entry(key, v)]
    else if PyEq(key, entries[0].key) then [Entry(entries[0].key, v)] + entries[1..]
    else [entries[0]] + Insert(entries[1..], key, v)
  }

  /** The integer a value indexes with, when it is one. */
  function AsIndex(v: Value): Option<int>
  {
    match v
    case VInt(n) => Some(n)
    case VBool(b) => Some(if b then 1 else 0)
    case _ => None
  }

  /** `seq[key]` for lists, tuples and strings: negative indices count from the end. */
  function ItemAt<T>(items: seq<T>, key: Value, wrap: T -> Value): Outcome
  {
    match AsIndex(key)
    case None => Err(TypeErr)
    case Some(i) =>
      var j := if i < 0 then i + |items| else i;
      if 0 <= j < |items| then Ok(wrap(items[j])) else Err(IndexErr)
  }

  function OneChar(c: char): Value { VStr([c]) }

  function Self(v: Value): Value { v }

  function Index(v: Value, key: Value): Outcome
  {
    match v
    case VList(items) => ItemAt(items, key, Self)
    case VTuple(parts) => ItemAt(parts, key, Self)
    case VStr(s) => ItemAt(s, key, OneChar)
    case VDict(entries) =>
      if !Hashable(key) then Err(TypeErr)
      else
        (match Find(entries, key)
         case None => Err(KeyErr)
         case Some(x) => Ok(x))
    case _ => Err(TypeErr)
  }

  predicate Private(attr: string) { attr != "" && attr[0] == '_' }

  /** Attribute access of a public name: mappings by key, objects through the heap. */
  function Attr(ops: Ops, h: Heap, v: Value, attr: string): Outcome
  {
    match v
    case VDict(entries) =>
      (match Find(entries, VStr(attr))
       case None => Err(KeyErr)
       case Some(x) => Ok(x))
    case VObj(ref) =>
      if ref in h && attr in h[ref] then Ok(h[ref][attr]) else Err(KeyErr)
    case _ =>
      match ops.builtin(v, attr)
      case None => Err(KeyErr)
      case Some(x) => Ok(x)
  }

  // ---------------------------------------------------------------- evaluation

  function Eval(ops: Ops, h: Heap, ctx: Context, e: Expr): Outcome
    decreases e, 1
  {
    match e
    case Const(v) => Ok(v)
    case Name(id) => if id in ctx then Ok(ctx[id]) else Err(KeyErr)
    case ListOf(elts) => var vs :- EvalAll(ops, h, ctx, elts); Ok(VList(vs))
    case TupleOf(elts) => var vs :- EvalAll(ops, h, ctx, elts); Ok(VTuple(vs))
    case DictOf(pairs) => var es :- EvalEntries(ops, h, ctx, pairs, []); Ok(VDict(es))
    case Attribute(value, attr) =>
      if Private(attr) then Err(ConditionError)
      else var v :- Eval(ops, h, ctx, value); Attr(ops, h, v, attr)
    case Subscript(value, slice) =>
      var v :- Eval(ops, h, ctx, value);
      var k :- Eval(ops, h, ctx, slice);
      Index(v, k)
    case And(values) => EvalAnd(ops, h, ctx, values)
    case Or(values) => EvalOr(ops, h, ctx, values)
    case Not(x) => var v :- Eval(ops, h, ctx, x); Ok(VBool(!Truthy(v)))
    case Neg(x) => var v :- Eval(ops, h, ctx, x); ops.neg(v)
    case Pos(x) => var v :- Eval(ops, h, ctx, x); ops.pos(v)
    case Binary(op, left, right) =>
      var a :- Eval(ops, h, ctx, left);
      var b :- Eval(ops, h, ctx, right);
      ops.bin(op, a, b)
    case Compare(first, links) =>
      var v :- Eval(ops, h, ctx, first);
      EvalChain(ops, h, ctx, v, links)
    case Forbidden => Err(ConditionError)
  }

  function EvalAll(ops: Ops, h: Heap, ctx: Context, es: seq<Expr>): Result<seq<Value>, ErrKind>
    decreases es, 0
  {
    if es == [] then Ok([])
    else
      var v :- Eval(ops, h, ctx, es[0]);
      var vs :- EvalAll(ops, h, ctx, es[1..]);
      Ok([v] + vs)
  }

  /** A dictionary display: key, then value, then insertion, pair by pair. */
  function EvalEntries(ops: Ops, h: Heap, ctx: Context, pairs: seq<Pair>, acc: seq<Entry>)
    : Result<seq<Entry>, ErrKind>
    decreases pairs, 0
  {
    if pairs == [] then Ok(acc)
    else
      var entry :- EvalPair(ops, h, ctx, pairs[0]);
      if !Hashable(entry.key) then Err(TypeErr)
      else EvalEntries(ops, h, ctx, pairs[1..], Insert(acc, entry.key, entry.value))
  }

  function EvalPair(ops: Ops, h: Heap, ctx: Context, p: Pair): Result<Entry, ErrKind>
    decreases p, 2
  {
    var k :- Eval(ops, h, ctx, p.key);
    var v :- Eval(ops, h, ctx, p.value);
    Ok(Entry(k, v))
  }

  /** `and`: stops at the first operand that is not truthy; the result is always a boolean. */
  function EvalAnd(ops: Ops, h: Heap, ctx: Context, es: seq<Expr>): Outcome
    decreases es, 0
  {
    if es == [] then Ok(VBool(true))
    else
      var v :- Eval(ops, h, ctx, es[0]);
      if !Truthy(v) then Ok(VBool(false)) else EvalAnd(ops, h, ctx, es[1..])
  }

  function EvalOr(ops: Ops, h: Heap, ctx: Context, es: seq<Expr>): Outcome
    decreases es, 0
  {
    if es == [] then Ok(VBool(false))
    else
      var v :- Eval(ops, h, ctx, es[0]);
      if Truthy(v) then Ok(VBool(true)) else EvalOr(ops, h, ctx, es[1..])
  }

  /** The rest of a chained comparison, with `left` the operand evaluated last. */
  function EvalChain(ops: Ops, h: Heap, ctx: Context, left: Value, links: seq<Link>): Outcome
    decreases links, 0
  {
    if links == [] then Ok(VBool(true))
    else
      var right :- EvalLink(ops, h, ctx, links[0]);
      var holds :- ops.cmp(links[0].op, left, right);
      if !Truthy(holds) then Ok(VBool(false)) else EvalChain(ops, h, ctx, right, links[1..])
  }

  /** The comparator of one link; an operator outside the table is refused before it is evaluated. */
  function EvalLink(ops: Ops, h: Heap, ctx: Context, l: Link): Outcome
    decreases l, 2
  {
    if l.op.Unlisted? then Err(ConditionError) else Eval(ops, h, ctx, l.operand)
  }

  // ---------------------------------------------------------------- the public entry point

  const MAX_CONDITION := 512

  /** The exception classes the handler of `evaluate` turns into a condition error. */
  predicate Wrapped(k: ErrKind) { !k.IndexErr? }

  function Wrap(k: ErrKind): ErrKind { if Wrapped(k) then ConditionError else k }

  /** `evaluate`; `parse` is `ast.parse`, failing with a syntax or value error. */
  function Evaluate(ops: Ops, h: Heap, ctx: Context, parse: string -> Result<Expr, ErrKind>, text: string): Result<bool, ErrKind>
  {
    if text == "" || |text| > MAX_CONDITION then Err(ConditionError)
    else
      match parse(text)
      case Err(k) => Err(Wrap(k))
      case Ok(e) =>
        match Eval(ops, h, ctx, e)
        case Err(k) => Err(Wrap(k))
        case Ok(v) => Ok(Truthy(v))
  }
}
