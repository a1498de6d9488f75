/** `_eval` with its loops: displays, `and`, `or` and chained comparison run step by step. */
module ConditionInterpreter {
  import opened Collections
  import opened Conditions

  /** The recursive walk of the tree computes the function the laws are stated about. */
  method Interpret(ops: Ops, h: Heap, ctx: Context, e: Expr) returns (r: Outcome)
    ensures r == Eval(ops, h, ctx, e)
    decreases e, 1
  {
    match e {
      case Const(v) => r := Ok(v);
      case Name(id) => r := if id in ctx then Ok(ctx[id]) else Err(KeyErr);
      case ListOf(elts) =>
        var vs := InterpretAll(ops, h, ctx, elts);
        r := if vs.Ok? then Ok(VList(vs.value)) else Err(vs.error);
      case TupleOf(elts) =>
        var vs := InterpretAll(ops, h, ctx, elts);
        r := if vs.Ok? then Ok(VTuple(vs.value)) else Err(vs.error);
      case DictOf(pairs) =>
        var es := InterpretEntries(ops, h, ctx, pairs);
        r := if es.Ok? then Ok(VDict(es.value)) else Err(es.error);
      case Attribute(value, attr) =>
        if Private(attr) {
          return Err(ConditionError);
        }
        var v := Interpret(ops, h, ctx, value);
        r := if v.Ok? then Attr(ops, h, v.value, attr) else v;
      case Subscript(_, _) => r := InterpretSubscript(ops, h, ctx, e);
      case And(values) => r := InterpretAnd(ops, h, ctx, values);
      case Or(values) => r := InterpretOr(ops, h, ctx, values);
      case Not(_) => r := InterpretUnary(ops, h, ctx, e);
      case Neg(_) => r := InterpretUnary(ops, h, ctx, e);
      case Pos(_) => r := InterpretUnary(ops, h, ctx, e);
      case Binary(_, _, _) => r := InterpretBinary(ops, h, ctx, e);
      case Compare(first, links) =>
        var v := Interpret(ops, h, ctx, first);
        if v.Err? {
          return v;
        }
        r := InterpretChain(ops, h, ctx, v.value, links);
      case Forbidden => r := Err(ConditionError);
    }
  }

  method InterpretSubscript(ops: Ops, h: Heap, ctx: Context, e: Expr) returns (r: Outcome)
    requires e.Subscript?
    ensures r == Eval(ops, h, ctx, e)
    decreases e, 0
  {
    var v := Interpret(ops, h, ctx, e.value);
    if v.Err? {
      return v;
    }
    var k := Interpret(ops, h, ctx, e.slice);
    r := if k.Ok? then Index(v.value, k.value) else k;
  }

  method InterpretUnary(ops: Ops, h: Heap, ctx: Context, e: Expr) returns (r: Outcome)
    requires e.Not? || e.Neg? || e.Pos?
    ensures r == Eval(ops, h, ctx, e)
    decreases e, 0
  {
    match e {
      case Not(x) =>
        var v := Interpret(ops, h, ctx, x);
        r := if v.Ok? then Ok(VBool(!Truthy(v.value))) else v;
      case Neg(x) =>
        var v := Interpret(ops, h, ctx, x);
        r := if v.Ok? then ops.neg(v.value) else v;
      case Pos(x) =>
        var v := Interpret(ops, h, ctx, x);
        r := if v.Ok? then ops.pos(v.value) else v;
    }
  }

  method InterpretBinary(ops: Ops, h: Heap, ctx: Context, e: Expr) returns (r: Outcome)
    requires e.Binary?
    ensures r == Eval(ops, h, ctx, e)
    decreases e, 0
  {
    var a := Interpret(ops, h, ctx, e.left);
    if a.Err? {
      return a;
    }
    var b := Interpret(ops, h, ctx, e.right);
    r := if b.Ok? then ops.bin(e.op, a.value, b.value) else b;
  }

  /** `EvalAll` after the values `done` were computed for a prefix. */
  function Resume(done: seq<Value>, rest: Result<seq<Value>, ErrKind>): Result<seq<Value>, ErrKind>
  {
    if rest.Ok? then Ok(done + rest.value) else rest
  }

  lemma ResumeLaws(done: seq<Value>, v: Value, rest: Result<seq<Value>, ErrKind>)
    ensures Resume([], rest) == rest
    ensures Resume(done, Ok([])) == Ok(done)
    ensures Resume(done + [v], rest) == Resume(done, if rest.Ok? then Ok([v] + rest.value) else rest)
  {
    if rest.Ok? {
      assert [] + rest.value == rest.value;
      assert done + [v] + rest.value == done + ([v] + rest.value);
    }
    assert done + [] == done;
  }

  method InterpretAll(ops: Ops, h: Heap, ctx: Context, es: seq<Expr>) returns (r: Result<seq<Value>, ErrKind>)
    ensures r == EvalAll(ops, h, ctx, es)
    decreases es, 0
  {
    var vs: seq<Value> := [];
    var i := 0;
    assert es[0..] == es;
    ResumeLaws([], VNone, EvalAll(ops, h, ctx, es));
    while i < |es|
      invariant i <= |es|
      invariant EvalAll(ops, h, ctx, es) == Resume(vs, EvalAll(ops, h, ctx, es[i..]))
    {
      var v := Interpret(ops, h, ctx, es[i]);
      assert es[i..][0] == es[i] && es[i..][1..] == es[i + 1..];
      if v.Err? {
        return Err(v.error);
      }
      ResumeLaws(vs, v.value, EvalAll(ops, h, ctx, es[i + 1..]));
      vs := vs + [v.value];
      i := i + 1;
    }
    ResumeLaws(vs, VNone, Ok([]));
    return Ok(vs);
  }

  method InterpretEntries(ops: Ops, h: Heap, ctx: Context, pairs: seq<Pair>) returns (r: Result<seq<Entry>, ErrKind>)
    ensures r == EvalEntries(ops, h, ctx, pairs, [])
    decreases pairs, 0
  {
    var acc: seq<Entry> := [];
    var i := 0;
    while i < |pairs|
      invariant i <= |pairs|
      invariant EvalEntries(ops, h, ctx, pairs, []) == EvalEntries(ops, h, ctx, pairs[i..], acc)
    {
      assert pairs[i..][0] == pairs[i] && pairs[i..][1..] == pairs[i + 1..];
      var entry := InterpretPair(ops, h, ctx, pairs[i]);
      if entry.Err? {
        return Err(entry.error);
      }
      if !Hashable(entry.value.key) {
        return Err(TypeErr);
      }
      acc := Insert(acc, entry.value.key, entry.value.value);
      i := i + 1;
    }
    return Ok(acc);
  }

  method InterpretPair(ops: Ops, h: Heap, ctx: Context, p: Pair) returns (r: Result<Entry, ErrKind>)
    ensures r == EvalPair(ops, h, ctx, p)
    decreases p, 2
  {
    var k := Interpret(ops, h, ctx, p.key);
    if k.Err? {
      return Err(k.error);
    }
    var v := Interpret(ops, h, ctx, p.value);
    return if v.Ok? then Ok(Entry(k.value, v.value)) else Err(v.error);
  }

  method InterpretAnd(ops: Ops, h: Heap, ctx: Context, es: seq<Expr>) returns (r: Outcome)
    ensures r == EvalAnd(ops, h, ctx, es)
    decreases es, 0
  {
    var i := 0;
    while i < |es|
      invariant i <= |es|
      invariant EvalAnd(ops, h, ctx, es) == EvalAnd(ops, h, ctx, es[i..])
    {
      var v := Interpret(ops, h, ctx, es[i]);
      assert es[i..][0] == es[i] && es[i..][1..] == es[i + 1..];
      if v.Err? {
        return v;
      }
      if !Truthy(v.value) {
        return Ok(VBool(false));
      }
      i := i + 1;
    }
    return Ok(VBool(true));
  }

  method InterpretOr(ops: Ops, h: Heap, ctx: Context, es: seq<Expr>) returns (r: Outcome)
    ensures r == EvalOr(ops, h, ctx, es)
    decreases es, 0
  {
    var i := 0;
    while i < |es|
      invariant i <= |es|
      invariant EvalOr(ops, h, ctx, es) == EvalOr(ops, h, ctx, es[i..])
    {
      var v := Interpret(ops, h, ctx, es[i]);
      assert es[i..][0] == es[i] && es[i..][1..] == es[i + 1..];
      if v.Err? {
        return v;
      }
      if Truthy(v.value) {
        return Ok(VBool(true));
      }
      i := i + 1;
    }
    return Ok(VBool(false));
  }

  /** The loop of the `Compare` arm: `left` is replaced by each comparator in turn. */
  method InterpretChain(ops: Ops, h: Heap, ctx: Context, first: Value, links: seq<Link>) returns (r: Outcome)
    ensures r == EvalChain(ops, h, ctx, first, links)
    decreases links, 0
  {
    var left := first;
    var i := 0;
    while i < |links|
      invariant i <= |links|
      invariant EvalChain(ops, h, ctx, first, links) == EvalChain(ops, h, ctx, left, links[i..])
    {
      assert links[i..][0] == links[i] && links[i..][1..] == links[i + 1..];
      var right := InterpretLink(ops, h, ctx, links[i]);
      if right.Err? {
        return right;
      }
      var holds := ops.cmp(links[i].op, left, right.value);
      if holds.Err? {
        return holds;
      }
      if !Truthy(holds.value) {
        return Ok(VBool(false));
      }
      left := right.value;
      i := i + 1;
    }
    return Ok(VBool(true));
  }

  method InterpretLink(ops: Ops, h: Heap, ctx: Context, l: Link) returns (r: Outcome)
    ensures r == EvalLink(ops, h, ctx, l)
    decreases l, 2
  {
    if l.op.Unlisted? {
      return Err(ConditionError);
    }
    r := Interpret(ops, h, ctx, l.operand);
  }
}
