/** What a condition's result depends on, which errors can leave the evaluator, and which rewrites keep its meaning. */
module ConditionLaws {
  import opened Collections
  import opened Conditions

  // ---------------------------------------------------------------- names and visibility

  function FreeNames(e: Expr): set<string>
    decreases e, 1
  {
    match e
    case Const(_) => {}
    case Name(id) => {id}
    case ListOf(elts) => NamesOf(elts)
    case TupleOf(elts) => NamesOf(elts)
    case DictOf(pairs) => PairNames(pairs)
    case Attribute(value, _) => FreeNames(value)
    case Subscript(value, slice) => FreeNames(value) + FreeNames(slice)
    case And(values) => NamesOf(values)
    case Or(values) => NamesOf(values)
    case Not(x) => FreeNames(x)
    case Neg(x) => FreeNames(x)
    case Pos(x) => FreeNames(x)
    case Binary(_, left, right) => FreeNames(left) + FreeNames(right)
    case Compare(first, links) => FreeNames(first) + LinkNames(links)
    case Forbidden => {}
  }

  function NamesOf(es: seq<Expr>): set<string>
    decreases es, 0
  {
    if es == [] then {} else FreeNames(es[0]) + NamesOf(es[1..])
  }

  function PairNames(ps: seq<Pair>): set<string>
    decreases ps, 0
  {
    if ps == [] then {} else OnePairNames(ps[0]) + PairNames(ps[1..])
  }

  function OnePairNames(p: Pair): set<string>
    decreases p, 2
  {
    FreeNames(p.key) + FreeNames(p.value)
  }

  function LinkNames(ls: seq<Link>): set<string>
    decreases ls, 0
  {
    if ls == [] then {} else OneLinkNames(ls[0]) + LinkNames(ls[1..])
  }

  function OneLinkNames(l: Link): set<string>
    decreases l, 2
  {
    FreeNames(l.operand)
  }

  predicate Has(h: Heap, ref: nat, attr: string) { ref in h && attr in h[ref] }

  /** Two heaps that differ at most in attributes whose name starts with an underscore. */
  ghost predicate PublicEqual(h1: Heap, h2: Heap)
  {
    forall ref: nat, attr: string :: !Private(attr) ==>
      && (Has(h1, ref, attr) <==> Has(h2, ref, attr))
      && (Has(h1, ref, attr) ==> h1[ref][attr] == h2[ref][attr])
  }

  /** `c2` gives every name that `c1` binds the same value; when `strict`, it binds no other of them. */
  predicate Covers(strict: bool, c1: Context, c2: Context, names: set<string>)
  {
    forall id :: id in names ==>
      && (id in c1 ==> id in c2 && c1[id] == c2[id])
      && (strict && id in c2 ==> id in c1)
  }

  /** The second outcome equals the first, or (when not `strict`) the first missed a key. */
  predicate Carries<T(==)>(strict: bool, r1: Result<T, ErrKind>, r2: Result<T, ErrKind>)
  {
    r1 == r2 || (!strict && r1 == Err(KeyErr))
  }

  // ---------------------------------------------------------------- transfer between environments

  /** Two evaluation environments. */
  datatype World = World(ops: Ops, h1: Heap, c1: Context, h2: Heap, c2: Context)

  predicate Same(strict: bool, w: World, e: Expr)
  {
    Carries(strict, Eval(w.ops, w.h1, w.c1, e), Eval(w.ops, w.h2, w.c2, e))
  }

  // How each construct carries outcomes of its operands; the induction below only composes these.

  lemma AttributeCarries(strict: bool, w: World, value: Expr, attr: string)
    requires PublicEqual(w.h1, w.h2) && Same(strict, w, value)
    ensures Same(strict, w, Attribute(value, attr))
  {
    var v := Eval(w.ops, w.h1, w.c1, value);
    if v.Ok? && v.value.VObj? && !Private(attr) {
      assert Has(w.h1, v.value.ref, attr) <==> Has(w.h2, v.value.ref, attr);
    }
  }

  lemma SubscriptCarries(strict: bool, w: World, value: Expr, slice: Expr)
    requires Same(strict, w, value) && Same(strict, w, slice)
    ensures Same(strict, w, Subscript(value, slice))
  {
  }

  lemma BinaryCarries(strict: bool, w: World, op: BinOp, left: Expr, right: Expr)
    requires Same(strict, w, left) && Same(strict, w, right)
    ensures Same(strict, w, Binary(op, left, right))
  {
  }

  lemma UnaryCarries(strict: bool, w: World, x: Expr)
    requires Same(strict, w, x)
    ensures Same(strict, w, Not(x)) && Same(strict, w, Neg(x)) && Same(strict, w, Pos(x))
  {
  }

  lemma CompareCarries(strict: bool, w: World, first: Expr, links: seq<Link>)
    requires Same(strict, w, first)
    requires forall left :: Carries(strict, EvalChain(w.ops, w.h1, w.c1, left, links), EvalChain(w.ops, w.h2, w.c2, left, links))
    ensures Same(strict, w, Compare(first, links))
  {
  }

  lemma DisplayCarries(strict: bool, w: World, es: seq<Expr>)
    requires Carries(strict, EvalAll(w.ops, w.h1, w.c1, es), EvalAll(w.ops, w.h2, w.c2, es))
    ensures Same(strict, w, ListOf(es)) && Same(strict, w, TupleOf(es))
  {
  }

  lemma DictCarries(strict: bool, w: World, ps: seq<Pair>)
    requires Carries(strict, EvalEntries(w.ops, w.h1, w.c1, ps, []), EvalEntries(w.ops, w.h2, w.c2, ps, []))
    ensures Same(strict, w, DictOf(ps))
  {
  }

  lemma ChainCarries(strict: bool, w: World, left: Value, links: seq<Link>)
    requires links != []
    requires Carries(strict, EvalLink(w.ops, w.h1, w.c1, links[0]), EvalLink(w.ops, w.h2, w.c2, links[0]))
    requires forall right ::
      Carries(strict, EvalChain(w.ops, w.h1, w.c1, right, links[1..]), EvalChain(w.ops, w.h2, w.c2, right, links[1..]))
    ensures Carries(strict, EvalChain(w.ops, w.h1, w.c1, left, links), EvalChain(w.ops, w.h2, w.c2, left, links))
  {
  }

  /** One induction serves both theorems below: how outcomes carry from one environment to another. */
  lemma {:induction false} Transfer(strict: bool, w: World, e: Expr)
    requires PublicEqual(w.h1, w.h2) && Covers(strict, w.c1, w.c2, FreeNames(e))
    ensures Same(strict, w, e)
    decreases e, 1
  {
    match e
    case Const(_) =>
    case Name(_) =>
    case ListOf(elts) => TransferAll(strict, w, elts); DisplayCarries(strict, w, elts);
    case TupleOf(elts) => TransferAll(strict, w, elts); DisplayCarries(strict, w, elts);
    case DictOf(pairs) => TransferEntries(strict, w, pairs, []); DictCarries(strict, w, pairs);
    case Attribute(value, attr) => Transfer(strict, w, value); AttributeCarries(strict, w, value, attr);
    case Subscript(value, slice) =>
      Transfer(strict, w, value);
      Transfer(strict, w, slice);
      SubscriptCarries(strict, w, value, slice);
    case And(values) => TransferAnd(strict, w, values);
    case Or(values) => TransferOr(strict, w, values);
    case Not(x) => Transfer(strict, w, x); UnaryCarries(strict, w, x);
    case Neg(x) => Transfer(strict, w, x); UnaryCarries(strict, w, x);
    case Pos(x) => Transfer(strict, w, x); UnaryCarries(strict, w, x);
    case Binary(op, left, right) =>
      Transfer(strict, w, left);
      Transfer(strict, w, right);
      BinaryCarries(strict, w, op, left, right);
    case Compare(first, links) =>
      Transfer(strict, w, first);
      TransferChain(strict, w, links);
      CompareCarries(strict, w, first, links);
    case Forbidden =>
  }

  lemma {:induction false} TransferAll(strict: bool, w: World, es: seq<Expr>)
    requires PublicEqual(w.h1, w.h2) && Covers(strict, w.c1, w.c2, NamesOf(es))
    ensures Carries(strict, EvalAll(w.ops, w.h1, w.c1, es), EvalAll(w.ops, w.h2, w.c2, es))
    decreases es, 0
  {
    if es != [] { Transfer(strict, w, es[0]); TransferAll(strict, w, es[1..]); }
  }

  lemma {:induction false} TransferAnd(strict: bool, w: World, es: seq<Expr>)
    requires PublicEqual(w.h1, w.h2) && Covers(strict, w.c1, w.c2, NamesOf(es))
    ensures Carries(strict, EvalAnd(w.ops, w.h1, w.c1, es), EvalAnd(w.ops, w.h2, w.c2, es))
    decreases es, 0
  {
    if es != [] { Transfer(strict, w, es[0]); TransferAnd(strict, w, es[1..]); }
  }

  lemma {:induction false} TransferOr(strict: bool, w: World, es: seq<Expr>)
    requires PublicEqual(w.h1, w.h2) && Covers(strict, w.c1, w.c2, NamesOf(es))
    ensures Carries(strict, EvalOr(w.ops, w.h1, w.c1, es), EvalOr(w.ops, w.h2, w.c2, es))
    decreases es, 0
  {
    if es != [] { Transfer(strict, w, es[0]); TransferOr(strict, w, es[1..]); }
  }

  lemma {:induction false} TransferChain(strict: bool, w: World, links: seq<Link>)
    requires PublicEqual(w.h1, w.h2) && Covers(strict, w.c1, w.c2, LinkNames(links))
    ensures forall left ::
      Carries(strict, EvalChain(w.ops, w.h1, w.c1, left, links), EvalChain(w.ops, w.h2, w.c2, left, links))
    decreases links, 0
  {
    if links != [] {
      TransferLink(strict, w, links[0]);
      TransferChain(strict, w, links[1..]);
      forall left ensures
        Carries(strict, EvalChain(w.ops, w.h1, w.c1, left, links), EvalChain(w.ops, w.h2, w.c2, left, links)) {
        ChainCarries(strict, w, left, links);
      }
    }
  }

  lemma {:induction false} TransferLink(strict: bool, w: World, l: Link)
    requires PublicEqual(w.h1, w.h2) && Covers(strict, w.c1, w.c2, OneLinkNames(l))
    ensures Carries(strict, EvalLink(w.ops, w.h1, w.c1, l), EvalLink(w.ops, w.h2, w.c2, l))
    decreases l, 2
  {
    Transfer(strict, w, l.operand);
  }

  lemma {:induction false} TransferEntries(strict: bool, w: World, ps: seq<Pair>, acc: seq<Entry>)
    requires PublicEqual(w.h1, w.h2) && Covers(strict, w.c1, w.c2, PairNames(ps))
    ensures Carries(strict, EvalEntries(w.ops, w.h1, w.c1, ps, acc), EvalEntries(w.ops, w.h2, w.c2, ps, acc))
    decreases ps, 0
  {
    if ps != [] {
      TransferPair(strict, w, ps[0]);
      var entry := EvalPair(w.ops, w.h1, w.c1, ps[0]);
      if entry.Ok? { TransferEntries(strict, w, ps[1..], Insert(acc, entry.value.key, entry.value.value)); }
    }
  }

  lemma {:induction false} TransferPair(strict: bool, w: World, p: Pair)
    requires PublicEqual(w.h1, w.h2) && Covers(strict, w.c1, w.c2, OnePairNames(p))
    ensures Carries(strict, EvalPair(w.ops, w.h1, w.c1, p), EvalPair(w.ops, w.h2, w.c2, p))
    decreases p, 2
  {
    Transfer(strict, w, p.key);
    Transfer(strict, w, p.value);
  }

  /**
   * Noninterference: no condition, whatever the operators, can tell two heaps apart that agree on
   * public attributes, nor two contexts that agree on its names. Value and error are the same.
   */
  lemma Noninterference(ops: Ops, h1: Heap, c1: Context, h2: Heap, c2: Context, e: Expr)
    requires PublicEqual(h1, h2)
    requires forall id :: id in FreeNames(e) ==> (id in c1 <==> id in c2) && (id in c1 ==> c1[id] == c2[id])
    ensures Eval(ops, h1, c1, e) == Eval(ops, h2, c2, e)
  {
    Transfer(true, World(ops, h1, c1, h2, c2), e);
  }

  /** A larger context changes nothing but a missing key: every value, and every other error, stays. */
  lemma ContextExtension(ops: Ops, h: Heap, small: Context, large: Context, e: Expr)
    requires forall id :: id in small ==> id in large && small[id] == large[id]
    ensures Eval(ops, h, small, e) != Err(KeyErr) ==> Eval(ops, h, large, e) == Eval(ops, h, small, e)
  {
    Transfer(false, World(ops, h, small, h, large), e);
  }

  // ---------------------------------------------------------------- rewrites

  lemma {:induction false} AndConcat(ops: Ops, h: Heap, ctx: Context, xs: seq<Expr>, ys: seq<Expr>)
    ensures EvalAnd(ops, h, ctx, xs + ys) ==
            match EvalAnd(ops, h, ctx, xs)
            case Err(k) => Err(k)
            case Ok(v) => if Truthy(v) then EvalAnd(ops, h, ctx, ys) else Ok(VBool(false))
  {
    if xs == [] {
      assert xs + ys == ys;
    } else {
      assert (xs + ys)[1..] == xs[1..] + ys;
      AndConcat(ops, h, ctx, xs[1..], ys);
    }
  }

  lemma {:induction false} OrConcat(ops: Ops, h: Heap, ctx: Context, xs: seq<Expr>, ys: seq<Expr>)
    ensures EvalOr(ops, h, ctx, xs + ys) ==
            match EvalOr(ops, h, ctx, xs)
            case Err(k) => Err(k)
            case Ok(v) => if Truthy(v) then Ok(VBool(true)) else EvalOr(ops, h, ctx, ys)
  {
    if xs == [] {
      assert xs + ys == ys;
    } else {
      assert (xs + ys)[1..] == xs[1..] + ys;
      OrConcat(ops, h, ctx, xs[1..], ys);
    }
  }

  /** An operand list nested in one of the same kind may be spliced in, wherever it stands. */
  lemma FlattenAnd(ops: Ops, h: Heap, ctx: Context, xs: seq<Expr>, ys: seq<Expr>, zs: seq<Expr>)
    ensures Eval(ops, h, ctx, And(xs + [And(ys)] + zs)) == Eval(ops, h, ctx, And(xs + ys + zs))
  {
    assert xs + [And(ys)] + zs == xs + ([And(ys)] + zs) && xs + ys + zs == xs + (ys + zs);
    AndConcat(ops, h, ctx, xs, [And(ys)] + zs);
    AndConcat(ops, h, ctx, xs, ys + zs);
    AndConcat(ops, h, ctx, ys, zs);
    assert ([And(ys)] + zs)[1..] == zs;
    assert Eval(ops, h, ctx, And(ys)) == EvalAnd(ops, h, ctx, ys);
  }

  lemma FlattenOr(ops: Ops, h: Heap, ctx: Context, xs: seq<Expr>, ys: seq<Expr>, zs: seq<Expr>)
    ensures Eval(ops, h, ctx, Or(xs + [Or(ys)] + zs)) == Eval(ops, h, ctx, Or(xs + ys + zs))
  {
    assert xs + [Or(ys)] + zs == xs + ([Or(ys)] + zs) && xs + ys + zs == xs + (ys + zs);
    OrConcat(ops, h, ctx, xs, [Or(ys)] + zs);
    OrConcat(ops, h, ctx, xs, ys + zs);
    OrConcat(ops, h, ctx, ys, zs);
    assert ([Or(ys)] + zs)[1..] == zs;
    assert Eval(ops, h, ctx, Or(ys)) == EvalOr(ops, h, ctx, ys);
  }

  function Negated(es: seq<Expr>): seq<Expr> { seq(|es|, i requires 0 <= i < |es| => Not(es[i])) }

  lemma {:induction false} NegatedOperands(ops: Ops, h: Heap, ctx: Context, es: seq<Expr>)
    ensures EvalOr(ops, h, ctx, Negated(es)) == Flip(EvalAnd(ops, h, ctx, es))
    ensures EvalAnd(ops, h, ctx, Negated(es)) == Flip(EvalOr(ops, h, ctx, es))
  {
    if es != [] {
      assert Negated(es)[1..] == Negated(es[1..]);
      NegatedOperands(ops, h, ctx, es[1..]);
      assert Negated(es)[0] == Not(es[0]);
    }
  }

  function Flip(r: Outcome): Outcome { if r.Ok? then Ok(VBool(!Truthy(r.value))) else r }

  /** De Morgan, with the same operands evaluated and the same error raised. */
  lemma DeMorgan(ops: Ops, h: Heap, ctx: Context, es: seq<Expr>)
    ensures Eval(ops, h, ctx, Not(And(es))) == Eval(ops, h, ctx, Or(Negated(es)))
    ensures Eval(ops, h, ctx, Not(Or(es))) == Eval(ops, h, ctx, And(Negated(es)))
  {
    NegatedOperands(ops, h, ctx, es);
    assert Eval(ops, h, ctx, And(es)) == EvalAnd(ops, h, ctx, es);
    assert Eval(ops, h, ctx, Or(es)) == EvalOr(ops, h, ctx, es);
  }

  /** `a op1 b op2 c` spelled as `a op1 b`, `b op2 c`. */
  function AdjacentPairs(first: Expr, links: seq<Link>): seq<Expr>
    decreases |links|
  {
    if links == [] then [] else [Compare(first, [links[0]])] + AdjacentPairs(links[0].operand, links[1..])
  }

  lemma {:induction false} ChainAsPairs(ops: Ops, h: Heap, ctx: Context, first: Expr, links: seq<Link>)
    requires Eval(ops, h, ctx, first).Ok?
    ensures EvalChain(ops, h, ctx, Eval(ops, h, ctx, first).value, links) ==
            EvalAnd(ops, h, ctx, AdjacentPairs(first, links))
    decreases |links|
  {
    if links != [] {
      OneLink(ops, h, ctx, first, links[0]);
      assert AdjacentPairs(first, links)[1..] == AdjacentPairs(links[0].operand, links[1..]);
      if Eval(ops, h, ctx, links[0].operand).Ok? {
        ChainAsPairs(ops, h, ctx, links[0].operand, links[1..]);
      }
    }
  }

  /** A comparison of one pair. */
  function LinkOutcome(ops: Ops, h: Heap, ctx: Context, left: Value, l: Link): Outcome
  {
    var right :- EvalLink(ops, h, ctx, l);
    var holds :- ops.cmp(l.op, left, right);
    Ok(VBool(Truthy(holds)))
  }

  lemma ChainOne(ops: Ops, h: Heap, ctx: Context, left: Value, links: seq<Link>)
    requires |links| == 1
    ensures EvalChain(ops, h, ctx, left, links) == LinkOutcome(ops, h, ctx, left, links[0])
  {
    var rest := links[1..];
    assert rest == [];
    var right := EvalLink(ops, h, ctx, links[0]);
    if right.Ok? {
      assert EvalChain(ops, h, ctx, right.value, rest) == Ok(VBool(true));
    }
  }

  lemma OneLink(ops: Ops, h: Heap, ctx: Context, first: Expr, l: Link)
    requires Eval(ops, h, ctx, first).Ok?
    ensures Eval(ops, h, ctx, Compare(first, [l])) == LinkOutcome(ops, h, ctx, Eval(ops, h, ctx, first).value, l)
  {
    ChainOne(ops, h, ctx, Eval(ops, h, ctx, first).value, [l]);
  }

  /** A chained comparison is the short-circuit conjunction of its adjacent pairs, errors included. */
  lemma ChainIsConjunction(ops: Ops, h: Heap, ctx: Context, first: Expr, links: seq<Link>)
    requires links != []
    ensures Eval(ops, h, ctx, Compare(first, links)) == Eval(ops, h, ctx, And(AdjacentPairs(first, links)))
  {
    if Eval(ops, h, ctx, first).Ok? {
      ChainAsPairs(ops, h, ctx, first, links);
    } else {
      var pairs := AdjacentPairs(first, links);
      assert pairs[0] == Compare(first, [links[0]]);
      assert Eval(ops, h, ctx, pairs[0]) == Eval(ops, h, ctx, Compare(first, links));
      assert Eval(ops, h, ctx, And(pairs)) == EvalAnd(ops, h, ctx, pairs);
    }
  }
}
