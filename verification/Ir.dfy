/** The predicate IR (ir/base.py, ir/boolean.py and siblings) and its meaning on one row. */
module Ir {
  import opened Values

  datatype TimestampUnit = Microseconds | Milliseconds

  datatype Lit =
    | NullLit
    | BoolLit(value: bool)
    | IntLit(i: int)
    | FloatLit(f: Float)
    | StringLit(s: string)
    | DateLit(days: int)
    | TimestampLit(ticks: int, unit: TimestampUnit, tz: Option<string>)
    | ListLit(values: seq<Lit>)

  datatype UnaryOp =
    | NotOp | IsNullOp | IsNotNullOp | DropNullsOp
    | IsNanOp | IsNotNanOp | IsInfiniteOp | IsFiniteOp
    | UppercaseOp | LowercaseOp

  datatype BinaryOp =
    | AndOp | OrOp | FillNullOp | IsInOp
    | EqOp | NotEqOp | GtOp | GtEqOp | LtOp | LtEqOp
    | ContainsOp(literal: bool) | StartsWithOp | EndsWithOp

  datatype VariadicOp = CoalesceOp | WhenOp

  /** What an unsupported node stands for. No rewriter and no emitter looks at it: it exists so that
      a node may have any value (`Unknown`), and so that a node which replaced an expression the
      compiler gave up on still has that expression's value (`Replaced`). */
  datatype Meaning = Unknown(id: nat) | Replaced(original: Expr)

  /** One constructor per base class of ir/base.py. */
  datatype Expr =
    | Unsupported(meaning: Meaning, operands: seq<Expr>)
    | Column(name: string)
    | Literal(lit: Lit)
    | Unary(uop: UnaryOp, expr: Expr)
    | Binary(bop: BinaryOp, left: Expr, right: Expr)
    | Ternary(pred: Expr, truthy: Expr, falsy: Expr)
    | Variadic(vop: VariadicOp, operands: seq<Expr>)

  function BoolLiteral(b: bool): Expr { Literal(BoolLit(b)) }

  predicate IsNullLiteral(e: Expr) { e.Literal? && e.lit.NullLit? }

  predicate IsBoolLiteral(e: Expr, b: bool) { e.Literal? && e.lit.BoolLit? && e.lit.value == b }

  function Not(e: Expr): Expr { Unary(NotOp, e) }

  function And(l: Expr, r: Expr): Expr { Binary(AndOp, l, r) }

  function Or(l: Expr, r: Expr): Expr { Binary(OrOp, l, r) }

  function IsNotNull(e: Expr): Expr { Unary(IsNotNullOp, e) }

  predicate IsNot(e: Expr) { e.Unary? && e.uop == NotOp }

  predicate IsDropNulls(e: Expr) { e.Unary? && e.uop == DropNullsOp }

  predicate IsAnd(e: Expr) { e.Binary? && e.bop == AndOp }

  predicate IsOr(e: Expr) { e.Binary? && e.bop == OrOp }

  predicate IsListLiteral(e: Expr) { e.Literal? && e.lit.ListLit? }

  function Children(e: Expr): (kids: seq<Expr>)
    ensures forall kid | kid in kids :: kid < e
  {
    match e
    case Unsupported(_, operands) => operands
    case Column(_) => []
    case Literal(_) => []
    case Unary(_, x) => [x]
    case Binary(_, l, r) => [l, r]
    case Ternary(p, t, f) => [p, t, f]
    case Variadic(_, operands) => operands
  }

  /** `replace_children`: the same node over new children of the same number. */
  function ReplaceChildren(e: Expr, kids: seq<Expr>): Expr
    requires |kids| == |Children(e)|
  {
    match e
    case Unsupported(m, _) => Unsupported(m, kids)
    case Column(_) => e
    case Literal(_) => e
    case Unary(op, _) => Unary(op, kids[0])
    case Binary(op, _, _) => Binary(op, kids[0], kids[1])
    case Ternary(_, _, _) => Ternary(kids[0], kids[1], kids[2])
    case Variadic(op, _) => Variadic(op, kids)
  }

  lemma {:induction false} ReplacedChildren(e: Expr, kids: seq<Expr>)
    requires |kids| == |Children(e)|
    ensures Children(ReplaceChildren(e, kids)) == kids
    ensures ReplaceChildren(e, Children(e)) == e
  {
  }

  /** Everything an expression's value depends on besides the expression: the row's columns, the
      values of unsupported nodes, and the scalar functions, which Polars and BigQuery share. */
  datatype Env = Env(
    row: string -> Value,
    unknown: nat -> Value,
    fn1: (UnaryOp, Value) -> Value,
    fn2: (BinaryOp, Value, Value) -> Value,
    same: (Value, Value) -> bool)

  function LitValue(l: Lit): Value {
    match l
    case NullLit => Null
    case BoolLit(b) => Bool(b)
    case IntLit(i) => Scalar(IntAtom(i))
    case FloatLit(f) => Scalar(FloatAtom(f))
    case StringLit(s) => Scalar(StringAtom(s))
    case DateLit(days) => Scalar(DateAtom(days))
    case TimestampLit(ticks, unit, tz) =>
      Scalar(StampAtom(if unit == Microseconds then ticks else 1000 * ticks, tz == None))
    case ListLit(values) => List(LitValues(values))
  }

  function LitValues(ls: seq<Lit>): (vs: seq<Value>)
    ensures |vs| == |ls| && forall i | 0 <= i < |ls| :: vs[i] == LitValue(ls[i])
  {
    if ls == [] then [] else [LitValue(ls[0])] + LitValues(ls[1..])
  }

  /** A scalar function is NULL on a NULL argument. */
  function Strict1(op: UnaryOp, v: Value, env: Env): Value {
    if v == Null then Null else env.fn1(op, v)
  }

  function Strict2(op: BinaryOp, v: Value, w: Value, env: Env): Value {
    if v == Null || w == Null then Null else env.fn2(op, v, w)
  }

  /** Membership of a non-NULL value in a list: NULL items never match. */
  predicate Member(v: Value, items: seq<Value>, env: Env) {
    exists i :: 0 <= i < |items| && items[i] != Null && env.same(v, items[i])
  }

  function IsInValue(v: Value, w: Value, env: Env): Value {
    if v == Null then Null
    else if w.List? then Bool(Member(v, w.items, env))
    else Strict2(IsInOp, v, w, env)
  }

  function UnaryValue(op: UnaryOp, v: Value, env: Env): Value {
    match op
    case NotOp => KleeneNot(v)
    case IsNullOp => Bool(v == Null)
    case IsNotNullOp => Bool(v != Null)
    case DropNullsOp => v
    case IsNotNanOp => KleeneNot(Strict1(IsNanOp, v, env))
    case IsFiniteOp =>
      KleeneAnd(KleeneNot(Strict1(IsInfiniteOp, v, env)), KleeneNot(Strict1(IsNanOp, v, env)))
    case _ => Strict1(op, v, env)
  }

  function BinaryValue(op: BinaryOp, v: Value, w: Value, env: Env): Value {
    match op
    case AndOp => KleeneAnd(v, w)
    case OrOp => KleeneOr(v, w)
    case FillNullOp => if v == Null then w else v
    case IsInOp => IsInValue(v, w, env)
    case _ => Strict2(op, v, w, env)
  }

  function Eval(e: Expr, env: Env): Value
    decreases e, 1
  {
    match e
    case Unsupported(Unknown(id), _) => env.unknown(id)
    case Unsupported(Replaced(original), _) => Eval(original, env)
    case Column(name) => env.row(name)
    case Literal(l) => LitValue(l)
    case Unary(op, x) => UnaryValue(op, Eval(x, env), env)
    case Binary(op, l, r) => BinaryValue(op, Eval(l, env), Eval(r, env), env)
    case Ternary(p, t, f) => Choose(Eval(p, env), Eval(t, env), Eval(f, env))
    case Variadic(CoalesceOp, operands) => FirstNonNull(EvalAll(operands, env))
    case Variadic(WhenOp, operands) => FirstTrue(EvalAll(operands, env))
  }

  function EvalAll(es: seq<Expr>, env: Env): (vs: seq<Value>)
    ensures |vs| == |es| && forall i | 0 <= i < |es| :: vs[i] == Eval(es[i], env)
    decreases es, 0
  {
    if es == [] then [] else [Eval(es[0], env)] + EvalAll(es[1..], env)
  }

  /** The value of a node from the values of its children; only unsupported nodes look elsewhere. */
  lemma {:induction false} EvalCongruence(e: Expr, kids: seq<Expr>, env: Env)
    requires |kids| == |Children(e)|
    requires EvalAll(kids, env) == EvalAll(Children(e), env)
    ensures Eval(ReplaceChildren(e, kids), env) == Eval(e, env)
  {
    forall i | 0 <= i < |kids| ensures Eval(kids[i], env) == Eval(Children(e)[i], env) {
      assert EvalAll(kids, env)[i] == EvalAll(Children(e), env)[i];
    }
    ReplacedChildren(e, kids);
  }

  /** `p` holds of `e` and of all its descendants. */
  predicate Everywhere(e: Expr, p: Expr -> bool)
  {
    p(e) && forall kid | kid in Children(e) :: Everywhere(kid, p)
  }

  predicate IsSupported(e: Expr) { !e.Unsupported? }

  /** `has_descendant(Unsupported)`. */
  predicate HasUnsupported(e: Expr) { !Everywhere(e, IsSupported) }
}
