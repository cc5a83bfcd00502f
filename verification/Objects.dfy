/** Nodes as objects. `rewrite_boolean_when` marks nodes by identity and `replace_children` returns the very
    node whose children have not changed, so a node can occur in several places with one mark. */
module Objects {
  import opened Ir
  import opened Lists
  import opened NodeRewriters
  import opened TreeRewriter

  /** One call of `rewrite_tree`; the calls that clean dropped operands are numbered. */
  datatype Sweep = Sweep(pass: Pass, run: nat)

  /** Where an object comes from, which no two objects share: from the parser, which makes one object for each
      place of the tree; from `replace_children`, for the entry `at` of a sweep; from a node rewriter that
      makes several there; or from the conjunction that ends `rewrite_drop_nulls`. */
  datatype Id =
    | Parsed(path: seq<nat>)
    | Rebuilt(sweep: Sweep, at: nat, of: Id)
    | Made(sweep: Sweep, at: nat, part: nat)
    | Conjunct(i: nat)
    | Check(i: nat)

  /** A node with its identity and the objects that are its children. */
  datatype Node = Node(id: Id, expr: Expr, kids: seq<Node>)

  function Exprs(ns: seq<Node>): (es: seq<Expr>)
    ensures |es| == |ns| && forall i | 0 <= i < |ns| :: es[i] == ns[i].expr
  {
    seq(|ns|, i requires 0 <= i < |ns| => ns[i].expr)
  }

  predicate IsTree(n: Node) {
    Exprs(n.kids) == Children(n.expr) && forall kid | kid in n.kids :: IsTree(kid)
  }

  type Object = n: Node | IsTree(n) witness Node(Parsed([]), Column(""), [])

  function Leaf(id: Id, e: Expr): Object
    requires Children(e) == []
  {
    Node(id, e, [])
  }

  function Object1(id: Id, e: Expr, kid: Object): (n: Object)
    requires Children(e) == [kid.expr]
  {
    var n := Node(id, e, [kid]);
    assert Exprs(n.kids) == [kid.expr];
    n
  }

  function Object2(id: Id, e: Expr, left: Object, right: Object): (n: Object)
    requires Children(e) == [left.expr, right.expr]
  {
    var n := Node(id, e, [left, right]);
    assert Exprs(n.kids) == [left.expr, right.expr];
    n
  }

  lemma {:induction false} KidExprs(n: Object)
    ensures |n.kids| == |Children(n.expr)|
    ensures forall i | 0 <= i < |n.kids| :: n.kids[i].expr == Children(n.expr)[i] && IsTree(n.kids[i])
  {
    assert forall i | 0 <= i < |n.kids| :: Exprs(n.kids)[i] == n.kids[i].expr;
    assert forall i | 0 <= i < |n.kids| :: n.kids[i] in n.kids;
  }

  /** The parser makes one object for each place of the tree. */
  function Labelled(e: Expr, path: seq<nat>): (n: Object)
    ensures n.expr == e && n.id == Parsed(path)
    decreases e
  {
    var es := Children(e);
    var kids := seq(|es|, i requires 0 <= i < |es| => assert es[i] in es; Labelled(es[i], path + [i]));
    assert Exprs(kids) == es;
    Node(Parsed(path), e, kids)
  }

  // --- Node rewriters on objects ---

  /** `(p & t) | (~p & f)`, over the conditional's own children. */
  function ConditionalObject(n: Object, sweep: Sweep, at: nat): (r: Object)
    requires n.expr.Ternary?
    ensures r.expr == BooleanConditional(n.expr.pred, n.expr.truthy, n.expr.falsy)
    ensures r.id == Made(sweep, at, 0)
  {
    KidExprs(n);
    var p, t, f := n.kids[0], n.kids[1], n.kids[2];
    var negated := Object1(Made(sweep, at, 3), Not(p.expr), p);
    var thenArm := Object2(Made(sweep, at, 1), And(p.expr, t.expr), p, t);
    var elseArm := Object2(Made(sweep, at, 2), And(negated.expr, f.expr), negated, f);
    Object2(Made(sweep, at, 0), BooleanConditional(p.expr, t.expr, f.expr), thenArm, elseArm)
  }

  function FoldedObject(n: Object, id: Id): (r: Object)
    ensures r.expr == FoldLiterals(n.expr)
  {
    KidExprs(n);
    match FoldingOf(n.expr)
    case Keep => n
    case TakeLeft => n.kids[0]
    case TakeRight => n.kids[1]
    case Absorb => Leaf(id, Absorbing(n.expr.bop))
  }

  function WhenKids(n: Object): (kids: seq<Object>)
    ensures Exprs(kids) == WhenOperands(n.expr)
    decreases n
  {
    if n.expr.Ternary? then
      KidExprs(n);
      var rest := WhenKids(n.kids[2]);
      ExprsConcat(n.kids[..2], rest);
      assert Exprs(n.kids[..2]) == [n.expr.pred, n.expr.truthy];
      n.kids[..2] + rest
    else
      assert Exprs([n]) == [n.expr];
      [n]
  }

  function DeMorganObject(n: Object, sweep: Sweep, at: nat): (r: Object)
    requires IsNot(n.expr) && IsOr(n.expr.expr)
    ensures r.expr == And(Not(n.expr.expr.left), Not(n.expr.expr.right))
  {
    KidExprs(n);
    KidExprs(n.kids[0]);
    var l, r := n.kids[0].kids[0], n.kids[0].kids[1];
    Object2(Made(sweep, at, 0), And(Not(l.expr), Not(r.expr)),
            Object1(Made(sweep, at, 1), Not(l.expr), l), Object1(Made(sweep, at, 2), Not(r.expr), r))
  }

  /** What one call of the sweep's node rewriter makes of an expression. */
  function ExprStep(pass: Pass, e: Expr, marked: bool): Expr {
    if pass == BooleanWhen then BooleanStep(e, marked) else Step(pass, e)
  }

  /** One call of the node rewriter, for the entry `at`. */
  function ObjectStep(sweep: Sweep, at: nat, n: Object, marked: bool): (r: Object)
    ensures r.expr == ExprStep(sweep.pass, n.expr, marked)
    ensures r.expr == n.expr ==> r == n
  {
    KidExprs(n);
    var e := n.expr;
    if ExprStep(sweep.pass, e, marked) == e then n
    else
      match sweep.pass
      case UnwrapDropNulls =>
        if HasUnsupported(e.expr) then Leaf(Rebuilt(sweep, at, n.id), Unsupported(Replaced(e.expr), []))
        else n.kids[0]
      case StripDropNulls => n.kids[0]
      case BooleanWhen => ConditionalObject(n, sweep, at)
      case BooleanLiterals => FoldedObject(n, Made(sweep, at, 0))
      case CollapseWhen => Node(Made(sweep, at, 0), Variadic(WhenOp, WhenOperands(e)), WhenKids(n))
      case DeMorgan => DeMorganObject(n, sweep, at)
  }

  /** The identities one call adds to `boolean_nodes`, when it returns `next`. */
  function MarksAdded(pass: Pass, n: Object, marked: bool, next: Object): set<Id> {
    KidExprs(n);
    if pass != BooleanWhen then {}
    else if IsAnd(n.expr) || IsOr(n.expr) then if marked then {n.kids[0].id, n.kids[1].id} else {}
    else if n.expr.Ternary? then {n.kids[0].id} + if next.expr != n.expr then {next.id} else {}
    else {}
  }

  /** The objects one call adds to `not_null_exprs`. */
  function Dropped(pass: Pass, n: Object): (dropped: seq<Object>)
    ensures pass != BooleanWhen ==> Exprs(dropped) == Collected(pass, n.expr)
  {
    KidExprs(n);
    if pass == UnwrapDropNulls && IsDropNulls(n.expr) && !HasUnsupported(n.expr.expr) then [n.kids[0]] else []
  }

  lemma {:induction false} ExprStepLosesWeight(pass: Pass, e: Expr, marked: bool)
    requires ExprStep(pass, e, marked) != e
    ensures Weight(pass, ExprStep(pass, e, marked)) < Weight(pass, e)
  {
    if pass == BooleanWhen {
      BooleanStepLosesWeight(e, marked);
    } else {
      StepLosesWeight(pass, e);
    }
  }

  /** An object brought to a fixed point, with the marks and dropped operands so far. */
  datatype Fixed = Fixed(node: Object, marks: set<Id>, dropped: seq<Object>)

  /** `_apply_node_rewriter`. */
  function FixObject(sweep: Sweep, at: nat, n: Object, marks: set<Id>): (fixed: Fixed)
    ensures Weight(sweep.pass, fixed.node.expr) <= Weight(sweep.pass, n.expr)
    ensures marks <= fixed.marks
    decreases Weight(sweep.pass, n.expr)
  {
    var marked := n.id in marks;
    var next := ObjectStep(sweep, at, n, marked);
    var marks' := marks + MarksAdded(sweep.pass, n, marked, next);
    if next.expr == n.expr then Fixed(n, marks', [])
    else
      ExprStepLosesWeight(sweep.pass, n.expr, marked);
      var rest := FixObject(sweep, at, next, marks');
      rest.(dropped := Dropped(sweep.pass, n) + rest.dropped)
  }

  /** The rewriters that look at nothing but the node do to objects what they do to expressions. */
  lemma {:induction false} FixObjectValue(sweep: Sweep, at: nat, n: Object, marks: set<Id>)
    requires sweep.pass != BooleanWhen
    ensures FixObject(sweep, at, n, marks).node.expr == Fix(sweep.pass, n.expr)
    ensures Exprs(FixObject(sweep, at, n, marks).dropped) == FixCollected(sweep.pass, n.expr)
    ensures FixObject(sweep, at, n, marks).marks == marks
    decreases Weight(sweep.pass, n.expr)
  {
    var next := ObjectStep(sweep, at, n, n.id in marks);
    if next.expr != n.expr {
      StepLosesWeight(sweep.pass, n.expr);
      assert marks + {} == marks;
      FixObjectValue(sweep, at, next, marks);
      ExprsConcat(Dropped(sweep.pass, n), FixObject(sweep, at, next, marks).dropped);
    }
  }

  lemma {:induction false} ExprsConcat(ns: seq<Node>, ms: seq<Node>)
    ensures Exprs(ns + ms) == Exprs(ns) + Exprs(ms)
  {
  }

  /** `replace_children`: the same object over the same children, a new one over others. */
  function ReplacedObject(n: Object, kids: seq<Object>, id: Id): (r: Object)
    requires |kids| == |n.kids|
    ensures r.expr == ReplaceChildren(n.expr, Exprs(kids)) && r.kids == kids
    ensures kids == n.kids ==> r == n
    ensures kids != n.kids ==> r.id == id
  {
    KidExprs(n);
    ReplacedChildren(n.expr, Exprs(kids));
    if kids == n.kids then n else Node(id, ReplaceChildren(n.expr, Exprs(kids)), kids)
  }

  // --- The node rewriters as the source runs them ---

  lemma {:induction false} WhenKidsUnfold(operands: seq<Object>, n: Object)
    requires n.expr.Ternary?
    ensures |n.kids| == 3 && IsTree(n.kids[2])
    ensures forall kid | kid in n.kids[..2] :: IsTree(kid)
    ensures operands + WhenKids(n) == operands + n.kids[..2] + WhenKids(n.kids[2])
  {
    KidExprs(n);
    Regrouped(operands, n.kids[..2], WhenKids(n.kids[2]));
  }

  /** `rewrite_when_node`: walk down the falsy branches. */
  method CollapseChain(n: Object) returns (operands: seq<Object>)
    requires n.expr.Ternary?
    ensures operands == WhenKids(n)
  {
    WhenKidsUnfold([], n);
    operands := n.kids[..2];
    var curr: Object := n.kids[2];
    while curr.expr.Ternary?
      invariant WhenKids(n) == operands + WhenKids(curr)
      decreases curr
    {
      WhenKidsUnfold(operands, curr);
      operands := operands + curr.kids[..2];
      curr := curr.kids[2];
    }
    operands := operands + [curr];
  }

  /** `rewrite_drop_nulls_node`. */
  method RewriteDropNullsNode(sweep: Sweep, at: nat, n: Object) returns (rewritten: Object, dropped: seq<Object>)
    requires sweep.pass == UnwrapDropNulls
    ensures rewritten == ObjectStep(sweep, at, n, false) && dropped == Dropped(UnwrapDropNulls, n)
  {
    KidExprs(n);
    rewritten, dropped := n, [];
    if IsDropNulls(n.expr) {
      NotItsOwnOperand(n.expr);
      var unsupported := HasDescendantUnsupported(n.kids[0].expr);
      if unsupported {
        rewritten := Leaf(Rebuilt(sweep, at, n.id), Unsupported(Replaced(n.expr.expr), []));
      } else {
        rewritten, dropped := n.kids[0], [n.kids[0]];
      }
    }
  }

  /** `rewrite_boolean_when_node`. */
  method RewriteBooleanWhenNode(sweep: Sweep, at: nat, n: Object, marks: set<Id>)
    returns (rewritten: Object, marks': set<Id>)
    requires sweep.pass == BooleanWhen
    ensures rewritten == ObjectStep(sweep, at, n, n.id in marks)
    ensures marks' == marks + MarksAdded(BooleanWhen, n, n.id in marks, rewritten)
  {
    KidExprs(n);
    rewritten, marks' := n, marks;
    var marked := n.id in marks;
    if (IsAnd(n.expr) || IsOr(n.expr)) && marked {
      marks' := marks + {n.kids[0].id, n.kids[1].id};
    } else if n.expr.Ternary? {
      marks' := marks + {n.kids[0].id};
      var valid := CheckBooleanTernary(n.expr);
      if marked && valid {
        rewritten := ConditionalObject(n, sweep, at);
        marks' := marks' + {rewritten.id};
      }
    }
  }

  /** The rewriters that neither mark nor drop anything. */
  method RewriteOtherNode(sweep: Sweep, at: nat, n: Object) returns (rewritten: Object)
    requires sweep.pass != UnwrapDropNulls && sweep.pass != BooleanWhen
    ensures rewritten == ObjectStep(sweep, at, n, false)
  {
    KidExprs(n);
    NotItsOwnOperand(n.expr);
    rewritten := n;
    match sweep.pass {
      case StripDropNulls =>
        if IsDropNulls(n.expr) {
          rewritten := n.kids[0];
        }
      case BooleanLiterals =>
        if FoldLiterals(n.expr) != n.expr {
          rewritten := FoldedObject(n, Made(sweep, at, 0));
        }
      case CollapseWhen =>
        if n.expr.Ternary? && n.expr.falsy.Ternary? {
          var operands := CollapseChain(n);
          rewritten := Node(Made(sweep, at, 0), Variadic(WhenOp, Exprs(operands)), operands);
        }
      case DeMorgan =>
        if IsNot(n.expr) && IsOr(n.expr.expr) {
          rewritten := DeMorganObject(n, sweep, at);
        }
    }
  }

  /** One call of the sweep's node rewriter: what it returns, and what it adds to `boolean_nodes` and
      `not_null_exprs`. */
  method RewriteNode(sweep: Sweep, at: nat, n: Object, marks: set<Id>)
    returns (rewritten: Object, marks': set<Id>, dropped: seq<Object>)
    ensures rewritten == ObjectStep(sweep, at, n, n.id in marks)
    ensures marks' == marks + MarksAdded(sweep.pass, n, n.id in marks, rewritten)
    ensures dropped == Dropped(sweep.pass, n)
  {
    marks', dropped := marks, [];
    if sweep.pass == UnwrapDropNulls {
      rewritten, dropped := RewriteDropNullsNode(sweep, at, n);
    } else if sweep.pass == BooleanWhen {
      rewritten, marks' := RewriteBooleanWhenNode(sweep, at, n, marks);
    } else {
      rewritten := RewriteOtherNode(sweep, at, n);
    }
  }

  /** The fixed point from `so` on, with what has been dropped on the way. */
  function FixFrom(sweep: Sweep, at: nat, so: Fixed): Fixed {
    var rest := FixObject(sweep, at, so.node, so.marks);
    rest.(dropped := so.dropped + rest.dropped)
  }

  lemma {:induction false} FixFromNext(sweep: Sweep, at: nat, so: Fixed, next: Object, marks: set<Id>)
    requires next == ObjectStep(sweep, at, so.node, so.node.id in so.marks)
    requires marks == so.marks + MarksAdded(sweep.pass, so.node, so.node.id in so.marks, next)
    ensures next.expr == so.node.expr ==> FixFrom(sweep, at, so) == so.(marks := marks)
    ensures next.expr != so.node.expr ==>
              && Weight(sweep.pass, next.expr) < Weight(sweep.pass, so.node.expr)
              && FixFrom(sweep, at, so)
                 == FixFrom(sweep, at, Fixed(next, marks, so.dropped + Dropped(sweep.pass, so.node)))
  {
    if next.expr != so.node.expr {
      ExprStepLosesWeight(sweep.pass, so.node.expr, so.node.id in so.marks);
      Regrouped(so.dropped, Dropped(sweep.pass, so.node), FixObject(sweep, at, next, marks).dropped);
    }
  }

  /** `_apply_node_rewriter`. */
  method ApplyNodeRewriter(sweep: Sweep, at: nat, n: Object, marks: set<Id>) returns (fixed: Fixed)
    ensures fixed == FixObject(sweep, at, n, marks)
  {
    fixed := Fixed(n, marks, []);
    while true
      invariant FixFrom(sweep, at, fixed) == FixObject(sweep, at, n, marks)
      decreases Weight(sweep.pass, fixed.node.expr)
    {
      var rewritten, marks', dropped := RewriteNode(sweep, at, fixed.node, fixed.marks);
      FixFromNext(sweep, at, fixed, rewritten, marks');
      if rewritten.expr == fixed.node.expr {
        fixed := fixed.(marks := marks');
        return;
      }
      fixed := Fixed(rewritten, marks', fixed.dropped + dropped);
    }
  }
}
