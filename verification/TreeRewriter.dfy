/** `rewrite_tree` (rewriter/base.py) as a recursion, for the rewriters that look at nothing but the node. */
module TreeRewriter {
  import opened Ir
  import opened NodeRewriters
  import opened Lists

  /** Bring the node to a fixed point, rewrite its children, rebuild the node over them and bring it to a
      fixed point again. */
  function Rewritten(pass: ValuePass, e: Expr): (r: Expr)
    decreases Weight(pass, e), 0
  {
    var fixed := Fix(pass, e);
    ChildrenWeighLess(pass, fixed);
    Fix(pass, ReplaceChildren(fixed, RewrittenAll(pass, Children(fixed))))
  }

  function RewrittenAll(pass: ValuePass, es: seq<Expr>): (rs: seq<Expr>)
    ensures |rs| == |es|
    decreases SumWeight(pass, es), 1
  {
    if es == [] then [] else [Rewritten(pass, es[0])] + RewrittenAll(pass, es[1..])
  }

  lemma {:induction false} RewrittenAllAt(pass: ValuePass, es: seq<Expr>, i: nat)
    requires i < |es|
    ensures RewrittenAll(pass, es)[i] == Rewritten(pass, es[i])
  {
    if i > 0 {
      RewrittenAllAt(pass, es[1..], i - 1);
    }
  }

  // --- The operands collected on the way ---

  /** The operands a pass collects from a tree, in recursive order. */
  function CollectedIn(pass: ValuePass, e: Expr): seq<Expr>
    decreases Weight(pass, e), 0
  {
    var fixed := Fix(pass, e);
    ChildrenWeighLess(pass, fixed);
    FixCollected(pass, e) + CollectedInAll(pass, Children(fixed))
  }

  function CollectedInAll(pass: ValuePass, es: seq<Expr>): seq<Expr>
    decreases SumWeight(pass, es), 1
  {
    if es == [] then [] else CollectedIn(pass, es[0]) + CollectedInAll(pass, es[1..])
  }

  lemma {:induction false} CollectedInAllConcat(pass: ValuePass, es: seq<Expr>, fs: seq<Expr>)
    ensures CollectedInAll(pass, es + fs) == CollectedInAll(pass, es) + CollectedInAll(pass, fs)
  {
    if es == [] {
      assert es + fs == fs;
    } else {
      var all := es + fs;
      assert all[0] == es[0] && all[1..] == es[1..] + fs;
      CollectedInAllConcat(pass, es[1..], fs);
      Regrouped(CollectedIn(pass, es[0]), CollectedInAll(pass, es[1..]), CollectedInAll(pass, fs));
    }
  }

  /** The same operands in the order the loop meets them: breadth first from a queue of nodes. */
  function CollectedBreadthFirst(pass: ValuePass, es: seq<Expr>): seq<Expr>
    decreases SumWeight(pass, es)
  {
    if es == [] then []
    else
      var node := Fix(pass, es[0]);
      WeightAfterVisit(pass, es, node);
      FixCollected(pass, es[0]) + CollectedBreadthFirst(pass, es[1..] + Children(node))
  }

  /** Visiting a node trades its weight for the smaller one of its children. */
  lemma {:induction false} WeightAfterVisit(pass: Pass, es: seq<Expr>, node: Expr)
    requires es != [] && Weight(pass, node) <= Weight(pass, es[0])
    ensures SumWeight(pass, es[1..] + Children(node)) < SumWeight(pass, es)
  {
    ChildrenWeighLess(pass, node);
    SumWeightConcat(pass, es[1..], Children(node));
  }

  lemma {:induction false} Rearranged<T>(now: seq<T>, below: seq<T>, rest: seq<T>)
    ensures multiset(now + below + rest) == multiset(now) + multiset(rest + below)
  {
  }

  /** Breadth first or recursively, the same operands are collected, each as often. */
  lemma {:induction false} BreadthFirstCollectsTheSame(pass: ValuePass, es: seq<Expr>)
    ensures multiset(CollectedBreadthFirst(pass, es)) == multiset(CollectedInAll(pass, es))
    decreases SumWeight(pass, es)
  {
    if es != [] {
      var node := Fix(pass, es[0]);
      var kids := Children(node);
      WeightAfterVisit(pass, es, node);
      BreadthFirstCollectsTheSame(pass, es[1..] + kids);
      CollectedInAllConcat(pass, es[1..], kids);
      Rearranged(FixCollected(pass, es[0]), CollectedInAll(pass, kids), CollectedInAll(pass, es[1..]));
    }
  }

  lemma {:induction false} NotItsOwnOperand(e: Expr)
    ensures e.Unary? ==> e.expr != e
  {
    if e.Unary? {
      assert e.expr < e;
    }
  }

  /** Rebuilding never uncovers a DropNulls, so the second pass collects nothing. */
  lemma {:induction false} NothingCollectedTwice(pass: ValuePass, e: Expr, kids: seq<Expr>)
    requires Step(pass, e) == e
    requires |kids| == |Children(e)|
    ensures FixCollected(pass, ReplaceChildren(e, kids)) == []
  {
    if pass == UnwrapDropNulls {
      NotItsOwnOperand(e);
    } else {
      OnlyUnwrapCollects(pass, ReplaceChildren(e, kids));
    }
  }

  lemma {:induction false} OnlyUnwrapCollects(pass: ValuePass, e: Expr)
    requires pass != UnwrapDropNulls
    ensures FixCollected(pass, e) == []
    decreases Weight(pass, e)
  {
    var next := Step(pass, e);
    if next != e {
      StepLosesWeight(pass, e);
      OnlyUnwrapCollects(pass, next);
    }
  }
}
