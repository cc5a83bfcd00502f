/** Where a predicate's nodes are used as booleans, and the objects that `boolean_nodes` may hold. */
module Positions {
  import opened Ir
  import opened NodeRewriters
  import opened TreeRewriter
  import opened Objects
  import opened Conditionals

  /** The nodes whose mark is ever looked at. */
  predicate Matters(e: Expr) { IsAnd(e) || IsOr(e) || e.Ternary? }

  /** Whether the node is a conditional to be rewritten where it is used as a boolean, once DropNulls is gone. */
  predicate IsValidUnwrapped(e: Expr) { IsValidBooleanTernary(Rewritten(UnwrapDropNulls, e)) }

  /** Whether the place at the end of the path is used as a boolean, when the root is or is not. */
  predicate UsedAt(e: Expr, boolean: bool, path: seq<nat>)
    decreases |path|
  {
    if path == [] then boolean
    else path[0] < |Children(e)|
         && UsedAt(Children(e)[path[0]], KidUse(e, boolean, IsValidUnwrapped(e), path[0]), path[1..])
  }

  /** Whether `boolean_nodes` may ever hold the identity: the root is a filter, places of the filter and what
      they were rebuilt to go by their use, and what the sweep itself makes is only compared with itself. */
  predicate MayBeMarked(id: Id, root: Expr) {
    match id
    case Parsed(path) => UsedAt(root, true, path)
    case Rebuilt(sweep, _, of) => sweep.pass == BooleanWhen || MayBeMarked(of, root)
    case Made(_, _, _) => true
    case Conjunct(_) => true
    case Check(_) => true
  }

  predicate MadeByBooleanWhen(id: Id) { id.Rebuilt? && id.sweep.pass == BooleanWhen }

  /** Everywhere in the tree a mark is possible just where the node is used as a boolean. */
  predicate Fits(n: Object, boolean: bool, root: Expr)
    decreases n
  {
    && !IsDropNulls(n.expr) && !MadeByBooleanWhen(n.id)
    && (boolean ==> MayBeMarked(n.id, root))
    && (!boolean && Matters(n.expr) ==> !MayBeMarked(n.id, root))
    && forall i | 0 <= i < |n.kids| ::
         IsTree(n.kids[i]) && Fits(n.kids[i], KidUse(n.expr, boolean, IsValidBooleanTernary(n.expr), i), root)
  }

  lemma {:induction false} FittingKid(n: Object, boolean: bool, root: Expr, i: nat)
    requires Fits(n, boolean, root) && i < |n.kids|
    ensures IsTree(n.kids[i]) && Fits(n.kids[i], KidUse(n.expr, boolean, IsValidBooleanTernary(n.expr), i), root)
  {
  }

  /** The identities of the nodes used as booleans. */
  function BooleanIds(n: Node, boolean: bool): set<Id> {
    (if boolean then {n.id} else {})
    + set i, id | 0 <= i < |n.kids|
                  && id in BooleanIds(n.kids[i], KidUse(n.expr, boolean, IsValidBooleanTernary(n.expr), i)) :: id
  }

  lemma {:induction false} KidBooleanIds(n: Node, boolean: bool, i: nat)
    requires i < |n.kids|
    ensures BooleanIds(n.kids[i], KidUse(n.expr, boolean, IsValidBooleanTernary(n.expr), i)) <= BooleanIds(n, boolean)
  {
  }
}
