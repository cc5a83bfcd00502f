/** The node budget of the parser (`MAX_AST_NODES`), and what of a predicate it never takes away. */
module NodeBudget {
  import opened Ir
  import opened Records

  const MAX_AST_NODES: nat := 10_000

  /** `record_leaf_fanout`: the items of a list decoded in one piece count as nodes. */
  function LeafFanout(r: Record): nat {
    if r.LeafRecord? && IsListLiteral(r.leaf) then |r.leaf.lit.values| else 0
  }

  /** The nodes of a JSON tree as the budget counts them. */
  function CountNodes(j: Json): (n: nat)
    ensures n >= 1 + |DispatchedChildren(j)| + LeafFanout(DispatchedRecord(j))
    decreases j, 1
  {
    if ArityFits(j.record, |j.children|) then 1 + CountAll(j.children) + LeafFanout(j.record) else 1
  }

  function CountAll(js: seq<Json>): (n: nat)
    ensures n >= |js|
    decreases js, 0
  {
    if js == [] then 0 else CountNodes(js[0]) + CountAll(js[1..])
  }

  lemma {:induction false} CountAllConcat(js: seq<Json>, ks: seq<Json>)
    ensures CountAll(js + ks) == CountAll(js) + CountAll(ks)
  {
    if js == [] {
      assert js + ks == ks;
    } else {
      assert (js + ks)[1..] == js[1..] + ks;
      CountAllConcat(js[1..], ks);
    }
  }

  lemma {:induction false} CountOf(j: Json)
    ensures CountNodes(j) == 1 + CountAll(DispatchedChildren(j)) + LeafFanout(DispatchedRecord(j))
  {
  }

  lemma {:induction false} CountAtLeast(js: seq<Json>)
    ensures CountAll(js) >= |js|
  {
  }

  // --- Layer by layer ---

  function KidsOf(js: seq<Json>): seq<Json> {
    if js == [] then [] else DispatchedChildren(js[0]) + KidsOf(js[1..])
  }

  function FanoutOf(js: seq<Json>): nat {
    if js == [] then 0 else LeafFanout(DispatchedRecord(js[0])) + FanoutOf(js[1..])
  }

  /** The nodes at depth `d` beneath the root, from left to right. */
  function Layer(root: Json, d: nat): seq<Json> {
    if d == 0 then [root] else KidsOf(Layer(root, d - 1))
  }

  /** The nodes down to depth `d`, with the list items of those above that depth. */
  function NodesDownTo(root: Json, d: nat): nat {
    if d == 0 then 1 else NodesDownTo(root, d - 1) + FanoutOf(Layer(root, d - 1)) + |Layer(root, d)|
  }

  lemma {:induction false} NodesDownToGrows(root: Json, d: nat, e: nat)
    requires d <= e
    ensures NodesDownTo(root, d) <= NodesDownTo(root, e)
    decreases e
  {
    if d < e {
      NodesDownToGrows(root, d, e - 1);
    }
  }

  /** The nodes at depth `d` and above fit the budget together with their children. */
  predicate FitsDownTo(root: Json, d: nat) { NodesDownTo(root, d + 1) <= MAX_AST_NODES }

  lemma {:induction false} FitsAbove(root: Json, d: nat, level: nat)
    requires FitsDownTo(root, d)
    ensures !FitsDownTo(root, level) ==> d < level
  {
    if level <= d {
      NodesDownToGrows(root, level + 1, d + 1);
    }
  }

  // --- What is kept ---

  /** The node that the record of `j` makes of the children. */
  ghost predicate BuiltFrom(j: Json, got: Expr, kids: seq<Expr>) {
    |kids| == |DispatchedChildren(j)| && got == Built(DispatchedRecord(j), kids, Replaced(FullParse(j)))
  }

  /** Down to depth `d`, `got` is made of what the records of `j` build; deeper subtrees may be anything. */
  ghost predicate KeptTo(j: Json, got: Expr, d: nat)
    decreases d, 1
  {
    exists kids :: BuiltFrom(j, got, kids) && (d > 0 ==> AllKeptTo(DispatchedChildren(j), kids, d - 1))
  }

  ghost predicate AllKeptTo(js: seq<Json>, gots: seq<Expr>, d: nat)
    decreases d, 2
  {
    |js| == |gots| && forall i | 0 <= i < |js| :: KeptTo(js[i], gots[i], d)
  }

  lemma {:induction false} KeptFrom(j: Json, got: Expr, kids: seq<Expr>, d: nat)
    requires BuiltFrom(j, got, kids) && (d > 0 ==> AllKeptTo(DispatchedChildren(j), kids, d - 1))
    ensures KeptTo(j, got, d)
  {
  }

  /** The node and everything beneath it lie within `d` levels. */
  predicate IsWithin(j: Json, d: nat) {
    DispatchedChildren(j) == []
    || (d > 0 && forall i | 0 <= i < |DispatchedChildren(j)| :: IsWithin(DispatchedChildren(j)[i], d - 1))
  }

  /** What lies wholly within the kept levels is parsed as if there were no budget. */
  lemma {:induction false} KeptWhole(j: Json, got: Expr, d: nat)
    requires KeptTo(j, got, d) && IsWithin(j, d)
    ensures Degrades(FullParse(j), got, false)
    decreases d
  {
    var js := DispatchedChildren(j);
    var kids :| BuiltFrom(j, got, kids) && (d > 0 ==> AllKeptTo(js, kids, d - 1));
    var full := FullParseAll(js);
    forall i | 0 <= i < |kids| ensures Degrades(full[i], kids[i], false) {
      KeptWhole(js[i], kids[i], d - 1);
    }
    BuiltDegrades(j, full, kids, false);
  }

  /** A conjunct that lies within the kept levels survives, however large the other one is. */
  lemma {:induction false} ShallowConjunctSurvives(j: Json, got: Expr, d: nat, i: nat)
    requires KeptTo(j, got, d) && d > 0 && j.record == BinaryRecord(AndOp) && |j.children| == 2
    requires i < 2 && IsWithin(j.children[i], d - 1)
    ensures IsAnd(got) && Degrades(FullParse(j.children[i]), Children(got)[i], false)
  {
    var kids :| BuiltFrom(j, got, kids) && (d > 0 ==> AllKeptTo(DispatchedChildren(j), kids, d - 1));
    BuiltConjunction(j, got, kids);
    KeptWhole(j.children[i], kids[i], d - 1);
  }

  lemma {:induction false} BuiltConjunction(j: Json, got: Expr, kids: seq<Expr>)
    requires BuiltFrom(j, got, kids) && j.record == BinaryRecord(AndOp) && |j.children| == 2
    ensures DispatchedChildren(j) == j.children && |kids| == 2 && got == And(kids[0], kids[1])
  {
  }
}
