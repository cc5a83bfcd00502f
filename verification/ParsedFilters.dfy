/** From the JSON predicate to the restriction: what is compiled from the parse admits every row the predicate keeps,
    also where the predicate does not fit the node budget, and no others where SQL can say all of it. */
module ParsedFilters {
  import opened Values
  import opened Ir
  import opened NodeRewriters
  import opened TreeRewriter
  import opened DropNullsPass
  import opened Positions
  import opened RowSafety
  import opened SourceConditions
  import opened ColumnNames
  import opened CompileSql
  import opened Sql
  import opened Pushdown
  import opened Emittable
  import opened SurvivingRows
  import opened Records
  import opened NodeBudget
  import opened JsonMeaning
  import opened Parser

  /** Unsupported nodes stand for what they replaced, so degrading keeps every value. */
  lemma {:induction false} DegradedValue(full: Expr, got: Expr, degraded: bool, env: Env)
    requires Degrades(full, got, degraded)
    ensures Eval(got, env) == Eval(full, env)
    decreases full
  {
    if got != full && !(got.Unsupported? && got.meaning == Replaced(full)) {
      var kids, gots := Children(full), Children(got);
      forall i | 0 <= i < |kids| ensures Eval(gots[i], env) == Eval(kids[i], env) {
        DegradedValue(kids[i], gots[i], degraded, env);
      }
      assert EvalAll(gots, env) == EvalAll(kids, env);
      EvalCongruence(full, gots, env);
    }
  }

  /** Where a degraded node is not the full one, it is unsupported or the same node over degraded children. */
  lemma {:induction false} DegradedShape(full: Expr, got: Expr, degraded: bool)
    requires Degrades(full, got, degraded)
    ensures got == full || (got.Unsupported? && got.operands == [])
         || (|Children(got)| == |Children(full)| && got == ReplaceChildren(full, Children(got))
             && AllDegrade(Children(full), Children(got), degraded))
  {
  }

  lemma {:induction false} DegradedNullFree(full: Expr, got: Expr, degraded: bool)
    requires Degrades(full, got, degraded) && NullFree(full)
    ensures NullFree(got)
    decreases full
  {
    DegradedShape(full, got, degraded);
    if got != full && |Children(got)| == |Children(full)| && got == ReplaceChildren(full, Children(got))
       && AllDegrade(Children(full), Children(got), degraded) {
      forall i | 0 <= i < |Children(got)| ensures NullFree(Children(got)[i]) {
        DegradedNullFree(Children(full)[i], Children(got)[i], degraded);
      }
      assert IsNotNullLiteral(full);
    }
    assert IsNotNullLiteral(got);
  }

  lemma {:induction false} DegradedPlain(full: Expr, got: Expr, degraded: bool, env: Env)
    requires Degrades(full, got, degraded) && PlainOn(full, env)
    ensures PlainOn(got, env)
    decreases full
  {
    DegradedShape(full, got, degraded);
    if got != full && |Children(got)| == |Children(full)| && got == ReplaceChildren(full, Children(got))
       && AllDegrade(Children(full), Children(got), degraded) {
      assert PlainNode(env)(full);
      forall i | 0 <= i < |Children(got)| ensures PlainOn(Children(got)[i], env) {
        DegradedPlain(Children(full)[i], Children(got)[i], degraded, env);
      }
      forall i | 0 <= i < |Children(got)| && NullFree(Children(full)[i]) ensures NullFree(Children(got)[i]) {
        DegradedNullFree(Children(full)[i], Children(got)[i], degraded);
      }
      if full.Ternary? {
        DegradedValue(Children(full)[0], Children(got)[0], degraded, env);
      }
    }
    assert PlainNode(env)(got);
  }

  /** A row kept by the whole filter is kept by what is left of it. */
  lemma {:induction false} DegradedDrops(full: Expr, got: Expr, degraded: bool, env: Env)
    requires Degrades(full, got, degraded) && DropsHold(full, env)
    ensures DropsHold(got, env)
    decreases full
  {
    DegradedShape(full, got, degraded);
    if got != full && |Children(got)| == |Children(full)| && got == ReplaceChildren(full, Children(got))
       && AllDegrade(Children(full), Children(got), degraded) {
      assert DropHolds(env)(full);
      forall i | 0 <= i < |Children(got)| ensures DropsHold(Children(got)[i], env) {
        DegradedDrops(Children(full)[i], Children(got)[i], degraded, env);
      }
      if IsDropNulls(full) {
        DegradedValue(Children(full)[0], Children(got)[0], degraded, env);
      }
    }
    assert DropHolds(env)(got);
  }

  // --- From JSON to the restriction ---

  /** From the JSON predicate to the SQL restriction: whatever `JsonToIr` may return for it, the compiled
      restriction admits every row the predicate keeps, under the conditions on the predicate itself. */
  lemma {:induction false} ParsedFilterLosesNoRow(root: Json, tree: Expr, degraded: bool, env: Env, u: Unicode)
    requires Degrades(FullParse(root), tree, degraded)
    requires JsonKeeps(root, env) && JsonPlain(root, env)
    ensures Restriction(tree, u).Ok? ==> Admits(Restriction(tree, u).value, env)
  {
    FullParseKeeps(root, env);
    FullParsePlain(root, env);
    DegradedValue(FullParse(root), tree, degraded, env);
    DegradedDrops(FullParse(root), tree, degraded, env);
    DegradedPlain(FullParse(root), tree, degraded, env);
    PlainFilterLosesNoRow(tree, env, u);
  }

  /** Every record of the predicate can be built, from operands that can. */
  predicate JsonSupported(j: Json) {
    && ArityFits(j.record, |j.children|)
    && match j.record
       case LeafRecord(leaf) => !HasUnsupported(leaf)
       case ListRecord => IsList(j.children)
       case RaisingRecord(_) => false
       case _ => forall i | 0 <= i < |j.children| :: JsonSupported(j.children[i])
  }

  lemma {:induction false} SupportedParse(j: Json)
    ensures JsonSupported(j) <==> !HasUnsupported(FullParse(j))
    decreases j
  {
    if IsInner(j) {
      var kids := FullParseAll(j.children);
      forall i | 0 <= i < |kids| ensures Everywhere(kids[i], IsSupported) <==> JsonSupported(j.children[i]) {
        SupportedParse(j.children[i]);
      }
      InnerEverywhere(j, kids, IsSupported);
    } else if ArityFits(j.record, |j.children|) && j.record.ListRecord? {
      ListIff(j.children);
    }
  }

  /** A supported filter that fits the budget is parsed whole. */
  lemma {:induction false} ParsedWhole(full: Expr, tree: Expr)
    requires Degrades(full, tree, false) && !HasUnsupported(full)
    ensures tree == full
    decreases full
  {
    assert IsSupported(full);
    if |Children(tree)| == |Children(full)| && tree == ReplaceChildren(full, Children(tree))
       && AllDegrade(Children(full), Children(tree), false) {
      forall i | 0 <= i < |Children(full)| ensures Children(tree)[i] == Children(full)[i] {
        assert Children(full)[i] in Children(full);
        ParsedWhole(Children(full)[i], Children(tree)[i]);
      }
      assert Children(tree) == Children(full);
      ReplacedChildren(full, Children(tree));
    }
  }

  /** A supported filter that fits the budget, and whose rewriting SQL can say node by node, is restricted exactly:
      of the rows of the table, BigQuery returns those the JSON predicate keeps. */
  lemma {:induction false} ParsedFilterIsExact(root: Json, tree: Expr, env: Env, u: Unicode)
    requires Degrades(FullParse(root), tree, false) && JsonSupported(root)
    requires SafeChecks(tree, env) && NoNullOperands(DropNullsRewritten(tree), true)
    requires Safe(Rewritten(UnwrapDropNulls, tree), Predicate, env)
    requires IsPushedWhole(tree, u)
    ensures Restriction(tree, u).Ok? && Restriction(tree, u).value.Some?
    ensures Admits(Restriction(tree, u).value, env) <==> JsonKeeps(root, env)
  {
    SupportedParse(root);
    ParsedWhole(FullParse(root), tree);
    FullParseKeeps(root, env);
    EmittableIsExact(tree, env, u);
  }

  /** `_json_expr_to_row_restriction`. */
  method JsonExprToRowRestriction(root: Json, u: Unicode) returns (r: Result<Option<Sql>>)
    ensures forall env: Env :: JsonKeeps(root, env) && JsonPlain(root, env) && r.Ok? ==> Admits(r.value, env)
    ensures JsonSupported(root) && CountNodes(root) <= MAX_AST_NODES ==> r == Restriction(FullParse(root), u)
  {
    var tree, recorded := JsonToIr(root);
    r := PredicateToRowRestriction(tree, u);
    forall env: Env | JsonKeeps(root, env) && JsonPlain(root, env) && r.Ok? ensures Admits(r.value, env) {
      ParsedFilterLosesNoRow(root, tree, CountNodes(root) > MAX_AST_NODES, env, u);
    }
    if JsonSupported(root) && CountNodes(root) <= MAX_AST_NODES {
      SupportedParse(root);
      ParsedWhole(FullParse(root), tree);
    }
  }
}
