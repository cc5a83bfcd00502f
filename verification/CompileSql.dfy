/** `_compile_ir_to_sql` and `ir_to_sql` (sql/__init__.py): the two loops compute the recursive emission,
    or fail on a column name BigQuery does not allow. */
module CompileSql {
  import opened Values
  import opened Ir
  import opened Lists
  import opened NodeRewriters
  import opened SqlStrings
  import opened ColumnNames
  import opened Sql
  import opened Emit

  datatype Result<+T> = Ok(value: T) | InvalidColumnName

  function ColumnNamed(u: Unicode): Expr -> bool {
    (n: Expr) => n.Column? ==> IsColumnName(n.name, u)
  }

  /** The whole compilation: every column of the tree is checked, whether or not it is emitted. */
  function Compiled(root: Expr, u: Unicode): Result<Emitted> {
    if Everywhere(root, ColumnNamed(u)) then Ok(Emission(root)) else InvalidColumnName
  }

  lemma {:induction false} NamedIsQuotable(e: Expr, u: Unicode)
    requires Everywhere(e, ColumnNamed(u))
    ensures Everywhere(e, IsQuotable)
    decreases e
  {
    assert ColumnNamed(u)(e);
    if e.Column? {
      ColumnNameRoundTrip(e.name, u);
    }
    forall kid | kid in Children(e) ensures Everywhere(kid, IsQuotable) {
      NamedIsQuotable(kid, u);
    }
  }

  /** What is compiled, with the columns' names, keeps the promises of its emission. */
  lemma {:induction false} CompilationSound(e: Expr, env: Env, u: Unicode)
    requires Compiled(e, u).Ok?
    ensures Promises(Compiled(e, u).value, Eval(e, env), env)
  {
    NamedIsQuotable(e, u);
    EmissionSound(e, env);
  }

  /** The compiled SQL admits every row on which the predicate is TRUE, and no other if it is exact. */
  lemma {:induction false} CompiledAdmits(e: Expr, env: Env, u: Unicode)
    requires Compiled(e, u).Ok?
    ensures Eval(e, env) == TRUE ==> Admits(Compiled(e, u).value.sql, env)
    ensures Compiled(e, u).value.exact ==> (Admits(Compiled(e, u).value.sql, env) <==> Eval(e, env) == TRUE)
  {
    CompilationSound(e, env, u);
  }

  // --- The first loop lists the nodes ---

  /** The given children are recorded behind entry `k`, in order. */
  ghost predicate KidsBehind(nodes: seq<Expr>, idx: seq<nat>, k: nat, kids: seq<Expr>) {
    && k < |nodes| && |idx| == |kids|
    && forall j | 0 <= j < |idx| :: k < idx[j] < |nodes| && nodes[idx[j]] == kids[j]
  }

  ghost predicate Listed(nodes: seq<Expr>, childrenMap: seq<seq<nat>>, done: nat) {
    && |nodes| == |childrenMap| && done <= |nodes|
    && forall k | 0 <= k < done :: KidsBehind(nodes, childrenMap[k], k, Children(nodes[k]))
  }

  lemma {:induction false} KidsStayBehind(nodes: seq<Expr>, idx: seq<nat>, k: nat, kids: seq<Expr>, more: seq<Expr>)
    requires KidsBehind(nodes, idx, k, kids)
    ensures KidsBehind(nodes + more, idx, k, kids)
  {
  }

  lemma {:induction false} KidsNowBehind(nodes: seq<Expr>, k: nat, kids: seq<Expr>)
    requires k < |nodes|
    ensures KidsBehind(nodes + kids, Indices(|nodes|, |kids|), k, kids)
  {
  }

  lemma {:induction false} ListNext(nodes: seq<Expr>, childrenMap: seq<seq<nat>>, done: nat, kids: seq<Expr>)
    requires Listed(nodes, childrenMap, done) && done < |nodes| && kids == Children(nodes[done])
    ensures Listed(nodes + kids, childrenMap[done := Indices(|nodes|, |kids|)] + NoKidsYet(|kids|), done + 1)
  {
    var nodes', map' := nodes + kids, childrenMap[done := Indices(|nodes|, |kids|)] + NoKidsYet(|kids|);
    forall k | 0 <= k < done + 1 ensures KidsBehind(nodes', map'[k], k, Children(nodes'[k])) {
      assert nodes'[k] == nodes[k];
      if k < done {
        KidsStayBehind(nodes, childrenMap[k], k, Children(nodes[k]), kids);
      } else {
        KidsNowBehind(nodes, done, kids);
      }
    }
  }

  /** Every listed node is a descendant of the root: what holds everywhere holds there. */
  ghost predicate AllWithin(nodes: seq<Expr>, root: Expr, p: Expr -> bool) {
    Everywhere(root, p) ==> forall e | e in nodes :: Everywhere(e, p)
  }

  lemma {:induction false} WithinNext(nodes: seq<Expr>, k: nat, root: Expr, p: Expr -> bool)
    requires k < |nodes| && AllWithin(nodes, root, p)
    ensures AllWithin(nodes + Children(nodes[k]), root, p)
  {
    assert nodes[k] in nodes;
  }

  lemma {:induction false} PendingShrinks(pass: Pass, nodes: seq<Expr>, done: nat)
    requires done < |nodes|
    ensures
      var kids := Children(nodes[done]);
      SumWeight(pass, (nodes + kids)[done + 1..]) < SumWeight(pass, nodes[done..])
  {
    var kids := Children(nodes[done]);
    ChildrenWeighLess(pass, nodes[done]);
    SumWeightConcat(pass, nodes[done + 1..], kids);
    assert nodes[done..][1..] == nodes[done + 1..];
    assert (nodes + kids)[done + 1..] == nodes[done + 1..] + kids;
  }

  /** The invariant of the first loop. */
  ghost predicate Listing(root: Expr, p: Expr -> bool, nodes: seq<Expr>, childrenMap: seq<seq<nat>>, queue: seq<nat>,
                          done: nat) {
    && Listed(nodes, childrenMap, done) && AllWithin(nodes, root, p)
    && |nodes| > 0 && nodes[0] == root
    && queue == Indices(done, |nodes| - done)
  }

  lemma {:induction false} ListingKept(pass: Pass, root: Expr, p: Expr -> bool, nodes: seq<Expr>,
                                       childrenMap: seq<seq<nat>>, queue: seq<nat>, done: nat,
                    kids: seq<Expr>)
    requires Listing(root, p, nodes, childrenMap, queue, done) && queue != []
    requires kids == Children(nodes[done])
    ensures Listing(root, p, nodes + kids, childrenMap[done := Indices(|nodes|, |kids|)] + NoKidsYet(|kids|),
                    queue[1..] + Indices(|nodes|, |kids|), done + 1)
    ensures SumWeight(pass, (nodes + kids)[done + 1..]) < SumWeight(pass, nodes[done..])
  {
    ListNext(nodes, childrenMap, done, kids);
    WithinNext(nodes, done, root, p);
    PendingShrinks(pass, nodes, done);
    QueueNext(done, |nodes|, |kids|);
  }

  method ListNodes(root: Expr, ghost p: Expr -> bool) returns (nodes: seq<Expr>, childrenMap: seq<seq<nat>>)
    ensures Listed(nodes, childrenMap, |nodes|) && AllWithin(nodes, root, p)
    ensures |nodes| > 0 && nodes[0] == root
  {
    nodes, childrenMap := [root], [[]];
    var queue: seq<nat> := [0];
    ghost var done := 0;
    ghost var pass: Pass :| true;  // any weight bounds the walk
    while queue != []
      invariant Listing(root, p, nodes, childrenMap, queue, done)
      decreases SumWeight(pass, nodes[done..])
    {
      var curr := queue[0];
      var kids := Children(nodes[curr]);
      ListingKept(pass, root, p, nodes, childrenMap, queue, done, kids);
      var kidIdx := Indices(|nodes|, |kids|);
      nodes := nodes + kids;
      childrenMap := childrenMap[curr := kidIdx] + NoKidsYet(|kids|);
      queue := queue[1..] + kidIdx;
      done := done + 1;
    }
  }

  // --- The second loop emits in reverse ---

  lemma {:induction false} EmittedFromKids(nodes: seq<Expr>, results: seq<Emitted>, idx: seq<nat>, k: nat, u: Unicode)
    requires k < |nodes| == |results| && KidsBehind(nodes, idx, k, Children(nodes[k]))
    requires EmittedFrom(nodes, results, k + 1, u)
    ensures forall j | 0 <= j < |idx| :: idx[j] < |results|
    ensures |idx| == |Children(nodes[k])|
    ensures Emission(nodes[k]) == EmitNode(nodes[k], Picked(results, idx))
    ensures Everywhere(nodes[k], ColumnNamed(u)) <==> ColumnNamed(u)(nodes[k])
  {
    EmissionOfNode(nodes[k]);
    assert Picked(results, idx) == EmitAll(Children(nodes[k]));
    forall kid | kid in Children(nodes[k]) ensures Everywhere(kid, ColumnNamed(u)) {
      var j :| 0 <= j < |idx| && Children(nodes[k])[j] == kid;
      assert nodes[idx[j]] == kid;
    }
  }

  /** The results behind `from` are the emissions, and no column name there is invalid. */
  ghost predicate EmittedFrom(nodes: seq<Expr>, results: seq<Emitted>, from: nat, u: Unicode) {
    && |nodes| == |results|
    && forall k | from <= k < |nodes| :: Everywhere(nodes[k], ColumnNamed(u)) && results[k] == Emission(nodes[k])
  }

  lemma {:induction false} EmittedNext(nodes: seq<Expr>, results: seq<Emitted>, idx: seq<nat>, k: nat, u: Unicode)
    requires k < |nodes| == |results| && KidsBehind(nodes, idx, k, Children(nodes[k]))
    requires EmittedFrom(nodes, results, k + 1, u)
    ensures |idx| == |Children(nodes[k])| && forall j | 0 <= j < |idx| :: idx[j] < |results|
    ensures ColumnNamed(u)(nodes[k]) ==>
              EmittedFrom(nodes, results[k := EmitNode(nodes[k], Picked(results, idx))], k, u)
  {
    EmittedFromKids(nodes, results, idx, k, u);
  }

  /** The second loop: children before parents; it stops at an invalid column name. */
  method EmitBottomUp(nodes: seq<Expr>, childrenMap: seq<seq<nat>>, u: Unicode)
    returns (results: seq<Emitted>, invalid: bool)
    requires Listed(nodes, childrenMap, |nodes|)
    ensures !invalid ==> EmittedFrom(nodes, results, 0, u)
    ensures invalid ==> exists k :: 0 <= k < |nodes| && !ColumnNamed(u)(nodes[k])
  {
    results, invalid := seq(|nodes|, _ => NOTHING), false;
    var idx := |nodes|;
    while idx > 0
      invariant 0 <= idx <= |nodes|
      invariant EmittedFrom(nodes, results, idx, u)
    {
      idx := idx - 1;
      EmittedNext(nodes, results, childrenMap[idx], idx, u);
      var node := nodes[idx];
      if node.Column? {
        var identifier := ColumnToSqlIdentifier(node.name, u);
        if identifier.None? {
          return results, true;
        }
      }
      results := results[idx := EmitNode(node, Picked(results, childrenMap[idx]))];
    }
  }

  method CompileIrToSql(root: Expr, u: Unicode) returns (r: Result<Emitted>)
    ensures r == Compiled(root, u)
  {
    var nodes, childrenMap := ListNodes(root, ColumnNamed(u));
    var results, invalid := EmitBottomUp(nodes, childrenMap, u);
    if invalid {
      ghost var k :| 0 <= k < |nodes| && !ColumnNamed(u)(nodes[k]);
      assert nodes[k] in nodes;
      return InvalidColumnName;
    }
    return Ok(results[0]);
  }

  /** `ir_to_sql`. */
  method IrToSql(root: Expr, u: Unicode) returns (r: Result<Option<Sql>>)
    ensures r == match Compiled(root, u) case Ok(emitted) => Ok(emitted.sql) case InvalidColumnName => InvalidColumnName
  {
    var compiled := CompileIrToSql(root, u);
    match compiled {
      case Ok(emitted) => return Ok(emitted.sql);
      case InvalidColumnName => return InvalidColumnName;
    }
  }
}
