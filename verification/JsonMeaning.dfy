/** What a JSON predicate says, read off its records and children without building any node; and that the full parse
    builds an expression which says the same. */
module JsonMeaning {
  import opened Values
  import opened Ir
  import opened DropNullsPass
  import opened LiteralFolding
  import opened SourceConditions
  import opened Records

  // --- The meaning of JSON ---

  /** The conjunction of some values. */
  function AllOf(vs: seq<Value>): Value {
    if vs == [] then TRUE else KleeneAnd(vs[0], AllOf(vs[1..]))
  }

  /** The literal a JSON node stands for, if it may be an element of a list. */
  function Element(j: Json): Option<Lit> {
    if !ArityFits(j.record, |j.children|) then None
    else match j.record
      case LeafRecord(leaf) => if leaf.Literal? && !leaf.lit.ListLit? then Some(leaf.lit) else None
      case AllHorizontalRecord => if |j.children| == 1 then Element(j.children[0]) else None
      case _ => None
  }

  datatype SqlType = BoolType | IntType | FloatType | StringType | DateType | DatetimeType | TimestampType

  /** The type of a literal in SQL; NULL, NaN and lists have none. */
  function TypeOf(l: Lit): Option<SqlType> {
    match l
    case BoolLit(_) => Some(BoolType)
    case IntLit(_) => Some(IntType)
    case FloatLit(f) => if f == NaN then None else Some(FloatType)
    case StringLit(_) => Some(StringType)
    case DateLit(_) => Some(DateType)
    case TimestampLit(_, _, tz) => Some(if tz == None then DatetimeType else TimestampType)
    case _ => None
  }

  function ElementType(j: Json): Option<SqlType> {
    if Element(j).Some? then TypeOf(Element(j).value) else None
  }

  /** The nodes make up a list: elements that all have the same type, and not too many. */
  predicate IsList(js: seq<Json>) {
    && 0 < |js| <= MAX_IN_LIST_ELEMENTS && ElementType(js[0]).Some?
    && forall i | 0 <= i < |js| :: ElementType(js[i]) == ElementType(js[0])
  }

  /** The value of a JSON predicate on a row. A node that cannot be parsed may have any value. */
  function JsonValue(j: Json, env: Env): Value
    decreases j, 1
  {
    if !ArityFits(j.record, |j.children|) then env.unknown(j.id)
    else match j.record
      case LeafRecord(leaf) => Eval(leaf, env)
      case UnaryRecord(op) => UnaryValue(op, JsonValue(j.children[0], env), env)
      case FillNullWithRecord(fill) =>
        var v := JsonValue(j.children[0], env);
        if v == Null then Scalar(IntAtom(fill)) else v
      case BinaryRecord(op) => BinaryValue(op, JsonValue(j.children[0], env), JsonValue(j.children[1], env), env)
      case TernaryRecord =>
        Choose(JsonValue(j.children[0], env), JsonValue(j.children[1], env), JsonValue(j.children[2], env))
      case VariadicRecord(CoalesceOp) => FirstNonNull(JsonValues(j.children, env))
      case VariadicRecord(WhenOp) => FirstTrue(JsonValues(j.children, env))
      case AllHorizontalRecord => AllOf(JsonValues(j.children, env))
      case ListRecord => if IsList(j.children) then List(JsonValues(j.children, env)) else env.unknown(j.id)
      case RaisingRecord(id) => env.unknown(id)
  }

  function JsonValues(js: seq<Json>, env: Env): (vs: seq<Value>)
    ensures |vs| == |js| && forall i | 0 <= i < |js| :: vs[i] == JsonValue(js[i], env)
    decreases js, 0
  {
    if js == [] then [] else [JsonValue(js[0], env)] + JsonValues(js[1..], env)
  }

  /** Whether a JSON node is parsed from its children; otherwise it is a leaf, a list or not parsed at all. */
  predicate IsInner(j: Json) {
    ArityFits(j.record, |j.children|) && !j.record.LeafRecord? && !j.record.ListRecord?
  }

  /** No operand of a DropNulls is NULL on the row. */
  predicate JsonDropsHold(j: Json, env: Env) {
    if IsInner(j) then
      && (j.record == UnaryRecord(DropNullsOp) ==> JsonValue(j.children[0], env) != Null)
      && forall i | 0 <= i < |j.children| :: JsonDropsHold(j.children[i], env)
    else ArityFits(j.record, |j.children|) && j.record.LeafRecord? ==> DropsHold(j.record.leaf, env)
  }

  /** The rows a JSON predicate keeps. */
  predicate JsonKeeps(j: Json, env: Env) {
    JsonValue(j, env) == TRUE && JsonDropsHold(j, env)
  }

  /** No NULL literal stands in the predicate. */
  predicate JsonNullFree(j: Json) {
    if IsInner(j) then forall i | 0 <= i < |j.children| :: JsonNullFree(j.children[i])
    else ArityFits(j.record, |j.children|) && j.record.LeafRecord? ==> NullFree(j.record.leaf)
  }

  predicate RecordTellsNull(r: Record) {
    r in {UnaryRecord(IsNullOp), UnaryRecord(IsNotNullOp), UnaryRecord(DropNullsOp), BinaryRecord(FillNullOp)}
    || r.FillNullWithRecord? || r.VariadicRecord?
  }

  /** Every conditional's predicate is TRUE or FALSE on the row, and no NULL literal lies beneath an operator
      that tells NULL or beneath DropNulls. */
  predicate JsonPlain(j: Json, env: Env) {
    if IsInner(j) then
      && (j.record.TernaryRecord? ==> JsonValue(j.children[0], env).Bool?)
      && (RecordTellsNull(j.record) ==> forall i | 0 <= i < |j.children| :: JsonNullFree(j.children[i]))
      && forall i | 0 <= i < |j.children| :: JsonPlain(j.children[i], env)
    else ArityFits(j.record, |j.children|) && j.record.LeafRecord? ==> PlainOn(j.record.leaf, env)
  }

  // --- The parse has the same value ---

  lemma {:induction false} AllOfKnown(vs: seq<Value>)
    ensures AllOf(vs) == TRUE <==> forall i | 0 <= i < |vs| :: vs[i] == TRUE
    ensures AllOf(vs) == FALSE <==> FALSE in vs
  {
    if vs != [] {
      AllOfKnown(vs[1..]);
      assert forall i | 0 < i < |vs| :: vs[i] == vs[1..][i - 1];
      assert vs == [vs[0]] + vs[1..];
    }
  }

  lemma {:induction false} AndChainValue(acc: Expr, rest: seq<Expr>, env: Env)
    ensures Eval(AndChain(acc, rest), env) == KleeneAnd(Eval(acc, env), AllOf(EvalAll(rest, env)))
    decreases |rest|
  {
    if rest != [] {
      AndChainValue(And(acc, rest[0]), rest[1..], env);
    }
  }

  /** Exactly the elements parse to literals that have a type. */
  lemma {:induction false} ElementIff(j: Json)
    ensures FullParse(j).Literal? && TypeOf(FullParse(j).lit).Some?
       <==> Element(j).Some? && TypeOf(Element(j).value).Some?
    ensures Element(j).Some? ==> FullParse(j) == Literal(Element(j).value)
  {
    if ArityFits(j.record, |j.children|) && j.record.AllHorizontalRecord? {
      if |j.children| == 1 {
        ElementIff(j.children[0]);
      } else {
        ChainIsAnd(FullParseAll(j.children)[0], FullParseAll(j.children)[1..]);
      }
    }
  }

  /** Literals may stand together exactly when they have one type. */
  lemma {:induction false} HomogeneousIff(es: seq<Expr>)
    ensures IsHomogeneous(es)
       <==> 0 < |es| <= MAX_IN_LIST_ELEMENTS
            && forall i | 0 <= i < |es| ::
                 es[i].Literal? && TypeOf(es[i].lit).Some? && es[0].Literal? && TypeOf(es[i].lit) == TypeOf(es[0].lit)
  {
    if IsHomogeneous(es) {
      assert IsCompatible(es[0].lit, es[0].lit);
    }
  }

  lemma {:induction false} ChainIsAnd(acc: Expr, rest: seq<Expr>)
    requires rest != []
    ensures IsAnd(AndChain(acc, rest))
    decreases |rest|
  {
    if |rest| > 1 {
      ChainIsAnd(And(acc, rest[0]), rest[1..]);
    }
  }

  lemma {:induction false} ListIff(js: seq<Json>)
    ensures IsHomogeneous(FullParseAll(js)) <==> IsList(js)
  {
    var es := FullParseAll(js);
    HomogeneousIff(es);
    forall i | 0 <= i < |js|
      ensures es[i].Literal? && TypeOf(es[i].lit).Some? <==> ElementType(js[i]).Some?
      ensures ElementType(js[i]).Some? ==> es[i].Literal? && TypeOf(es[i].lit) == ElementType(js[i])
    {
      ElementIff(js[i]);
    }
  }

  lemma {:induction false} ListOfValue(es: seq<Expr>, env: Env)
    requires IsHomogeneous(es)
    ensures Eval(ListOf(es, Unknown(0)), env) == List(EvalAll(es, env))
  {
    assert LitValues(Lits(es)) == EvalAll(es, env);
  }

  /** A node built over children with the values of the JSON children has the value of the JSON node. */
  lemma {:induction false} BuiltValue(j: Json, kids: seq<Expr>, env: Env)
    requires ArityFits(j.record, |j.children|) && kids == FullParseAll(j.children)
    requires EvalAll(kids, env) == JsonValues(j.children, env)
    ensures Eval(Built(j.record, kids, Unknown(j.id)), env) == JsonValue(j, env)
  {
    assert forall i | 0 <= i < |kids| :: EvalAll(kids, env)[i] == Eval(kids[i], env);
    match j.record
    case AllHorizontalRecord =>
      AndChainValue(kids[0], kids[1..], env);
      assert JsonValues(j.children, env)[1..] == EvalAll(kids[1..], env);
    case ListRecord =>
      ListIff(j.children);
      if IsHomogeneous(kids) {
        ListOfValue(kids, env);
      }
    case _ =>
  }

  /** The full parse has the value of the JSON on every row. */
  lemma {:induction false} FullParseValue(j: Json, env: Env)
    ensures Eval(FullParse(j), env) == JsonValue(j, env)
    decreases j
  {
    if ArityFits(j.record, |j.children|) {
      var kids := FullParseAll(j.children);
      forall i | 0 <= i < |kids| ensures EvalAll(kids, env)[i] == JsonValues(j.children, env)[i] {
        FullParseValue(j.children[i], env);
      }
      BuiltValue(j, kids, env);
    }
  }

  // --- The parse keeps the same rows, and is plain on the same rows ---

  lemma {:induction false} AndChainEverywhere(acc: Expr, rest: seq<Expr>, p: Expr -> bool)
    requires forall l, r :: p(And(l, r))
    ensures Everywhere(AndChain(acc, rest), p)
       <==> Everywhere(acc, p) && forall i | 0 <= i < |rest| :: Everywhere(rest[i], p)
    decreases |rest|
  {
    if rest != [] {
      AndChainEverywhere(And(acc, rest[0]), rest[1..], p);
      AndEverywhere(acc, rest[0], p);
      assert rest == [rest[0]] + rest[1..];
    }
  }

  lemma {:induction false} AndEverywhere(l: Expr, r: Expr, p: Expr -> bool)
    requires p(And(l, r))
    ensures Everywhere(And(l, r), p) <==> Everywhere(l, p) && Everywhere(r, p)
  {
    assert Children(And(l, r)) == [l, r];
    assert l in Children(And(l, r)) && r in Children(And(l, r));
  }

  /** What holds of a node made from its children by themselves. */
  lemma {:induction false} NodeEverywhere(e: Expr, kids: seq<Expr>, p: Expr -> bool)
    requires Children(e) == kids
    ensures Everywhere(e, p) <==> p(e) && forall i | 0 <= i < |kids| :: Everywhere(kids[i], p)
  {
    assert forall i | 0 <= i < |kids| :: kids[i] in Children(e);
  }

  /** A property of nodes that connectives and integers have: it holds throughout what an inner node is parsed to if
      and only if it holds of the node made there and throughout the children. */
  lemma {:induction false} InnerEverywhere(j: Json, kids: seq<Expr>, p: Expr -> bool)
    requires IsInner(j) && |kids| == |j.children|
    requires forall l, r :: p(And(l, r))
    requires forall n :: p(Literal(IntLit(n)))
    ensures Everywhere(Built(j.record, kids, Unknown(j.id)), p)
       <==> (j.record.AllHorizontalRecord? || p(Built(j.record, kids, Unknown(j.id))))
            && forall i | 0 <= i < |kids| :: Everywhere(kids[i], p)
  {
    var e := Built(j.record, kids, Unknown(j.id));
    match j.record
    case AllHorizontalRecord =>
      AndChainEverywhere(kids[0], kids[1..], p);
      assert kids == [kids[0]] + kids[1..];
    case FillNullWithRecord(fill) =>
      NodeEverywhere(e, [kids[0], Literal(IntLit(fill))], p);
      NodeEverywhere(Literal(IntLit(fill)), [], p);
    case _ => NodeEverywhere(e, kids, p);
  }

  /** A leaf, a list and what is not parsed hold no children. */
  lemma {:induction false} OuterEverywhere(j: Json, p: Expr -> bool)
    requires !IsInner(j)
    requires forall m :: p(Unsupported(m, []))
    requires forall ls :: p(Literal(ListLit(ls)))
    ensures Everywhere(FullParse(j), p)
       <==> (ArityFits(j.record, |j.children|) && j.record.LeafRecord? ==> Everywhere(j.record.leaf, p))
  {
  }

  lemma {:induction false} FullParseDrops(j: Json, env: Env)
    ensures DropsHold(FullParse(j), env) <==> JsonDropsHold(j, env)
    decreases j
  {
    var p := DropHolds(env);
    if IsInner(j) {
      var kids := FullParseAll(j.children);
      forall i | 0 <= i < |kids| ensures Everywhere(kids[i], p) <==> JsonDropsHold(j.children[i], env) {
        FullParseDrops(j.children[i], env);
      }
      InnerEverywhere(j, kids, p);
      if j.record == UnaryRecord(DropNullsOp) {
        FullParseValue(j.children[0], env);
      }
    } else {
      OuterEverywhere(j, p);
    }
  }

  lemma {:induction false} FullParseNullFree(j: Json)
    ensures NullFree(FullParse(j)) <==> JsonNullFree(j)
    decreases j
  {
    if IsInner(j) {
      var kids := FullParseAll(j.children);
      forall i | 0 <= i < |kids| ensures Everywhere(kids[i], IsNotNullLiteral) <==> JsonNullFree(j.children[i]) {
        FullParseNullFree(j.children[i]);
      }
      InnerEverywhere(j, kids, IsNotNullLiteral);
    } else {
      OuterEverywhere(j, IsNotNullLiteral);
    }
  }

  lemma {:induction false} BuiltTellsNull(j: Json, kids: seq<Expr>, e: Expr)
    requires IsInner(j) && !j.record.AllHorizontalRecord? && |kids| == |j.children|
    requires e == Built(j.record, kids, Unknown(j.id))
    ensures TellsNull(e) || IsDropNulls(e) <==> RecordTellsNull(j.record)
    ensures e.Ternary? <==> j.record.TernaryRecord?
    ensures e.Ternary? ==> e.pred == kids[0]
    ensures Children(e) == if j.record.FillNullWithRecord? then [kids[0], Literal(IntLit(j.record.fill))] else kids
  {
  }

  lemma {:induction false} KidsNullFree(j: Json, kids: seq<Expr>, es: seq<Expr>)
    requires IsInner(j) && |kids| == |j.children|
    requires forall i | 0 <= i < |kids| :: NullFree(kids[i]) <==> JsonNullFree(j.children[i])
    requires es == if j.record.FillNullWithRecord? then [kids[0], Literal(IntLit(j.record.fill))] else kids
    ensures (forall kid | kid in es :: NullFree(kid)) <==> forall i | 0 <= i < |kids| :: JsonNullFree(j.children[i])
  {
    if j.record.FillNullWithRecord? {
      NodeEverywhere(es[1], [], IsNotNullLiteral);
    }
    assert forall i | 0 <= i < |es| :: es[i] in es;
  }

  /** The node itself is plain exactly where its record and the JSON children say so. */
  lemma {:induction false} BuiltIsPlain(j: Json, kids: seq<Expr>, e: Expr, env: Env)
    requires IsInner(j) && !j.record.AllHorizontalRecord? && kids == FullParseAll(j.children)
    requires e == Built(j.record, kids, Unknown(j.id))
    ensures IsPlain(e, env)
       <==> (j.record.TernaryRecord? ==> JsonValue(j.children[0], env).Bool?)
            && (RecordTellsNull(j.record) ==> forall i | 0 <= i < |j.children| :: JsonNullFree(j.children[i]))
  {
    BuiltTellsNull(j, kids, e);
    forall i | 0 <= i < |kids| ensures NullFree(kids[i]) <==> JsonNullFree(j.children[i]) {
      FullParseNullFree(j.children[i]);
    }
    KidsNullFree(j, kids, Children(e));
    if j.record.TernaryRecord? {
      FullParseValue(j.children[0], env);
    }
  }

  lemma {:induction false} FullParsePlain(j: Json, env: Env)
    ensures PlainOn(FullParse(j), env) <==> JsonPlain(j, env)
    decreases j
  {
    var p := PlainNode(env);
    if IsInner(j) {
      var kids := FullParseAll(j.children);
      forall i | 0 <= i < |kids| ensures Everywhere(kids[i], p) <==> JsonPlain(j.children[i], env) {
        FullParsePlain(j.children[i], env);
      }
      InnerEverywhere(j, kids, p);
      if !j.record.AllHorizontalRecord? {
        BuiltIsPlain(j, kids, Built(j.record, kids, Unknown(j.id)), env);
      }
    } else {
      OuterEverywhere(j, p);
    }
  }

  /** The full parse keeps exactly the rows the JSON keeps. */
  lemma {:induction false} FullParseKeeps(j: Json, env: Env)
    ensures Keeps(FullParse(j), env) <==> JsonKeeps(j, env)
  {
    FullParseValue(j, env);
    FullParseDrops(j, env);
  }
}
