/** JSON nodes whose parser has been dispatched (parser/base.py): the records, the nodes they make of their children,
    and what giving up some subtrees does to the result. */
module Records {
  import opened Values
  import opened Ir

  const MAX_IN_LIST_ELEMENTS: nat := 10_000

  /** What a parser function returns for a JSON node: a leaf, or a constructor for its children, perhaps one that
      raises and so leaves an unsupported node over them. */
  datatype Record =
    | LeafRecord(leaf: Expr)
    | UnaryRecord(uop: UnaryOp)
    | FillNullWithRecord(fill: int)
    | BinaryRecord(bop: BinaryOp)
    | TernaryRecord
    | VariadicRecord(vop: VariadicOp)
    | AllHorizontalRecord
    | ListRecord
    | RaisingRecord(id: nat)

  /** A JSON node: the record its parser returns and the child JSON nodes; `id` names the node. */
  datatype Json = Json(id: nat, record: Record, children: seq<Json>)

  function UnsupportedLeaf(j: Json): Expr { Unsupported(Unknown(j.id), []) }

  /** `_validate_parse_record`: the number of children must fit the kind of record. */
  predicate ArityFits(r: Record, n: nat) {
    match r
    case LeafRecord(_) => n == 0
    case UnaryRecord(_) => n == 1
    case FillNullWithRecord(_) => n == 1
    case BinaryRecord(_) => n == 2
    case TernaryRecord => n == 3
    case VariadicRecord(_) => n >= 1
    case AllHorizontalRecord => n >= 1
    case ListRecord => n >= 1
    case RaisingRecord(_) => true
  }

  /** `dispatch_parser`: a record that does not validate is replaced by an unsupported leaf. */
  function DispatchedRecord(j: Json): Record {
    if ArityFits(j.record, |j.children|) then j.record else LeafRecord(UnsupportedLeaf(j))
  }

  function DispatchedChildren(j: Json): seq<Json> {
    if ArityFits(j.record, |j.children|) then j.children else []
  }

  // --- Constructors ---

  /** `construct_all_horizontal`: a left-associative chain of AND. */
  function AndChain(acc: Expr, rest: seq<Expr>): Expr
    decreases |rest|
  {
    if rest == [] then acc else AndChain(And(acc, rest[0]), rest[1..])
  }

  method ConstructAllHorizontal(children: seq<Expr>) returns (acc: Expr)
    requires children != []
    ensures acc == AndChain(children[0], children[1..])
  {
    acc := children[0];
    for i := 1 to |children|
      invariant AndChain(acc, children[i..]) == AndChain(children[0], children[1..])
    {
      assert children[i..][1..] == children[i + 1..];
      acc := And(acc, children[i]);
    }
    assert children[|children|..] == [];
  }

  /** `_is_compatible_list_element`. */
  predicate IsCompatible(candidate: Lit, first: Lit) {
    && !candidate.NullLit? && !candidate.ListLit? && candidate != FloatLit(NaN)
    && match candidate
       case BoolLit(_) => first.BoolLit?
       case IntLit(_) => first.IntLit?
       case FloatLit(_) => first.FloatLit?
       case StringLit(_) => first.StringLit?
       case DateLit(_) => first.DateLit?
       case TimestampLit(_, _, tz) => first.TimestampLit? && (tz == None <==> first.tz == None)
       case _ => false
  }

  /** The children are literals that may stand together in one list. */
  predicate IsHomogeneous(children: seq<Expr>) {
    && 0 < |children| <= MAX_IN_LIST_ELEMENTS
    && (forall i | 0 <= i < |children| :: children[i].Literal?)
    && forall i | 0 <= i < |children| :: IsCompatible(children[i].lit, children[0].lit)
  }

  function Lits(children: seq<Expr>): (ls: seq<Lit>)
    requires forall i | 0 <= i < |children| :: children[i].Literal?
    ensures |ls| == |children|
  {
    seq(|children|, i requires 0 <= i < |children| => children[i].lit)
  }

  function ListOf(children: seq<Expr>, meaning: Meaning): Expr {
    if IsHomogeneous(children) then Literal(ListLit(Lits(children))) else Unsupported(meaning, [])
  }

  /** `construct_list_literal`. */
  method ConstructListLiteral(children: seq<Expr>, meaning: Meaning) returns (list: Expr)
    ensures list == ListOf(children, meaning)
  {
    if children == [] || |children| > MAX_IN_LIST_ELEMENTS {
      return Unsupported(meaning, []);
    }
    var parsed: seq<Lit> := [];
    for i := 0 to |children|
      invariant |parsed| == i
      invariant forall k | 0 <= k < i ::
        children[0].Literal? && children[k].Literal? && parsed[k] == children[k].lit
        && IsCompatible(children[k].lit, children[0].lit)
    {
      var elem := children[i];
      if !elem.Literal? || !IsCompatible(elem.lit, if parsed != [] then parsed[0] else elem.lit) {
        return Unsupported(meaning, []);
      }
      parsed := parsed + [elem.lit];
    }
    assert parsed == Lits(children);
    return Literal(ListLit(parsed));
  }

  /** The node a record makes of its children. */
  function Built(r: Record, kids: seq<Expr>, meaning: Meaning): Expr
    requires ArityFits(r, |kids|)
  {
    match r
    case LeafRecord(leaf) => leaf
    case UnaryRecord(op) => Unary(op, kids[0])
    case FillNullWithRecord(fill) => Binary(FillNullOp, kids[0], Literal(IntLit(fill)))
    case BinaryRecord(op) => Binary(op, kids[0], kids[1])
    case TernaryRecord => Ternary(kids[0], kids[1], kids[2])
    case VariadicRecord(op) => Variadic(op, kids)
    case AllHorizontalRecord => AndChain(kids[0], kids[1..])
    case ListRecord => ListOf(kids, meaning)
    case RaisingRecord(id) => Unsupported(Unknown(id), kids)
  }

  method Construct(r: Record, kids: seq<Expr>, meaning: Meaning) returns (e: Expr)
    requires ArityFits(r, |kids|)
    ensures e == Built(r, kids, meaning)
  {
    match r {
      case LeafRecord(leaf) => e := leaf;
      case UnaryRecord(op) => e := Unary(op, kids[0]);
      case FillNullWithRecord(fill) => e := Binary(FillNullOp, kids[0], Literal(IntLit(fill)));
      case BinaryRecord(op) => e := Binary(op, kids[0], kids[1]);
      case TernaryRecord => e := Ternary(kids[0], kids[1], kids[2]);
      case VariadicRecord(op) => e := Variadic(op, kids);
      case AllHorizontalRecord => e := ConstructAllHorizontal(kids);
      case ListRecord => e := ConstructListLiteral(kids, meaning);
      case RaisingRecord(id) => e := Unsupported(Unknown(id), kids);
    }
  }

  // --- Parsing without a budget ---

  function FullParse(j: Json): Expr
    decreases j, 1
  {
    if ArityFits(j.record, |j.children|) then
      Built(j.record, FullParseAll(j.children), Unknown(j.id))
    else UnsupportedLeaf(j)
  }

  function FullParseAll(js: seq<Json>): (es: seq<Expr>)
    ensures |es| == |js| && forall i | 0 <= i < |js| :: es[i] == FullParse(js[i])
    decreases js, 0
  {
    if js == [] then [] else [FullParse(js[0])] + FullParseAll(js[1..])
  }

  lemma {:induction false} FullParseOf(j: Json)
    ensures ArityFits(DispatchedRecord(j), |DispatchedChildren(j)|)
    ensures FullParse(j) == Built(DispatchedRecord(j), FullParseAll(DispatchedChildren(j)), Unknown(j.id))
  {
  }

  // --- What the budget may do ---

  /** `got` is `full` with some subtrees replaced by unsupported nodes that stand for them. Unless
      `degraded`, only what is unsupported anyway is replaced. */
  predicate Degrades(full: Expr, got: Expr, degraded: bool)
    decreases full
  {
    || got == full
    || (got.Unsupported? && got.meaning == Replaced(full) && got.operands == [] && (degraded || full.Unsupported?))
    || (&& |Children(got)| == |Children(full)|
        && got == ReplaceChildren(full, Children(got))
        && forall i | 0 <= i < |Children(full)| :: Degrades(Children(full)[i], Children(got)[i], degraded))
  }

  predicate AllDegrade(full: seq<Expr>, got: seq<Expr>, degraded: bool) {
    |full| == |got| && forall i | 0 <= i < |full| :: Degrades(full[i], got[i], degraded)
  }

  lemma {:induction false} DegradesNode(full: Expr, kids: seq<Expr>, degraded: bool)
    requires AllDegrade(Children(full), kids, degraded)
    ensures Degrades(full, ReplaceChildren(full, kids), degraded)
  {
    ReplacedChildren(full, kids);
  }

  lemma {:induction false} AndChainDegrades(full: Expr, fulls: seq<Expr>, got: Expr, gots: seq<Expr>, degraded: bool)
    requires Degrades(full, got, degraded) && AllDegrade(fulls, gots, degraded)
    ensures Degrades(AndChain(full, fulls), AndChain(got, gots), degraded)
    decreases |fulls|
  {
    if fulls != [] {
      DegradesNode(And(full, fulls[0]), [got, gots[0]], degraded);
      AndChainDegrades(And(full, fulls[0]), fulls[1..], And(got, gots[0]), gots[1..], degraded);
    }
  }

  /** A literal that was not degraded is the same literal. */
  lemma {:induction false} LiteralsStay(full: seq<Expr>, got: seq<Expr>)
    requires AllDegrade(full, got, false)
    ensures IsHomogeneous(full) ==> got == full
    ensures IsHomogeneous(got) ==> got == full
  {
    forall i | 0 <= i < |full| ensures (full[i].Literal? || got[i].Literal?) ==> got[i] == full[i] {
      if got[i] != full[i] {
        assert Degrades(full[i], got[i], false);
      }
    }
  }

  /** List elements that were degraded keep the list from being built; the rest are unchanged. */
  lemma {:induction false} ListDegrades(full: seq<Expr>, got: seq<Expr>, id: nat, degraded: bool)
    requires AllDegrade(full, got, degraded)
    ensures
      var fullList := ListOf(full, Unknown(id));
      Degrades(fullList, ListOf(got, Replaced(fullList)), degraded)
  {
    if degraded {
      if IsHomogeneous(got) {
        forall i | 0 <= i < |full| ensures got[i] == full[i] {
          assert Degrades(full[i], got[i], true) && got[i].Literal?;
        }
        assert got == full;
      }
    } else {
      LiteralsStay(full, got);
    }
  }

  /** Building from degraded children degrades what the children of the full parse would build. */
  lemma {:induction false} BuiltDegrades(j: Json, full: seq<Expr>, got: seq<Expr>, degraded: bool)
    requires full == FullParseAll(DispatchedChildren(j)) && AllDegrade(full, got, degraded)
    ensures ArityFits(DispatchedRecord(j), |got|)
    ensures Degrades(FullParse(j), Built(DispatchedRecord(j), got, Replaced(FullParse(j))), degraded)
  {
    FullParseOf(j);
    match DispatchedRecord(j)
    case LeafRecord(_) =>
    case UnaryRecord(op) => DegradesNode(Unary(op, full[0]), [got[0]], degraded);
    case FillNullWithRecord(fill) =>
      DegradesNode(Binary(FillNullOp, full[0], Literal(IntLit(fill))), [got[0], Literal(IntLit(fill))], degraded);
    case BinaryRecord(op) => DegradesNode(Binary(op, full[0], full[1]), [got[0], got[1]], degraded);
    case TernaryRecord => DegradesNode(Ternary(full[0], full[1], full[2]), [got[0], got[1], got[2]], degraded);
    case VariadicRecord(op) => DegradesNode(Variadic(op, full), got, degraded);
    case AllHorizontalRecord => AndChainDegrades(full[0], full[1..], got[0], got[1..], degraded);
    case ListRecord => ListDegrades(full, got, j.id, degraded);
    case RaisingRecord(id) => DegradesNode(Unsupported(Unknown(id), full), got, degraded);
  }
}
