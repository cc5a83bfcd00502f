/** Values of a row expression and the three-valued connectives of Polars and BigQuery. */
module Values {

  datatype Option<+T> = None | Some(value: T)

  datatype Float = NaN | Infinite(negative: bool) | Finite(r: real)

  /** Non-boolean scalars. A timestamp is a count of microseconds; `naive` tells DATETIME from TIMESTAMP. */
  datatype Atom =
    | IntAtom(i: int)
    | FloatAtom(f: Float)
    | StringAtom(s: string)
    | DateAtom(days: int)
    | StampAtom(micros: int, naive: bool)

  datatype Value = Null | Bool(b: bool) | Scalar(atom: Atom) | List(items: seq<Value>)

  const TRUE: Value := Bool(true)
  const FALSE: Value := Bool(false)

  // The connectives follow Kleene's tables on Bool and Null. On other operands, which a well typed
  // predicate never has, they keep their unit and absorption laws and are Null otherwise, so the
  // theorems below need no typing assumption.

  function KleeneNot(v: Value): Value {
    if v.Bool? then Bool(!v.b) else Null
  }

  function KleeneAnd(v: Value, w: Value): Value {
    if v == FALSE || w == FALSE then FALSE
    else if v == TRUE then w
    else if w == TRUE then v
    else Null
  }

  function KleeneOr(v: Value, w: Value): Value {
    if v == TRUE || w == TRUE then TRUE
    else if v == FALSE then w
    else if w == FALSE then v
    else Null
  }

  /** A conditional takes its falsy branch when the predicate is FALSE or NULL. */
  function Choose(p: Value, t: Value, f: Value): Value {
    if p == TRUE then t else f
  }

  /** COALESCE: the first operand that is not NULL. */
  function FirstNonNull(vs: seq<Value>): Value {
    if vs == [] then Null else if vs[0] != Null then vs[0] else FirstNonNull(vs[1..])
  }

  /** CASE: operands are (predicate, result) pairs followed by the default. */
  function FirstTrue(vs: seq<Value>): Value {
    if vs == [] then Null
    else if |vs| == 1 then vs[0]
    else if vs[0] == TRUE then vs[1]
    else FirstTrue(vs[2..])
  }

  /** The information order: NULL may be replaced by any value, everything else stays. */
  predicate Refines(v: Value, w: Value) {
    v == Null || v == w
  }

  lemma {:induction false} KleeneMonotone(v: Value, w: Value, v': Value, w': Value)
    requires Refines(v, v') && Refines(w, w')
    ensures Refines(KleeneNot(v), KleeneNot(v'))
    ensures Refines(KleeneAnd(v, w), KleeneAnd(v', w'))
    ensures Refines(KleeneOr(v, w), KleeneOr(v', w'))
  {
  }

  lemma {:induction false} DeMorganLaw(v: Value, w: Value)
    ensures KleeneNot(KleeneOr(v, w)) == KleeneAnd(KleeneNot(v), KleeneNot(w))
  {
  }
}
