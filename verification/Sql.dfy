/** The fragment of BigQuery SQL that row restrictions use, as terms with their meaning on a row. */
module Sql {
  import opened Values
  import opened Ir
  import opened SqlStrings

  datatype Sql =
    | SqlColumn(identifier: string)
    | SqlNull
    | SqlBool(b: bool)
    | SqlInt(i: int)
    | SqlFloat(f: Float)
    | SqlString(quoted: string)
    | SqlDateOfSeconds(seconds: int)
    | SqlTimestampMicros(micros: int)
    | SqlTimestampMillis(millis: int)
    | SqlDatetime(timestamp: Sql)
    | SqlTuple(items: seq<Sql>)
    | SqlNot(x: Sql)
    | SqlIsNull(x: Sql)
    | SqlIsNotNull(x: Sql)
    | SqlFn(fn: UnaryOp, x: Sql)
    | SqlAnd(l: Sql, r: Sql)
    | SqlOr(l: Sql, r: Sql)
    | SqlIfNull(l: Sql, r: Sql)
    | SqlIn(l: Sql, r: Sql)
    | SqlOp(op: BinaryOp, l: Sql, r: Sql)
    | SqlCoalesce(items: seq<Sql>)
    | SqlIf(cond: Sql, truthy: Sql, falsy: Sql)
    | SqlCase(whens: seq<Sql>, otherwise: Option<Sql>)  // alternating conditions and results

  const SECONDS_PER_DAY := 86400

  /** `x = v` as a disjunct of IN. */
  function EqualsItem(v: Value, item: Value, env: Env): Value {
    if v == Null || item == Null then Null else Bool(env.same(v, item))
  }

  /** `x IN (v1, ..., vn)` abbreviates `x = v1 OR ... OR x = vn`. */
  function InDisjunction(v: Value, items: seq<Value>, env: Env): Value {
    if items == [] then FALSE
    else KleeneOr(EqualsItem(v, items[0], env), InDisjunction(v, items[1..], env))
  }

  function StringValue(quoted: string): Value {
    match LiteralText(quoted)
    case Some(s) => Scalar(StringAtom(s))
    case None => Null
  }

  function ColumnValue(identifier: string, env: Env): Value {
    match IdentifierText(identifier)
    case Some(name) => env.row(name)
    case None => Null
  }

  function DatetimeOf(v: Value): Value {
    if v.Scalar? && v.atom.StampAtom? then Scalar(v.atom.(naive := true)) else Null
  }

  function SqlEval(s: Sql, env: Env): Value
    decreases s, 1
  {
    match s
    case SqlColumn(identifier) => ColumnValue(identifier, env)
    case SqlNull => Null
    case SqlBool(b) => Bool(b)
    case SqlInt(i) => Scalar(IntAtom(i))
    case SqlFloat(f) => Scalar(FloatAtom(f))
    case SqlString(quoted) => StringValue(quoted)
    case SqlDateOfSeconds(seconds) => Scalar(DateAtom(seconds / SECONDS_PER_DAY))
    case SqlTimestampMicros(micros) => Scalar(StampAtom(micros, false))
    case SqlTimestampMillis(millis) => Scalar(StampAtom(1000 * millis, false))
    case SqlDatetime(timestamp) => DatetimeOf(SqlEval(timestamp, env))
    case SqlTuple(items) => List(SqlEvalAll(items, env))
    case SqlNot(x) => KleeneNot(SqlEval(x, env))
    case SqlIsNull(x) => Bool(SqlEval(x, env) == Null)
    case SqlIsNotNull(x) => Bool(SqlEval(x, env) != Null)
    case SqlFn(fn, x) => Strict1(fn, SqlEval(x, env), env)
    case SqlAnd(l, r) => KleeneAnd(SqlEval(l, env), SqlEval(r, env))
    case SqlOr(l, r) => KleeneOr(SqlEval(l, env), SqlEval(r, env))
    case SqlIfNull(l, r) => FirstNonNull([SqlEval(l, env), SqlEval(r, env)])
    case SqlIn(l, r) =>
      var v, w := SqlEval(l, env), SqlEval(r, env);
      if w.List? then InDisjunction(v, w.items, env) else Null
    case SqlOp(op, l, r) => Strict2(op, SqlEval(l, env), SqlEval(r, env), env)
    case SqlCoalesce(items) => FirstNonNull(SqlEvalAll(items, env))
    case SqlIf(c, t, f) => Choose(SqlEval(c, env), SqlEval(t, env), SqlEval(f, env))
    case SqlCase(whens, otherwise) =>
      CaseValue(SqlEvalAll(whens, env), match otherwise case Some(x) => SqlEval(x, env) case None => Null)
  }

  function SqlEvalAll(items: seq<Sql>, env: Env): (vs: seq<Value>)
    ensures |vs| == |items| && forall i | 0 <= i < |items| :: vs[i] == SqlEval(items[i], env)
    decreases items, 0
  {
    if items == [] then [] else [SqlEval(items[0], env)] + SqlEvalAll(items[1..], env)
  }

  /** The first clause whose condition is TRUE decides. */
  function CaseValue(whens: seq<Value>, otherwise: Value): Value {
    if |whens| < 2 then otherwise
    else Choose(whens[0], whens[1], CaseValue(whens[2..], otherwise))
  }

  /** A row passes a restriction when it is TRUE; without a restriction every row passes. */
  predicate Admits(restriction: Option<Sql>, env: Env) {
    restriction.Some? ==> SqlEval(restriction.value, env) == TRUE
  }
}
