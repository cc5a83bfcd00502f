# Verified model of the Polars–BigQuery client

This project models three parts of the client in Dafny and proves what they promise.

**The predicate pushdown compiler** (`py-polars-bigquery/polars_bigquery/core/compiler`). A Polars filter,
given as JSON, is parsed under a node budget, rewritten by five passes and emitted as a BigQuery row
restriction. Polars filters again what BigQuery returns, so the restriction may keep too many rows; it must
never lose a row that the filter keeps. The filter and the restriction are given a meaning on one row: Kleene's
three-valued connectives, conditionals that take the falsy branch on NULL, scalar functions shared by both
sides and NULL-strict, and unsupported nodes of any value. The loops of the source (breadth-first discovery,
reverse rebuild) are loops here, over objects with identities, because one rewriter marks nodes by identity and
a node that a sweep leaves unchanged stays one object in several places. They are proved equal to recursive
definitions, about which the theorems are stated, as far as the marks allow.

**The read pipeline** (`crates/arrow-bigquery`). A reader reconnects to a read stream at its row offset,
enqueues payloads for a decode worker, and a receiver takes record batches from a bounded channel. The reader
is a class whose `Step` is proved equal to a transition function; that function, the decode queue, the worker,
the cancellation flag, the channel and the receiver are interleaved step by step, against a server that may
drop connections, stay silent, corrupt payloads and misreport row counts. A query's response is routed to an
inline first page with a tail, to the whole stream, or to the destination table.

**The token cache** (`py-arrow-bigquery/src/auth.rs`). Callers, background refreshes, refresh tasks that own
the lock guard, their detached workers, timeouts and dropped callers are interleaved step by step.

## Main results

- `ParsedFilters.JsonExprToRowRestriction`: the restriction compiled from JSON admits every row the JSON predicate
  keeps, if on that row every conditional's predicate is TRUE or FALSE and the predicate has no NULL literal beneath
  `IsNull`, `IsNotNull`, `Coalesce`, `FillNull`, `When` or `DropNulls`. What the JSON keeps is defined on its records
  and children, without the parser (`JsonMeaning.FullParseValue`, `JsonMeaning.FullParseKeeps`). It holds for filters
  beyond the node budget as well: what does not fit becomes unsupported and only widens the restriction, and nothing
  is given up above the first level that does not fit (`Parser.JsonToIr`, `NodeBudget.ShallowConjunctSurvives`).
  `ParsedFilters.ParsedFilterIsExact`: where SQL can say all of it, no other row is admitted.
- The claim is false without these conditions. `SurvivingRows.AdmittedIff` says exactly which rows the restriction
  of a filter admits that SQL can say node by node, DropNulls included, and so which kept rows it loses;
  `LostRows.NullPredicateLosesRow` gives such rows for a conditional over three columns. `LostRows.NullCheckIff`,
  `LostRows.NullFillIff` and `LostRows.NullCoalesceIff` say the same for NULL literals beneath operators that tell NULL.
- `LostRows.SharedCheckIff`: a conditional beneath `drop_nulls` is one object in the filter and in its check, so its
  mark in the filter rewrites it beneath `IS NOT NULL` as well, where NULL and FALSE differ; exactly which rows are
  lost that way. `SharedChecks.BooleanRewriting` says what becomes of every check.
- `Pushdown.RestrictionAdmitsKeptRows` is the superset theorem under the weaker condition `Pushdown.SafeFilter`, which
  tracks where a conditional is used, which of its rewritings can matter, and the operands of the checks.
- `Emittable.ExactIff`, `Emittable.RestrictsIff`, `Emittable.EmittableIsExact`: which filters become SQL, and which of
  them exactly, by a condition on each node alone.
- `Relaxation.EmissionIsRelaxed`, `Relaxation.AdmitsIff`: for every filter, exactly which rows a restriction admits that
  says only part of it: no operand that can be pushed down is left out.
- `RewrittenForm.RewrittenIsNormal`: what an earlier pass reaches no later pass undoes.
- `QueryReads.OrderedQueryDelivers`: whatever the interleaving, an ordered query delivers a prefix of its result
  before any error, and the whole result if it ends without one and is not given up.
- `QueryReads.UnorderedQueryDelivers`, `TableDelivery.UnorderedReadDelivers`: without order, over any number of streams
  and decode jobs at once, a clean end means that every row was delivered exactly once.
- `ExactlyOnce.ReadsExactlyOnce`, `ProperRuns.ProperRunReadsAll`, `StreamRuns.RunsTerminate`: in every run the reader has
  enqueued the rows up to its offset and nothing else; it gets to the end, or gives way at its first page, if nothing
  goes wrong that it is made to survive; and it cannot go on for ever without messages. `ProperRuns.ProperMessage` and
  `ProperRuns.RefusedIff` say what becomes of every message.
- `Decoding.DecodeResultIff`: exactly which payloads decode, to what, and which error the others give.
- `ReadProgress.EnqueuedIsReceived`, `TableProgress.UnorderedReadGetsOn`: from every state of a read that nobody has
  cancelled, what has been enqueued and decodes reaches the receiver by steps of jobs, queue and receiver alone, of which
  there are only so many; an ordered read may stall instead, as follows.
- `Receiver.StalledIff`, `Receiver.SingleBatchesNeverStall`, `StalledRead.MultiBatchReadStalls`: an ordered read can
  stall in one way only, when a payload decodes to several batches and later payloads hold all slots of the
  channel. If every payload that decodes has one batch at most, which is what the decoder allocates for, it never
  stalls; if some payload has more, it can, whatever the capacity.
- `Cutover.CutoverReadDelivers`: one run through the switch to a read session, or its failure, loses and duplicates
  nothing.
- `TokenSafety.GenerationsNeverGoBack`, `TokenSafety.CommitReplacesWhatWasStale`: late workers never overwrite newer
  tokens, and a refresh replaces the very token that was found stale under the lock.
- `ExpiringToken.FirstLookServesMinuteIff`: the first look at the cache uses the time at which the call began; it is sure
  to serve tokens with a minute left if and only if no time at all passes in between. `TokenSafety.LockComesFree`:
  the refresh lock always comes free by steps of its holder and the writer.

- `TokenSteps.BackgroundIff`, `TokenSteps.SoftRefreshIff`, `TokenRenewal.SoftExpiredIsRenewed`: when a background refresh
  starts, by clock, expiry and the next attempt that is due; and from every idle state with a soft-expired token a run in
  which a call is served at once and what it started renews the token.

## Files

| files | part |
|---|---|
| Values, Ir, Lists | values, the filter IR and its meaning, lists of indices |
| NodeRewriters, TreeRewriter | the node rewriters and the recursion that applies them |
| Objects, RewriteLoops | nodes as objects, the rewriters on them and the two loops |
| ExactPasses, NormalForms, Conditionals, LiteralFolding, NullOperands | what each pass keeps and reaches |
| Positions, Marks, Unwrapping, DropNullsPass, SharedChecks | identities: the marks on nodes, and the checks that share operands with the filter |
| RowSafety | the conditions on a filter and a row |
| Sql, SqlStrings, ColumnNames, Emit, CompileSql | SQL terms, literals, identifiers, emission |
| Pushdown, RewrittenForm, SourceConditions, Emittable, Relaxation, SurvivingRows, LostRows | the compiler as a whole |
| Records, NodeBudget, Parser, JsonMeaning, ParsedFilters | parsing under the node budget, and what JSON means |
| JsonPaths, ParserRegistry | JSON paths, the registry and the dispatch trie |
| Decoding, ReadStream, StreamRuns, ExactlyOnce, ProperRuns | payloads, the reader and its runs |
| DecodeQueue, Delivery, OrderedDelivery, ReaderEffects, ReadPipeline, Receiver, ReadProgress, StalledRead | the ordered pipeline |
| TableRead, TableDelivery, TableProgress | unordered reads of several streams |
| Cutover, Routing, QueryReads | where a query's rows come from |
| TokenCache, TokenRefresh, TokenSafety, TokenSteps, TokenRenewal, ExpiringToken | the token cache |
| TableId | table ids |

## Model

| member | source | states |
|---|---|---|
| NodeRewriters.HasDescendantUnsupported | py-polars-bigquery/polars_bigquery/core/compiler/ir/base.py:16-24 | the queue loop finds an unsupported node if and only if there is one anywhere in the tree |
| NodeRewriters.CheckBooleanTernary | py-polars-bigquery/polars_bigquery/core/compiler/rewriter/boolean.py:25-38 | the stack loop accepts a conditional exactly when, down its branches, no predicate is a NULL literal and some leaf is not one |
| Objects.CollapseChain | py-polars-bigquery/polars_bigquery/core/compiler/rewriter/boolean.py:103-121 | walking down the falsy branches collects the operands of one `When`: its predicates and results, in order |
| Objects.RewriteNode | py-polars-bigquery/polars_bigquery/core/compiler/rewriter/boolean.py:41-162 | one call of a node rewriter on an object: the object it returns, the identities it adds to `boolean_nodes` and the operand it adds to `not_null_exprs` |
| Objects.ExprStepLosesWeight | py-polars-bigquery/polars_bigquery/core/compiler/rewriter/boolean.py:41-162 | every rewrite that changes a node makes it lighter, for each of the six node rewriters, marked or not |
| NodeRewriters.ChildrenWeighLess | py-polars-bigquery/polars_bigquery/core/compiler/rewriter/base.py:92-140 | a node outweighs its children, so the discovery terminates |
| Objects.ApplyNodeRewriter | py-polars-bigquery/polars_bigquery/core/compiler/rewriter/base.py:92-98 | rewriting a node until nothing changes ends, at the fixed point of the recursive definition, with the marks and operands gathered on the way |
| RewriteLoops.DiscoverTopDown | py-polars-bigquery/polars_bigquery/core/compiler/rewriter/base.py:101-126 | the queue-driven loop over the lists computes the first pass entry by entry, marks and dropped operands included |
| RewriteLoops.DiscoversAll | py-polars-bigquery/polars_bigquery/core/compiler/rewriter/base.py:101-126 | after it every listed object is at its fixed point under the marks of its own visit, and its children are listed behind it, in order |
| RewriteLoops.RebuildBottomUp | py-polars-bigquery/polars_bigquery/core/compiler/rewriter/base.py:127-140 | the reverse loop computes the second pass and collects nothing more |
| RewriteLoops.RebuildsAll | py-polars-bigquery/polars_bigquery/core/compiler/rewriter/base.py:127-140 | after it every entry is its fixed object rebuilt over its rebuilt children, the same object if they are, and brought to a fixed point again under the marks of that moment |
| RewriteLoops.RewriteTree | py-polars-bigquery/polars_bigquery/core/compiler/rewriter/base.py:101-140 | the two loops together, on objects with their identities |
| RewriteLoops.SweptIsRewritten | py-polars-bigquery/polars_bigquery/core/compiler/rewriter/base.py:101-140 | for the rewriters that look at no marks the two loops compute the recursion (fix, rewrite children, rebuild, fix again) and collect what it collects |
| RewriteLoops.VisitsAtMostWeight | py-polars-bigquery/polars_bigquery/core/compiler/rewriter/base.py:101-126 | no sweep, with marks or without, visits more nodes than the root weighs |
| TreeRewriter.BreadthFirstCollectsTheSame | py-polars-bigquery/polars_bigquery/core/compiler/rewriter/base.py:111-126 | breadth-first order collects the same operands as the recursive traversal, each as often |
| ExactPasses.StepKeepsValue | py-polars-bigquery/polars_bigquery/core/compiler/rewriter/boolean.py:103-162 | the rewriters for DropNulls, `When` and De Morgan keep a node's value on every row |
| ExactPasses.SweepKeepsValue | py-polars-bigquery/polars_bigquery/core/compiler/rewriter/boolean.py:124-147 | sweeping any tree with them keeps its Kleene value on every row and valuation of unsupported nodes |
| NormalForms.SweepIsStable | py-polars-bigquery/polars_bigquery/core/compiler/rewriter/base.py:101-140 | one sweep of a pass without marks reaches its normal form everywhere: no foldable literal operand, no `Not(Or)`, no conditional in a falsy branch, no DropNulls |
| NormalForms.StableIsLeftAlone | py-polars-bigquery/polars_bigquery/core/compiler/rewriter/base.py:101-140 | a tree in that normal form is left alone, so sweeping twice is sweeping once |
| Conditionals.WhenToBoolLeavesNone | py-polars-bigquery/polars_bigquery/core/compiler/rewriter/boolean.py:41-74 | for the pass with marks: no conditional used as a boolean is left that a second sweep would rewrite |
| Conditionals.NoneLeftIsLeftAlone | py-polars-bigquery/polars_bigquery/core/compiler/rewriter/boolean.py:41-74 | and where none is left a sweep changes nothing |
| Marks.EntryMarked | py-polars-bigquery/polars_bigquery/core/compiler/rewriter/boolean.py:41-74 | by the end of the first pass `boolean_nodes` holds every node the filter uses as a boolean |
| Marks.BooleanWhenSwept | py-polars-bigquery/polars_bigquery/core/compiler/rewriter/boolean.py:41-74 | the filter is rewritten by the use of its nodes alone, while what becomes of a check's operand depends on the objects it shares with the filter |
| Unwrapping.SweptDerives | py-polars-bigquery/polars_bigquery/core/compiler/rewriter/base.py:21-88 | what a sweep of DropNulls returns: the very same object wherever nothing beneath has changed, else a new one over the swept children |
| SharedChecks.BooleanRewriting | py-polars-bigquery/polars_bigquery/core/compiler/rewriter/boolean.py:41-181 | after the first two passes: the filter over connectives, and for each dropped operand a check that is rewritten with the filter's conditionals when it shares them |
| Conditionals.SameValueIff | py-polars-bigquery/polars_bigquery/core/compiler/rewriter/boolean.py:58-61 | `(p & t) | (~p & f)` has the conditional's value if and only if p is not NULL or both branches make no difference |
| Conditionals.RowKeptIff | py-polars-bigquery/polars_bigquery/core/compiler/rewriter/boolean.py:58-61 | it is TRUE wherever the conditional is if and only if p is not NULL or the falsy branch is not TRUE |
| LiteralFolding.FoldSweepRefines | py-polars-bigquery/polars_bigquery/core/compiler/rewriter/boolean.py:77-100 | folding literals replaces values by equal ones or NULLs by something, at every nesting of `Not`, so TRUE stays TRUE |
| LiteralFolding.FoldSweepExact | py-polars-bigquery/polars_bigquery/core/compiler/rewriter/boolean.py:77-100 | without NULL literals under connectives folding keeps every value |
| NullOperands.AndNullFolds | py-polars-bigquery/polars_bigquery/core/compiler/rewriter/boolean.py:77-85 | a conjunction with a NULL literal on either side becomes FALSE |
| NullOperands.OrNullFolds | py-polars-bigquery/polars_bigquery/core/compiler/rewriter/boolean.py:87-93 | a disjunction with a NULL literal on either side becomes the other operand, unless that is a literal FALSE on the left |
| NullOperands.ConnectiveFoldsIff | py-polars-bigquery/polars_bigquery/core/compiler/rewriter/boolean.py:77-100 | a folded conjunction is TRUE exactly where both folded operands are, a folded disjunction where one is, whatever literals they are or become |
| DropNullsPass.RewriteDropNulls | py-polars-bigquery/polars_bigquery/core/compiler/rewriter/boolean.py:165-181 | the loop conjoins one `IsNotNull` of each collected operand, stripped by a sweep of its own, onto the unwrapped tree, object for object |
| DropNullsPass.DropNullsKeepsRows | py-polars-bigquery/polars_bigquery/core/compiler/rewriter/boolean.py:155-181 | the result is TRUE on every row the filter keeps and, when nothing is unsupported, on no other |
| DropNullsPass.DropNullsGone | py-polars-bigquery/polars_bigquery/core/compiler/rewriter/boolean.py:155-181 | no DropNulls is left anywhere, neither in the tree nor in the checks |
| RowSafety.ConditionalsKeepRow | py-polars-bigquery/polars_bigquery/core/compiler/rewriter/boolean.py:41-74 | where only TRUE matters, rewriting conditionals keeps TRUE under `Safe` |
| RowSafety.ConditionalsKeepValue | py-polars-bigquery/polars_bigquery/core/compiler/rewriter/boolean.py:41-74 | elsewhere it keeps the value under `Safe` |
| RowSafety.SafeToFoldAfter | py-polars-bigquery/polars_bigquery/core/compiler/rewriter/boolean.py:41-100 | the rewritten tree meets the condition of literal folding |
| RowSafety.BecomesKeepsValue | py-polars-bigquery/polars_bigquery/core/compiler/rewriter/boolean.py:41-74 | a check's operand keeps its value under `Safe` however much of it is rewritten |
| SqlStrings.ChainIsCharacterwise | py-polars-bigquery/polars_bigquery/core/compiler/sql/string.py:17-30 | the chained replacements equal one map over the characters: none touches the output of another |
| SqlStrings.StringLiteralRoundTrip | py-polars-bigquery/polars_bigquery/core/compiler/sql/string.py:17-36 | reading the quoted literal by GoogleSQL's escape rules gives the text back and consumes exactly the literal |
| SqlStrings.IdentifierReadsBackIff | py-polars-bigquery/polars_bigquery/core/compiler/sql/base.py:72-95 | a name in backticks reads back to itself and is consumed whole if and only if it is not empty and has no backtick, backslash or line break |
| ColumnNames.ColumnToSqlIdentifier | py-polars-bigquery/polars_bigquery/core/compiler/sql/base.py:72-95 | the loop quotes exactly the names whose characters are all allowed |
| ColumnNames.ColumnNameRoundTrip | py-polars-bigquery/polars_bigquery/core/compiler/sql/base.py:15-95 | every name that is accepted can be quoted: the identifier denotes it |
| Emit.InIsMembership | py-polars-bigquery/polars_bigquery/core/compiler/sql/list_.py:23-57 | the SQL list test of a non-NULL value is membership of the list, NULL items never matching |
| Emit.LiteralKeepsValue | py-polars-bigquery/polars_bigquery/core/compiler/sql/base.py:99-109 | a literal's SQL has the literal's value |
| Emit.EmissionSound | py-polars-bigquery/polars_bigquery/core/compiler/sql/base.py:118-159 | for every node kind an exact emission has the node's value on every row, a relaxed one is TRUE wherever the node is |
| Emit.OnlyConnectivesRelax | py-polars-bigquery/polars_bigquery/core/compiler/sql/boolean.py:58-161 | only `And` and `Or` ever emit relaxed SQL; conditionals, `When`, `IsIn` and every other operator emit exact SQL or none |
| Relaxation.EmissionIsRelaxed | py-polars-bigquery/polars_bigquery/core/compiler/sql/boolean.py:57-85 | relaxed SQL says all that can be said: its value is that of the conjunction of the operands that can be pushed down, and of the disjunction of both |
| CompileSql.ListNodes | py-polars-bigquery/polars_bigquery/core/compiler/sql/__init__.py:34-50 | the discovery lists all nodes, each behind its parent |
| CompileSql.EmitBottomUp | py-polars-bigquery/polars_bigquery/core/compiler/sql/__init__.py:51-65 | the reverse pass emits each listed node from its children's results and fails exactly on an invalid column name |
| CompileSql.CompileIrToSql | py-polars-bigquery/polars_bigquery/core/compiler/sql/__init__.py:34-65 | the two loops compute the recursive emission |
| CompileSql.IrToSql | py-polars-bigquery/polars_bigquery/core/compiler/sql/__init__.py:68-91 | the restriction is the SQL of that emission, relaxed or not, whose value `Relaxation.EmissionIsRelaxed` gives |
| Emittable.ExactIff | py-polars-bigquery/polars_bigquery/core/compiler/sql/base.py:118-140 | a filter is emitted exactly if and only if each node, looked at by itself, is emittable |
| Emittable.PushesIff | py-polars-bigquery/polars_bigquery/core/compiler/sql/boolean.py:57-85 | there is SQL if and only if something can be pushed down: of a conjunction either side, of a disjunction both, of the rest all |
| Pushdown.RewriteIr | py-polars-bigquery/polars_bigquery/core/compiler/rewriter/__init__.py:26-38 | the loop applies the five passes in their order |
| RewrittenForm.RewrittenIsNormal | py-polars-bigquery/polars_bigquery/core/compiler/rewriter/__init__.py:16-35 | no later pass undoes what an earlier one reached: the result has no DropNulls, no foldable literal operand, no conditional in the falsy branch of another and no negated disjunction |
| Pushdown.PredicateToRowRestriction | py-polars-bigquery/polars_bigquery/core/compiler/__init__.py:26-36 | rewriting and then emitting gives the restriction the theorems are about |
| Pushdown.RestrictionAdmitsKeptRows | py-polars-bigquery/polars_bigquery/core/compiler/rewriter/__init__.py:16-38 | for every filter, row and valuation of unsupported nodes under `SafeFilter`, which looks at the checks of dropped operands as well, a kept row makes the restriction TRUE |
| Pushdown.ExactRestriction | py-polars-bigquery/polars_bigquery/core/compiler/sql/base.py:117-138 | with nothing unsupported and nothing relaxed, the restriction admits exactly the kept rows |
| Emittable.RestrictsIff | py-polars-bigquery/polars_bigquery/core/compiler/sql/__init__.py:68-74 | the compiler emits a restriction if and only if column names allow it and something of the rewritten filter can be pushed down |
| Relaxation.AdmitsIff | py-polars-bigquery/polars_bigquery/core/compiler/sql/__init__.py:68-91 | the rows that the restriction of any filter admits: those on which what can be pushed down is TRUE, and all of them if nothing can |
| Emittable.EmittableIsExact | py-polars-bigquery/polars_bigquery/core/compiler/sql/base.py:117-138 | a filter whose rewriting is emittable node by node is restricted to exactly the rows it keeps |
| SurvivingRows.AdmittedIff | py-polars-bigquery/polars_bigquery/core/compiler/rewriter/boolean.py:41-181 | a filter that SQL can say node by node: the restriction admits exactly the rows on which the conditionals that decide have a known predicate and no dropped operand is NULL, so a kept row is lost if and only if it does not survive |
| SurvivingRows.ConditionalFilterIff | py-polars-bigquery/polars_bigquery/core/compiler/rewriter/boolean.py:58-61 | a whole conditional as the filter: no row is lost if and only if the predicate is not NULL or the falsy branch not TRUE |
| SourceConditions.PlainFilterLosesNoRow | py-polars-bigquery/polars_bigquery/core/compiler/rewriter/__init__.py:16-38 | the superset theorem under conditions read off the filter and the row before any rewriting |
| SourceConditions.UnconditionalFilterLosesNoRow | py-polars-bigquery/polars_bigquery/core/compiler/rewriter/__init__.py:16-38 | a filter without conditionals and NULL literals loses no row at all |
| LostRows.NullPredicateLosesRow | py-polars-bigquery/polars_bigquery/core/compiler/rewriter/boolean.py:58-61 | a conditional over columns loses every row with a NULL predicate and a TRUE falsy branch |
| LostRows.SharedCheckIff | py-polars-bigquery/polars_bigquery/core/compiler/rewriter/boolean.py:48-62 | `when(p).then(t).otherwise(f).drop_nulls() | y` loses exactly the kept rows with p NULL, f not NULL and t and f not both FALSE: the check is rewritten because it is the filter's own object |
| LostRows.SharedCheckLosesRow | py-polars-bigquery/polars_bigquery/core/compiler/rewriter/boolean.py:48-62 | over four columns, with p NULL, t TRUE, f FALSE and y TRUE, the row is kept by the filter and lost |
| LostRows.NullCheckIff | py-polars-bigquery/polars_bigquery/core/compiler/rewriter/boolean.py:80-81 | `(x & NULL).is_null()` compiles to a restriction that admits nothing, which is right exactly where x is FALSE |
| LostRows.NullFillIff | py-polars-bigquery/polars_bigquery/core/compiler/rewriter/boolean.py:80-81 | `(x & NULL).fill_null(y)` loses a row exactly where x is not FALSE and y is TRUE |
| LostRows.NullCoalesceIff | py-polars-bigquery/polars_bigquery/core/compiler/rewriter/boolean.py:80-81 | `coalesce(x & NULL, ...)` loses a row exactly where x is not FALSE and the first operand after it that is not NULL is TRUE |
| Records.ConstructAllHorizontal | py-polars-bigquery/polars_bigquery/core/compiler/parser/boolean.py:35-43 | the fold builds the left-associative chain of `And` |
| Records.ConstructListLiteral | py-polars-bigquery/polars_bigquery/core/compiler/parser/list_.py:62-73 | the loop builds a list literal exactly when all children are literals compatible with the first and not too many |
| Records.BuiltDegrades | py-polars-bigquery/polars_bigquery/core/compiler/parser/__init__.py:96-134 | building from degraded children degrades what the full children would build, for every kind of record |
| JsonMeaning.FullParseValue | py-polars-bigquery/polars_bigquery/core/compiler/parser/__init__.py:96-134 | what is parsed has the value of the JSON: each record's operator over the values of the child nodes in their places, a conjunction of them all, the fill value where the child is NULL, a list where the elements have one type |
| JsonMeaning.FullParseKeeps | py-polars-bigquery/polars_bigquery/core/compiler/parser/__init__.py:96-134 | what is parsed keeps exactly the rows the JSON keeps: those on which its value is TRUE and no operand of a DropNulls is NULL |
| JsonMeaning.FullParsePlain | py-polars-bigquery/polars_bigquery/core/compiler/parser/__init__.py:96-134 | what is parsed meets the conditions of the superset theorem on exactly the rows on which the JSON does |
| JsonMeaning.HomogeneousIff | py-polars-bigquery/polars_bigquery/core/compiler/parser/list_.py:49-73 | literals may stand in one list exactly when they all have the same SQL type, which NULL, NaN and lists have not |
| Parser.DiscoverNodes | py-polars-bigquery/polars_bigquery/core/compiler/parser/__init__.py:54-94 | the first pass never exceeds the budget, gives something up if and only if the whole tree does not fit, and gives up nothing above the first level that does not |
| Parser.ConstructBottomUp | py-polars-bigquery/polars_bigquery/core/compiler/parser/__init__.py:96-134 | the second pass builds for every recorded node the full parse with some subtrees given up, made of what the records build for as many levels as were kept |
| Parser.JsonToIr | py-polars-bigquery/polars_bigquery/core/compiler/parser/__init__.py:37-134 | the tree is the unbounded parse with some subtrees unsupported: none of the supported ones if the filter fits the budget, and none at a depth down to whose children it does |
| NodeBudget.KeptWhole | py-polars-bigquery/polars_bigquery/core/compiler/parser/__init__.py:75-84 | a subtree that lies within the kept levels is parsed as if there were no budget |
| NodeBudget.ShallowConjunctSurvives | py-polars-bigquery/polars_bigquery/core/compiler/parser/__init__.py:80-83 | a shallow conjunct survives, however large the other one is |
| ParsedFilters.DegradedValue | py-polars-bigquery/polars_bigquery/core/compiler/parser/__init__.py:66-78 | giving subtrees up keeps the value, for some value of the unsupported nodes |
| ParsedFilters.ParsedFilterLosesNoRow | py-polars-bigquery/polars_bigquery/core/compiler/parser/__init__.py:66-78 | what is compiled from any degraded parse admits every row the JSON predicate keeps, read off its records and children |
| ParsedFilters.JsonExprToRowRestriction | py-polars-bigquery/polars_bigquery/core/compiler/__init__.py:26-36 | no row that the JSON predicate keeps, by its own meaning, is lost under the two side conditions on the JSON, within the budget or beyond it; a supported predicate within it is compiled whole |
| ParsedFilters.ParsedFilterIsExact | py-polars-bigquery/polars_bigquery/core/compiler/__init__.py:26-36 | where SQL can say all of a supported predicate within the budget, the restriction admits exactly the rows the JSON predicate keeps |
| JsonPaths.PathsDiffer | py-polars-bigquery/polars_bigquery/core/compiler/parser/base.py:87-130 | paths are equal if and only if their steps are |
| JsonPaths.ParseJsonPath | py-polars-bigquery/polars_bigquery/core/compiler/parser/base.py:87-130 | the loop finds the steps of a path, and fails only on text that is no path at all |
| ParserRegistry.ConflictIff | py-polars-bigquery/polars_bigquery/core/compiler/parser/base.py:153-171 | the trie reports a conflict exactly when the steps lead to another parser's route |
| ParserRegistry.RouteAfter | py-polars-bigquery/polars_bigquery/core/compiler/parser/base.py:153-171 | inserting a route changes the trie at its steps and nowhere else |
| ParserRegistry.InsertAgrees | py-polars-bigquery/polars_bigquery/core/compiler/parser/base.py:174-206 | a path that passes the duplicate check never conflicts in the trie, and map and trie agree on every path afterwards |
| ParserRegistry.Registry.Register | py-polars-bigquery/polars_bigquery/core/compiler/parser/base.py:174-206 | all paths are registered, in the map and the trie alike, or none if one is invalid or taken; the trie's conflict error never arises |
| Decoding.DecodeArrowRecordBatches | crates/arrow-bigquery/src/decode.rs:35-66 | the loop accepts a payload exactly when it is intact and holds the reported number of rows, and says which error otherwise |
| Decoding.DecodeResultIff | crates/arrow-bigquery/src/decode.rs:43-65 | a payload decodes if and only if no corrupt item comes before the reader would wait and its rows are as many as reported; a corrupt item is Arrow's error, a wrong or uncountable number of rows the protocol's |
| Decoding.ReadableAre | crates/arrow-bigquery/src/decode.rs:43-53 | what is decoded are the batches before the first other item, in order |
| Decoding.DecodesIff | crates/arrow-bigquery/src/decode.rs:35-66 | the same for a decode job |
| Decoding.ValidatedBytes | crates/arrow-bigquery/src/decode.rs:20-31 | without a payload the server must report no rows |
| Decoding.DecodedExactly | crates/arrow-bigquery/src/decode.rs:58-65 | a job that decodes yields all rows of its payload, as many as reported |
| ReadStreams.ReadStream.SendFatalError | crates/arrow-bigquery/src/bigquery_read_stream.rs:271-278 | cancellation first, then the error to the schema channel or else to the batches |
| ReadStreams.ReadStream.HandleError | crates/arrow-bigquery/src/bigquery_read_stream.rs:280-342 | an error backs off with the counted attempts, or is fatal when permanent, exhausted, throttled out or out of time |
| ReadStreams.ReadStream.EnqueueDecodeBatch | crates/arrow-bigquery/src/bigquery_read_stream.rs:159-191 | a job is enqueued exactly when a slot is granted |
| ReadStreams.ReadStream.ReadRows | crates/arrow-bigquery/src/bigquery_read_stream.rs:462-545 | what a message's rows do to offset, first-page check, queue and state |
| ReadStreams.ReadStream.ReceiveMessage | crates/arrow-bigquery/src/bigquery_read_stream.rs:416-545 | heartbeats, the first schema and its errors, then the rows |
| ReadStreams.ReadStream.Step | crates/arrow-bigquery/src/bigquery_read_stream.rs:345-562 | one step of the reader is the transition `Next` for every state and event |
| ReadStreams.ReadStream.Run | crates/arrow-bigquery/src/bigquery_read_stream.rs:564-571 | the loop follows the transitions until the reader terminates and returns why |
| StreamRuns.RunsAreOrderly | crates/arrow-bigquery/src/bigquery_read_stream.rs:271-562 | over every run: at most one message to the schema channel, at most one error, right after cancellation and last, and nothing enqueued before switching |
| StreamRuns.RetryBound | crates/arrow-bigquery/src/bigquery_read_stream.rs:280-342 | at every point of every run at most `maximum_attempts` connection attempts follow the last message |
| StreamRuns.RunsTerminate | crates/arrow-bigquery/src/bigquery_read_retry.rs:109-111 | a run takes at most `3 * limit + 3` steps for each message and as many before the first, so finitely many messages end it |
| StreamRuns.SwitchesIff | crates/arrow-bigquery/src/bigquery_read_stream.rs:69-82 | the reader gives way exactly when rows remain and, at the first page's bytes per row, make up the threshold, or when there is no positive threshold |
| ProperRuns.ProperMessage | crates/arrow-bigquery/src/bigquery_read_stream.rs:417-541 | a proper message with a payload makes the reader give way exactly when its check says so, and is enqueued whole otherwise; without one it changes nothing but the schema and the retry count, and the check stays |
| ProperRuns.RefusedIff | crates/arrow-bigquery/src/bigquery_read_stream.rs:417-541 | exactly the messages that are neither heartbeats nor countable Arrow rows after a schema end the read, by cancellation and then an error, which is Arrow's where the schema does not parse and the protocol's otherwise |
| ProperRuns.ProperRunReadsAll | crates/arrow-bigquery/src/bigquery_read_stream.rs:345-562 | through heartbeats, disconnections and retries a reader, with a first-page check or without, reports no error and, when it terminates, has enqueued the whole stream or given way with nothing enqueued |
| ExactlyOnce.MessageInStep | crates/arrow-bigquery/src/bigquery_read_stream.rs:409-545 | a message extends what is enqueued by the next piece of the stream or changes nothing, whatever row count it reports |
| ExactlyOnce.EveryRunInStep | crates/arrow-bigquery/src/bigquery_read_stream.rs:345-562 | over every run what is enqueued decodes to the rows from the start to the offset, and to all of them at the end |
| ExactlyOnce.ReadsExactlyOnce | crates/arrow-bigquery/src/bigquery_read_stream.rs:345-562 | a new reader: exactly-once, orderly, and empty-handed if it gives way to a read session |
| DecodeQueues.OrderedDecodeQueue.Push | crates/arrow-bigquery/src/decode.rs:148-166 | the job is queued and the drainer role claimed if nobody has it |
| DecodeQueues.OrderedDecodeQueue.NextJob | crates/arrow-bigquery/src/decode.rs:168-181 | the first job is taken, or the drainer role given up |
| DecodeQueues.OrderedDecodeQueue.Drain | crates/arrow-bigquery/src/decode.rs:168-182 | undisturbed, the loop runs every queued job once and in order and leaves the queue idle |
| Delivery.NextOneDrainer | crates/arrow-bigquery/src/decode.rs:148-182 | under every interleaving exactly one drainer is pending, scheduled or active while `running`, none otherwise, and a non-empty queue has one |
| Delivery.NextInOrder | crates/arrow-bigquery/src/decode.rs:148-182 | jobs start one at a time, once each, in the order they were pushed |
| OrderedDelivery.DrainerDelivers | crates/arrow-bigquery/src/decode.rs:77-125 | each step of a decode job keeps what was sent a prefix of the enqueued rows, complete unless cancelled |
| ReaderEffects.WhyItStops | crates/arrow-bigquery/src/bigquery_read_stream.rs:345-562 | the reader stops only on an error it reports, the end, cancellation, the cutover, or a batch without a slot |
| ReadPipeline.NextAccounted | crates/arrow-bigquery/src/bigquery_read_stream.rs:271-278 | the pipeline is cancelled if and only if an error is on its way or delivered, or the receiver gave up |
| ReadPipeline.NextFits | crates/arrow-bigquery/src/bigquery_read_stream.rs:168-188 | batches, queued jobs and the running job's reservation never exceed the channel's slots |
| ReadPipeline.StepKeepsInvariant | crates/arrow-bigquery/src/decode.rs:77-182 | every step of reader, drainer and receiver keeps the pipeline's invariant |
| ReadPipeline.QueryReadStarts | crates/arrow-bigquery/src/bigquery_read_stream.rs:584-629 | the first page and the reader that tails it start in step, whatever row count the page reports |
| Receiver.ReceivesPrefix | crates/arrow-bigquery/src/lib.rs:197-214 | what is received before any error is a prefix of the rows |
| Receiver.EndMeansAllRows | crates/arrow-bigquery/src/lib.rs:197-214 | an end without error or abort means every row arrived |
| Receiver.StreamReadDelivers | crates/arrow-bigquery/src/bigquery_read_stream.rs:575-579 | both, over every run of an ordered stream read |
| Receiver.QueryReadDelivers | crates/arrow-bigquery/src/bigquery_read_stream.rs:584-629 | both, over every run of a first page and its tail |
| Receiver.StalledIff | crates/arrow-bigquery/src/decode.rs:105-118 | the ordered read cannot move if and only if a job waits to send a later batch while queued jobs hold every slot |
| ReadProgress.InternalRunsEnd | crates/arrow-bigquery/src/decode.rs:76-121 | drainer, queue and receiver never go round in circles: every step they take by themselves lowers the work that is left |
| ReadProgress.EnqueuedIsReceived | crates/arrow-bigquery/src/decode.rs:76-121 | from every state of a read nobody has cancelled, if the payloads enqueued so far decode, such steps bring all their rows to the receiver, unless the read stalls that way |
| ReadProgress.SingleBatchesAreReceived | crates/arrow-bigquery/src/decode.rs:76-121 | with single-batch payloads they always do |
| Receiver.SingleBatchesNeverStall | crates/arrow-bigquery/src/decode.rs:105-118 | if no payload that decodes has more than one batch, no run ever stalls |
| StalledRead.MultiBatchReadStalls | crates/arrow-bigquery/src/decode.rs:105-118 | if some payload decodes to two batches or more, there is for every capacity of the channel a run that stalls |
| Routing.ReadJobStreamOrTable | crates/arrow-bigquery/src/query.rs:293-332 | the stream is read from its start, with the first-page check exactly when the destination table may be read |
| Routing.Read | crates/arrow-bigquery/src/query.rs:369-486 | which route each response takes, and exactly which responses cannot be read, with which error |
| Routing.EveryRowOnce | crates/arrow-bigquery/src/query.rs:369-486 | an inline page and the tail after it are the result, in order; a read without a source has an empty result; ordered and SCRIPT reads never use several streams |
| Routing.WellFormedIsRead | crates/arrow-bigquery/src/query.rs:369-486 | no well-formed response is refused, and one that is complete and carries its whole result needs no job |
| Cutover.CutoverKeeps | crates/arrow-bigquery/src/lib.rs:590-624 | every step before, at and after the cutover keeps the invariant: until then nothing was enqueued or sent but errors, and failing to open the session cancels and sends its error |
| Cutover.GivingWayOpens | crates/arrow-bigquery/src/lib.rs:529-551 | a reader that has given way in a read nobody has cancelled lets the session be opened, with nothing delivered before and every stream read from its first row |
| Cutover.CutoverReadDelivers | crates/arrow-bigquery/src/lib.rs:529-551 | one run from the job's first message through the cutover to the end of the session, over one channel: at a clean end every row was delivered once |
| QueryReads.NoSchemaNoRows | crates/arrow-bigquery/src/query.rs:498-547 | a job stream that ends without a schema had no rows, so the empty receiver is the whole result |
| QueryReads.OrderedQueryDelivers | crates/arrow-bigquery/src/query.rs:369-486 | from the response to the receiver: a prefix of the result before any error, all of it at a clean end |
| TableDelivery.StreamKeeps | crates/arrow-bigquery/src/bigquery_read_stream.rs:345-562 | a step of any of several readers keeps the balance of rows sent, owed and enqueued |
| TableDelivery.TaskKeeps | crates/arrow-bigquery/src/decode.rs:77-125 | so does a step of any of several decode jobs that run at the same time |
| TableDelivery.UnorderedReadDelivers | crates/arrow-bigquery/src/lib.rs:476-502 | over every run of an unordered read, a clean end means that every row of every stream was delivered exactly once |
| TableProgress.EnqueuedIsReceived | crates/arrow-bigquery/src/decode.rs:76-121 | from every state of an unordered read nobody has cancelled, if the payloads enqueued so far decode, the steps of jobs and receiver bring all their rows to the receiver, each once |
| TableProgress.UnorderedReadGetsOn | crates/arrow-bigquery/src/decode.rs:76-121 | the same after any run from any start |
| QueryReads.UnorderedQueryDelivers | crates/arrow-bigquery/src/query.rs:369-486 | from the response to the receiver without order: at a clean end every row of the result was delivered once |
| QueryReads.CutoverQueryDelivers | crates/arrow-bigquery/src/query.rs:293-332 | the same for a job stream whose first page may turn the read over to a session |
| TokenCaches.ServedIff | py-arrow-bigquery/src/auth.rs:76-98 | a token judged when it is taken is served if and only if it is valid for more than a minute, fresh if for more than two |
| TokenCaches.CooldownBacksOff | py-arrow-bigquery/src/auth.rs:141-149 | the cooldown never shrinks as failures add up and stays between its base and half a minute |
| TokenCaches.CooldownDoubles | py-arrow-bigquery/src/auth.rs:141-149 | it starts at its base and doubles with every failure up to the fifth, within its maximum |
| TokenCaches.CacheState.RecordSoftRefreshFailure | py-arrow-bigquery/src/auth.rs:141-149 | the failure count, the next attempt and the cooldown after a failed background refresh |
| TokenCaches.CacheState.Commit | py-arrow-bigquery/src/auth.rs:312-316 | a committed token resets the failures and the cooldown |
| TokenSafety.NextKeeps | py-arrow-bigquery/src/auth.rs:282-463 | every step of every caller, worker, timeout and background task keeps the cache's invariant |
| TokenSafety.GenerationsNeverGoBack | py-arrow-bigquery/src/auth.rs:282-338 | committed generations strictly increase over every interleaving, and at most one refresh that has not timed out is under way |
| TokenSafety.CommitReplacesWhatWasStale | py-arrow-bigquery/src/auth.rs:425-463 | a commit replaces exactly the token its refresh was started over, which was stale when looked at under the lock |
| TokenSafety.LateWorkerCommitsNothing | py-arrow-bigquery/src/auth.rs:296-316 | once a worker has lost the right to commit it never regains it |
| TokenSafety.HoldersCanMove | py-arrow-bigquery/src/auth.rs:282-338 | whoever holds the refresh lock or the write lock has a step to take |
| TokenSafety.HoldOnlyShortens | py-arrow-bigquery/src/auth.rs:282-338 | no step of anybody prolongs a hold of the refresh lock |
| TokenSafety.LockComesFree | py-arrow-bigquery/src/auth.rs:282-338 | from every state the lock comes free within eleven steps of its holder and the writer alone |
| TokenSafety.SecondLookServesValid | py-arrow-bigquery/src/auth.rs:448-460 | the second look under the lock serves tokens with more than a minute left |
| TokenSteps.FirstLookIff | py-arrow-bigquery/src/auth.rs:404-423 | by the time left at the look at the clock the first look serves the token, serves it with a refresh to be considered, or makes the caller wait |
| TokenSteps.SoftRefreshIff | py-arrow-bigquery/src/auth.rs:425-464 | a soft-expired token is served either way; a background task is spawned with the lock exactly when an attempt was due and the lock is free |
| TokenSteps.BackgroundIff | py-arrow-bigquery/src/auth.rs:429-443 | the background task starts a refresh over the cached token, handing it the lock, exactly when an attempt is due and at most two minutes are left; otherwise it lets the lock go and changes nothing |
| TokenSteps.SecondLookIff | py-arrow-bigquery/src/auth.rs:468-486 | under the lock the caller is served exactly a token with a minute left, and otherwise starts a refresh over the cached one |
| TokenSteps.BackgroundResultIff | py-arrow-bigquery/src/auth.rs:443-454 | a failed background refresh leaves the token and puts the next attempt off by the cooldown; one that succeeded changes nothing more |
| TokenRenewal.SoftExpiredIsRenewed | py-arrow-bigquery/src/auth.rs:396-466 | from every idle state with a soft-expired token and no failure waited out, a call is served at once and its own background task and worker reach the commit, or the failure that puts the next attempt off |
| TokenRenewal.HardExpiredIsRenewed | py-arrow-bigquery/src/auth.rs:396-486 | from every idle state without a token that has a minute left, a call starts a refresh, which reaches the commit or fails, and returns its outcome |
| TokenCaches.ServedLateIff | py-arrow-bigquery/src/auth.rs:76-98 | tokens fetched by the look at the clock and judged by it have a minute left when they are taken exactly if no time has passed since |
| ExpiringToken.FirstLookServesMinuteIff | py-arrow-bigquery/src/auth.rs:396-423 | over every run the first look serves only tokens with more than a minute left if and only if it comes at the very time the call began |
| ExpiringToken.FirstLookServesKnownIff | py-arrow-bigquery/src/auth.rs:396-423 | the same for tokens that were in the cache before the call began |
| ExpiringToken.LaterTokenServed | py-arrow-bigquery/src/auth.rs:396-423 | for every delay and every expiry a run in which a caller is served a token fetched after its call began, as a fresh one |
| TableIds.ParseTableId | crates/arrow-bigquery/src/lib.rs:68-115 | the cursor-moving parser accepts what the grammar says and splits it as it says |
| TableIds.PrintsBack | crates/arrow-bigquery/src/lib.rs:57-66 | every accepted text prints back to itself |
| TableIds.ParsesBackIff | crates/arrow-bigquery/src/lib.rs:57-115 | an id survives printing and parsing if and only if it is well formed |

## Left out

- Pushdown.RestrictionAdmitsKeptRows: a sufficient condition, because it covers filters with unsupported nodes and
  with NULL literals, where a lost row may be let through again by what is given up or folded; the exact condition
  is `SurvivingRows.AdmittedIff`, for filters that SQL can say node by node and that have no NULL operand.
- Conditionals.Becomes: where a check's operand has changed beneath, or its mark comes late, how much of it is rewritten
  depends on the order of visits; the loops say which, the theorems hold for each.
- ExactlyOnce.ReadsExactlyOnce: assumes that a connection sends rows in order from the offset asked for and ends
  only after the last one; row counts and payloads may be wrong.
- StreamRuns.RetryBound: the retry policy is an attempt limit over a test of the error; backoff lengths, the
  throttler and the deadline are inputs of each failure, because the gax crate is not part of this model.
- TableDelivery.UnorderedReadDelivers: slots of the channel are not counted for unordered reads (any reader or job
  may send at any time), so nothing is said about stalling there; `Receiver.StalledIff` is about ordered reads.
- TableProgress.EnqueuedIsReceived: likewise in a channel that takes everything, and with a thread for every job.
- Routing.Read: the job reference is a flag, and the lookups behind an empty result (`resolve_empty_job_stream`,
  `resolve_job_error`) are not modelled beyond the fact that they return no rows.
- ExpiringToken.FirstLookServesMinuteIff: the wall clock and the monotonic clock are one clock.
- TokenSafety.LockComesFree: that the holder's own steps are taken in the end is left to the runtime.
- Object identity: an identity is a name that no two objects share, so an `id()` used again after its object is gone
  is not captured, and leaves that the parser makes once for all places have a name for each.
- JSON dispatch: the walk of the trie over JSON, envelope checks and individual literal parsers. A JSON node carries
  the record its parser returns; whether its constructor raises, which leaves an unsupported node over the children,
  is part of the record.
- ParserRegistry.Registry.Register: the trie is a value that is replaced, not nodes updated in place, and the lock
  around registration is left out.
- The lists of the loops are sequences that are replaced, not updated in place.
- SQL text: the emitters build terms with a meaning, not strings, except for string literals and column identifiers;
  Unicode categories are a parameter.
- Scalar functions: shared by both engines, NULL-strict and otherwise arbitrary, so differences between the engines
  (NaN comparison, regular expressions, coercion) are not visible. Connectives keep their unit and absorption laws on
  operands that are not boolean, so no typing is assumed.
- The first-page estimate is computed in reals, not in doubles, and a batch is assumed to have an `i64` length.
- `DecodeJob::run` and the steps of the token cache are transitions of a state machine over values, not methods, since
  every look at a shared flag may be interleaved with other threads.
- Slots of the channel go to any waiter; tokio serves waiters in order.
- gRPC, REST, Arrow IPC, compression, Python callables, HTTP headers and entity tags, error texts, timers, lock
  poisoning, task panics and shutdown.
- A strict cooldown between soft refreshes: the guard is released before the failure is recorded (auth.rs:443-454),
  so another refresh can slip in between.
