# Column references of a physical expression tree

This project models `datafusion/physical-expr/src/expressions/column.rs`. That file holds the leaf nodes of DataFusion's physical expression trees:

- `Column` is a name plus an index path. The first index picks a top-level column of the input. Each later index picks a child of the struct column reached so far.
- `UnKnownColumn` is a name-only placeholder. It has type `Null`, is always nullable and cannot be evaluated.
- `col` builds a `Column` by looking a name up in a schema.

The model is written in Dafny and is split into these modules:

- `Common` (`common.dfy`): `Option`, the `Outcome` of a call (`Ok`, `Err` or `Panic`) and the errors.
- `Arrow` (`arrow.dfy`): the Arrow values the file consumes: data types, fields, schemas, arrays and record batches. It also has `Schema::index_of` and the well-formedness that Arrow's constructors guarantee.
- `Analysis` (`analysis.dfy`): the boundary-analysis context and its `with_boundaries`.
- `Render` (`render.dfy`): decimal rendering of indices and their `"."`-joined form, with parsers that invert them.
- `ColumnExpr` (`column.dfy`): the file itself. `Column::field` and `Column::evaluate` are methods whose `while` loops walk the path, just as the source's `for` loops do. Each is proved equal to a recursive function (`FieldAt`, `ColumnAt`) that the pure operations use.
- `Resolution` (`resolution.dfy`): an independent, last-step definition of "a path addresses a field" (`Addresses`, `Target`). Its lemmas characterise `field`, `data_type`, `nullable` and `evaluate` in terms of it.
- `ColumnFacts` (`column_facts.dfy`): properties that relate several operations: constructors and accessors, display, equality, analysis, and small concrete cases, among them those of the source's tests.

A call that panics in Rust has the outcome `Panic`, kept apart from the bounds error. The exceptions are `index()` and `analyze`, which carry their panic conditions as preconditions. Calls in this file panic in these places:

- `Schema::field` and `RecordBatch::column` index their vectors directly. So a top-level index past the schema or batch panics in `field`, `data_type`, `nullable` and `evaluate` (column.rs:110, column.rs:164).
- `StructArray::column` panics on a nested index past a struct array's children. Yet `field` reports the bounds error for the same nested index, because it uses `fields.get` (column.rs:122 against column.rs:168). `Resolution.EvaluateNestedIndexPanics` states this difference.

The only top-level bounds error is the empty path. The model follows the code in these places:

- The tests at column.rs:276-309 expect `Column::new("id", 9)` on a one-field schema to return an error. In the code as written it panics (`ColumnFacts.TopLevelIndexPastSchemaPanics`). Those tests also expect a message that `bounds_error` does not produce.
- `new_with_path` accepts an empty path, so the model allows one. `field` and `evaluate` give the bounds error for it. `index()` (column.rs:71) and `analyze` (column.rs:144) read `index_path[0]` without a check, so they require a non-empty path.

## Model

| member | source | states |
|---|---|---|
| `Arrow.IndexOf` | datafusion/physical-expr/src/expressions/column.rs:61 | the schema lookup `new_with_schema` relies on finds the first field of that name, or reports that no field has it |
| `Analysis.WithBoundaries` | datafusion/physical-expr/src/expressions/column.rs:146 | replaces the context's current boundary and keeps the per-column entries |
| `Render.ToDecimal` | datafusion/physical-expr/src/expressions/column.rs:83 | an index renders as a non-empty string of decimal digits |
| `Render.ParseToDecimal` | datafusion/physical-expr/src/expressions/column.rs:83 | the decimal rendering of an index reads back as that index |
| `Render.JoinIndices` | datafusion/physical-expr/src/expressions/column.rs:81-85 | the joined path is empty exactly when the path is |
| `Render.ParseJoinIndices` | datafusion/physical-expr/src/expressions/column.rs:81-85 | the `"."`-joined rendering of any path reads back as that path |
| `ColumnExpr.NewColumn` | datafusion/physical-expr/src/expressions/column.rs:44-49 | `new(n, i)` has name `n` and the one-index path `[i]` |
| `ColumnExpr.NewColumnWithPath` | datafusion/physical-expr/src/expressions/column.rs:52-57 | `new_with_path` keeps the name and the path exactly as given, even an empty path |
| `ColumnExpr.NewColumnWithSchema` | datafusion/physical-expr/src/expressions/column.rs:60-62 | succeeds iff some top-level field has the name; the path is then the single position of the first such field; otherwise exactly the field-not-found error; never panics |
| `ColumnExpr.ColumnName` | datafusion/physical-expr/src/expressions/column.rs:65-67 | returns the column's name |
| `ColumnExpr.ColumnIndex` | datafusion/physical-expr/src/expressions/column.rs:70-72 | returns the first, top-level index only; the path must be non-empty (an empty one panics) |
| `ColumnExpr.ColumnDisplay` | datafusion/physical-expr/src/expressions/column.rs:75-88 | the display is the name, then `@`, then the joined decimal indices |
| `ColumnExpr.BoundsError` | datafusion/physical-expr/src/expressions/column.rs:177-188 | the bounds error names the column and carries its whole index path |
| `ColumnExpr.SubFieldAt` | datafusion/physical-expr/src/expressions/column.rs:165-172 | the nested steps of `field` never panic, and every failure among them is the bounds error naming the column |
| `ColumnExpr.FieldAt` | datafusion/physical-expr/src/expressions/column.rs:161-175 | `field` panics exactly when the top-level index is past the schema; an empty path is the bounds error; every error is the bounds error |
| `ColumnExpr.ResolveField` | datafusion/physical-expr/src/expressions/column.rs:161-175 | the loop that walks the path over the schema returns exactly the resolution `FieldAt` defines |
| `ColumnExpr.ColumnDataType` | datafusion/physical-expr/src/expressions/column.rs:97-99 | `data_type` succeeds iff `field` does, with the resolved field's type; fails only with the bounds error; panics only on a top-level index past the schema |
| `ColumnExpr.ColumnNullable` | datafusion/physical-expr/src/expressions/column.rs:102-104 | `nullable` succeeds iff `field` does, with the resolved field's flag; fails only with the bounds error; panics only on a top-level index past the schema |
| `ColumnExpr.SubColumnAt` | datafusion/physical-expr/src/expressions/column.rs:116-126 | every error among the nested steps of `evaluate` is the bounds error naming the column |
| `ColumnExpr.ColumnAt` | datafusion/physical-expr/src/expressions/column.rs:107-128 | an empty path is the bounds error, a top-level index past the batch panics, and every error is the bounds error |
| `ColumnExpr.EvaluateColumn` | datafusion/physical-expr/src/expressions/column.rs:107-129 | the loop that walks the path over the batch returns the array `ColumnAt` reaches, as an array value, and fails or panics exactly when `ColumnAt` does |
| `ColumnExpr.ColumnChildren` | datafusion/physical-expr/src/expressions/column.rs:131-133 | a column has no children |
| `ColumnExpr.ColumnWithNewChildren` | datafusion/physical-expr/src/expressions/column.rs:135-140 | rebuilding a column with any children succeeds with the same node |
| `ColumnExpr.ColumnAnalyze` | datafusion/physical-expr/src/expressions/column.rs:143-147 | requires a top-level index inside the per-column entries; the current boundary becomes that entry and the entries stay as they were |
| `ColumnExpr.ColumnEqAny` | datafusion/physical-expr/src/expressions/column.rs:150-157 | a column equals a type-erased node iff that node is a column with the same name and the same path |
| `ColumnExpr.NewUnknownColumn` | datafusion/physical-expr/src/expressions/column.rs:198-202 | an unknown column keeps the name it is given |
| `ColumnExpr.UnknownName` | datafusion/physical-expr/src/expressions/column.rs:205-207 | returns the unknown column's name |
| `ColumnExpr.UnknownDisplay` | datafusion/physical-expr/src/expressions/column.rs:210-214 | an unknown column displays as its name |
| `ColumnExpr.UnknownDataType` | datafusion/physical-expr/src/expressions/column.rs:223-225 | the type is `Null` for every schema |
| `ColumnExpr.UnknownNullable` | datafusion/physical-expr/src/expressions/column.rs:228-230 | nullable for every schema |
| `ColumnExpr.UnknownEvaluate` | datafusion/physical-expr/src/expressions/column.rs:233-237 | evaluation is a planning error for every batch |
| `ColumnExpr.UnknownChildren` | datafusion/physical-expr/src/expressions/column.rs:239-241 | an unknown column has no children |
| `ColumnExpr.UnknownWithNewChildren` | datafusion/physical-expr/src/expressions/column.rs:243-248 | rebuilding an unknown column with any children succeeds with the same node |
| `ColumnExpr.UnknownEqAny` | datafusion/physical-expr/src/expressions/column.rs:251-258 | an unknown column equals a node iff that node is an unknown column with the same name |
| `ColumnExpr.Col` | datafusion/physical-expr/src/expressions/column.rs:261-263 | `col` succeeds iff `new_with_schema` does, with that column as an expression node, and fails with the same field-not-found error |
| `Resolution.SubFieldAtAppend` | datafusion/physical-expr/src/expressions/column.rs:165-172 | resolving `p + q` from a field is resolving `p`, then `q` from the field reached; a failure on `p` is final |
| `Resolution.SubColumnAtAppend` | datafusion/physical-expr/src/expressions/column.rs:116-126 | walking `p + q` from an array is walking `p`, then `q` from the array reached; a failure or panic on `p` is final |
| `Resolution.FieldPrefix` | datafusion/physical-expr/src/expressions/column.rs:161-175 | after the first `k` indices, `field` holds the field that prefix addresses, or has failed with the bounds error if it addresses none |
| `Resolution.FieldAtCharacterized` | datafusion/physical-expr/src/expressions/column.rs:161-175 | `field` succeeds iff the path addresses a field, returning that field; it gives the bounds error iff the path is empty or, with the top-level index in range, addresses nothing; it panics iff the top-level index is past the schema |
| `Resolution.DataTypeAndNullableOfAddressed` | datafusion/physical-expr/src/expressions/column.rs:97-104 | on an addressing path, `data_type` and `nullable` are the addressed field's type and flag |
| `Resolution.NonStructStepIsBoundsError` | datafusion/physical-expr/src/expressions/column.rs:166-171 | a later index that lands on a non-struct field makes `data_type` and `nullable` fail with the bounds error |
| `Resolution.NestedIndexPastStructIsBoundsError` | datafusion/physical-expr/src/expressions/column.rs:167-169 | a later index at or past the struct's sub-field count makes `data_type` and `nullable` fail with the bounds error |
| `Resolution.ColumnPrefix` | datafusion/physical-expr/src/expressions/column.rs:107-128 | over a conforming batch, after the first `k` indices of an addressing prefix `evaluate` holds a well-formed array of the addressed field's type, with the batch's row count |
| `Resolution.EvaluateAddressed` | datafusion/physical-expr/src/expressions/column.rs:107-128 | over a conforming batch, `evaluate` succeeds on an addressing path, and the array's type is what `data_type` reports and its length is the batch's row count |
| `Resolution.EvaluateNonStructStep` | datafusion/physical-expr/src/expressions/column.rs:117-125 | over a conforming batch, a later index that meets a non-struct column is the bounds error, for `evaluate` as for `data_type` |
| `Resolution.EvaluateNestedIndexPanics` | datafusion/physical-expr/src/expressions/column.rs:118-123 | over a conforming batch, a later index past a struct column's children panics in `evaluate`, while `data_type` reports the bounds error |
| `Resolution.StepPast` | datafusion/physical-expr/src/expressions/column.rs:116-126 | over a conforming batch, the walk stops at the first step it cannot take: a panic at a struct, the bounds error otherwise |
| `Resolution.EvaluateTopLevel` | datafusion/physical-expr/src/expressions/column.rs:109-115 | a one-index column evaluates to the batch's own column at that index |
| `Resolution.EvaluateExtendsPath` | datafusion/physical-expr/src/expressions/column.rs:116-128 | one more index narrows the evaluated struct array into its child at that index, unchanged |
| `Resolution.FieldExtendsPath` | datafusion/physical-expr/src/expressions/column.rs:165-174 | one more index narrows the resolved struct field into its sub-field at that index |
| `ColumnFacts.AccessorsOfNew` | datafusion/physical-expr/src/expressions/column.rs:44-72 | `name()` and `index()` give back what `new` was built from; `new` is `new_with_path` with a one-index path |
| `ColumnFacts.NewWithSchemaResolves` | datafusion/physical-expr/src/expressions/column.rs:60-62 | a column found by name resolves in that schema to the field of that name at its index, and `col` yields the same column |
| `ColumnFacts.DisplayRoundTrip` | datafusion/physical-expr/src/expressions/column.rs:75-88 | for a name without `@`, the display reads back as the same name and the whole path |
| `ColumnFacts.DisplayInjective` | datafusion/physical-expr/src/expressions/column.rs:75-88 | columns whose names have no `@` display alike iff they are equal |
| `ColumnFacts.DisplaySingleIndex` | datafusion/physical-expr/src/expressions/column.rs:75-88 | a one-index column displays as `name@i` |
| `ColumnFacts.DisplayExamples` | datafusion/physical-expr/src/expressions/column.rs:75-88 | path `[2, 0]` displays as `x@2.0`, index 12 as `a@12`, an unknown column as its bare name |
| `ColumnExpr.IndexPathEq` | datafusion/physical-expr/src/expressions/column.rs:36-40 | the derived `Vec<usize>` comparison: paths compare equal only when of equal length (full iff in `IndexPathEqIsEquality`) |
| `ColumnExpr.IndexPathEqIsEquality` | datafusion/physical-expr/src/expressions/column.rs:36-40 | the derived element-wise comparison of index paths is path equality |
| `ColumnExpr.ColumnEq` | datafusion/physical-expr/src/expressions/column.rs:36-40 | the derived `PartialEq` of `Column`: two columns are equal iff their names and their index paths are equal |
| `ColumnFacts.EqualityAcrossKinds` | datafusion/physical-expr/src/expressions/column.rs:251-258 | both equalities are symmetric, and a column and an unknown column are never equal, whatever their names |
| `ColumnFacts.EqualColumnsDisplayAlike` | datafusion/physical-expr/src/expressions/column.rs:150-157 | equal columns have the same display |
| `ColumnFacts.EqualityExamples` | datafusion/physical-expr/src/expressions/column.rs:150-157 | `x@0` equals `x@0` but not `x@1` or `y@0`, and neither kind equals the other with the same name |
| `ColumnFacts.AnalyzeUsesTopLevelOnly` | datafusion/physical-expr/src/expressions/column.rs:143-147 | the analysed context depends only on the top-level index and the per-column entries, not on the name, the later indices or the previous boundary; analysing twice is analysing once |
| `ColumnFacts.StatsBoundsAnalysis` | datafusion/physical-expr/src/expressions/column.rs:347-381 | with `a` in [1, 100] and 15 distinct, `b` unknown, and `c` in [1, 75], analysing `a`, `b` and `c` gives exactly those boundaries |
| `ColumnFacts.EvaluateFoo` | datafusion/physical-expr/src/expressions/column.rs:107-128 | column `foo` at index 0 of the one-row batch `["data"]` evaluates to that very array, with type `Utf8`, nullable |
| `ColumnFacts.TopLevelIndexPastSchemaPanics` | datafusion/physical-expr/src/expressions/column.rs:276-309 | index 9 against a one-field schema panics in `data_type`, `nullable` and `evaluate`, rather than returning the error these tests expect |
| `ColumnFacts.UnknownColumnConstants` | datafusion/physical-expr/src/expressions/column.rs:216-248 | an unknown column is `Null`-typed, nullable and unevaluable for every input, and both kinds are leaves whose rebuild returns the node itself |

## Left out

- Error message text. The bounds error carries the column name and path only: the rendered schema (column.rs:186) and the message wording are not modelled. Neither are the messages that the tests at column.rs:276-309 expect.
- `as_any`, `downcast_ref` and `down_cast_any_ref`. The type-erased node is the closed sum `PhysicalExpr`. Every other expression kind is `OtherNode`.
- The `StructArray` downcast at column.rs:118-121 is modelled by its outcome: a struct-typed array that is not a struct array gives the bounds error.
- `Arc` sharing, `clone` of array handles, and thread safety. Values are immutable and nothing in them needs a proof.
- The derived `Hash` (column.rs:36). Hash values are not modelled.
- `RecordBatch` construction. `Arrow.Conforms` states what `RecordBatch::try_new` checks; the lemmas assume it rather than model the check.
- Row slicing. An array's row count is its length field; values are not compared row by row.
- `AnalysisContext::from_statistics`, `Statistics` and `ColumnStatistics` (column.rs:311-344). The analysis test's context is written out directly.
- `UnKnownColumn::analyze`. It is the expression framework's default method, which is not part of this model.
