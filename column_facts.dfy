/** Properties of the column expressions that relate several operations:
    construction and accessors, display, equality, boundary analysis, and
    small concrete cases, among them those of the source's tests. */
module ColumnFacts {
  import opened Common
  import opened Arrow
  import opened Analysis
  import opened Render
  import opened ColumnExpr

  // ---------------------------------------------------------------------------
  // Construction and accessors

  /** `name()` and `index()` give back what `new` was built from, and `new`
      is `new_with_path` with a one-index path. */
  lemma AccessorsOfNew(name: string, i: nat)
    ensures ColumnName(NewColumn(name, i)) == name
    ensures ColumnIndex(NewColumn(name, i)) == i
    ensures NewColumnWithPath(name, [i]) == NewColumn(name, i)
  {
  }

  /** A column found by name resolves, in the same schema, to the first field
      of that name; `col` gives the same column as an expression node. */
  lemma NewWithSchemaResolves(name: string, schema: Schema)
    requires NewColumnWithSchema(name, schema).Ok?
    ensures var c := NewColumnWithSchema(name, schema).value;
      && FieldAt(c, schema) == Ok(schema.fields[ColumnIndex(c)])
      && FieldAt(c, schema).value.name == name
      && Col(name, schema) == Ok(ColumnNode(c))
  {
    var c := NewColumnWithSchema(name, schema).value;
    assert c.indexPath[1..] == [];
  }

  // ---------------------------------------------------------------------------
  // Display

  /** Reads a column back from its display form: the name is everything
      before the first `@`. */
  function ParseDisplay(s: string): Option<Column>
  {
    var k := FindChar(s, '@');
    if k == |s| then None
    else match ParseIndices(s[k + 1..])
      case Some(p) => Some(Column(s[..k], p))
      case None => None
  }

  /** The display form keeps both the name and the whole path, as long as the
      name has no `@` of its own. */
  lemma DisplayRoundTrip(c: Column)
    requires '@' !in c.name
    ensures ParseDisplay(ColumnDisplay(c)) == Some(c)
  {
    var s := ColumnDisplay(c);
    assert s == c.name + ['@'] + JoinIndices(c.indexPath);
    assert forall j :: 0 <= j < |c.name| ==> s[j] == c.name[j];
    assert s[|c.name|] == '@';
    assert s[FindChar(s, '@')] == '@';
    ParseJoinIndices(c.indexPath);
  }

  /** Columns whose names have no `@` display alike exactly when they are equal. */
  lemma DisplayInjective(a: Column, b: Column)
    requires '@' !in a.name && '@' !in b.name
    ensures ColumnDisplay(a) == ColumnDisplay(b) <==> a == b
  {
    DisplayRoundTrip(a);
    DisplayRoundTrip(b);
  }

  /** A one-index column displays as `name@i`. */
  lemma DisplaySingleIndex(name: string, i: nat)
    ensures ColumnDisplay(NewColumn(name, i)) == name + "@" + ToDecimal(i)
  {
  }

  /** The path `[2, 0]` displays as `x@2.0`; an unknown column as its name. */
  lemma DisplayExamples()
    ensures ColumnDisplay(NewColumnWithPath("x", [2, 0])) == "x@2.0"
    ensures ColumnDisplay(NewColumn("a", 12)) == "a@12"
    ensures UnknownDisplay(NewUnknownColumn("x")) == "x"
  {
    assert ToDecimal(2) == "2" && ToDecimal(0) == "0";
    assert ToDecimal(12) == ToDecimal(1) + "2";
    assert [2, 0][1..] == [0];
  }

  // ---------------------------------------------------------------------------
  // Equality

  /** Both equalities are symmetric, and a column never equals an unknown
      column, whatever the names. */
  lemma EqualityAcrossKinds(c: Column, u: UnKnownColumn, c': Column, u': UnKnownColumn)
    ensures ColumnEqAny(c, ColumnNode(c')) == ColumnEqAny(c', ColumnNode(c))
    ensures UnknownEqAny(u, UnknownNode(u')) == UnknownEqAny(u', UnknownNode(u))
    ensures !ColumnEqAny(c, UnknownNode(u)) && !UnknownEqAny(u, ColumnNode(c))
  {
  }

  /** Equal columns display alike. */
  lemma EqualColumnsDisplayAlike(c: Column, other: PhysicalExpr)
    requires ColumnEqAny(c, other)
    ensures ColumnDisplay(c) == ColumnDisplay(other.column)
  {
  }

  /** Equality between columns of the same kind and of different kinds, on small cases. */
  lemma EqualityExamples()
    ensures ColumnEqAny(NewColumn("x", 0), ColumnNode(NewColumn("x", 0)))
    ensures !ColumnEqAny(NewColumn("x", 0), ColumnNode(NewColumn("x", 1)))
    ensures !ColumnEqAny(NewColumn("x", 0), ColumnNode(NewColumn("y", 0)))
    ensures !ColumnEqAny(NewColumn("x", 0), UnknownNode(NewUnknownColumn("x")))
    ensures !UnknownEqAny(NewUnknownColumn("x"), ColumnNode(NewColumn("x", 0)))
    ensures UnknownEqAny(NewUnknownColumn("x"), UnknownNode(NewUnknownColumn("x")))
  {
  }

  // ---------------------------------------------------------------------------
  // Boundary analysis

  /** The analysed boundary depends only on the top-level index and the
      per-column entries: not on the name, the later indices, or the boundary
      the context held before. Analysing twice is analysing once. */
  lemma AnalyzeUsesTopLevelOnly(c1: Column, c2: Column, ctx1: AnalysisContext, ctx2: AnalysisContext)
    requires |c1.indexPath| > 0 && |c2.indexPath| > 0 && c1.indexPath[0] == c2.indexPath[0]
    requires ctx1.columnBoundaries == ctx2.columnBoundaries
    requires c1.indexPath[0] < |ctx1.columnBoundaries|
    ensures ColumnAnalyze(c1, ctx1) == ColumnAnalyze(c2, ctx2)
    ensures ColumnAnalyze(c1, ColumnAnalyze(c1, ctx1)) == ColumnAnalyze(c1, ctx1)
  {
  }

  /** The statistics of the source's analysis test: `a` in [1, 100] with 15
      distinct values, nothing known of `b`, `c` in [1, 75]. */
  lemma StatsBoundsAnalysis()
    ensures var a := ExprBoundaries(Int32Scalar(1), Int32Scalar(100), Some(15));
      var c := ExprBoundaries(Int32Scalar(1), Int32Scalar(75), None);
      var ctx := AnalysisContext(None, [Some(a), None, Some(c)]);
      && ColumnAnalyze(NewColumn("a", 0), ctx).boundaries == Some(a)
      && ColumnAnalyze(NewColumn("b", 1), ctx).boundaries == None
      && ColumnAnalyze(NewColumn("c", 2), ctx).boundaries == Some(c)
  {
  }

  // ---------------------------------------------------------------------------
  // A one-column batch

  /** The schema `[foo: Utf8]` with one batch row `"data"`. */
  function FooBatch(): RecordBatch
  {
    RecordBatch(Schema([Field("foo", Utf8, true)]), [PrimitiveArray(Utf8, [Utf8Scalar("data")])], 1)
  }

  /** Column `foo` at index 0 evaluates to the batch's column itself. */
  lemma EvaluateFoo()
    ensures Conforms(FooBatch())
    ensures ColumnAt(NewColumn("foo", 0), FooBatch()) == Ok(PrimitiveArray(Utf8, [Utf8Scalar("data")]))
    ensures ColumnDataType(NewColumn("foo", 0), FooBatch().schema) == Ok(Utf8)
    ensures ColumnNullable(NewColumn("foo", 0), FooBatch().schema) == Ok(true)
  {
  }

  // ---------------------------------------------------------------------------
  // The out-of-bounds tests

  /** Index 9 of a one-field schema: `data_type`, `nullable` and `evaluate`
      all panic, since the top-level index is not checked before use. */
  lemma TopLevelIndexPastSchemaPanics()
    ensures ColumnDataType(NewColumn("id", 9), FooBatch().schema) == Panic
    ensures ColumnNullable(NewColumn("id", 9), FooBatch().schema) == Panic
    ensures ColumnAt(NewColumn("id", 9), FooBatch()) == Panic
  {
  }

  /** An unknown column has type `Null`, is nullable, and cannot be evaluated,
      whatever the schema or batch; both kinds are leaves. */
  lemma UnknownColumnConstants(u: UnKnownColumn, c: Column, b: RecordBatch, children: seq<PhysicalExpr>)
    ensures UnknownDataType(u, b.schema) == Ok(Null)
    ensures UnknownNullable(u, b.schema) == Ok(true)
    ensures UnknownEvaluate(u, b).Err? && UnknownEvaluate(u, b).error.Plan?
    ensures UnknownChildren(u) == [] && ColumnChildren(c) == []
    ensures UnknownWithNewChildren(u, children) == Ok(UnknownNode(u))
    ensures ColumnWithNewChildren(c, children) == Ok(ColumnNode(c))
  {
  }
}
