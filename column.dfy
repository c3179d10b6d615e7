/** The column reference leaf of a physical expression tree: `Column`, the
    name-only `UnKnownColumn` placeholder and the `col` helper. */
module ColumnExpr {
  import opened Common
  import opened Arrow
  import opened Analysis
  import opened Render

  /** A column reached by a path of indices: the first picks a top-level
      column, each later one a child of the struct column reached so far. */
  datatype Column = Column(name: string, indexPath: seq<nat>)

  /** A column known by name only, for plans without an input schema. */
  datatype UnKnownColumn = UnKnownColumn(name: string)

  /** The closed set of expression kinds a type-erased node may be; every
      kind other than the two column kinds is `OtherNode`. */
  datatype PhysicalExpr =
    | ColumnNode(column: Column)
    | UnknownNode(unknown: UnKnownColumn)
    | OtherNode(id: nat)

  /** What evaluating an expression yields. */
  datatype ColumnarValue = ArrayValue(data: Array) | ScalarValue(scalar: Scalar)

  // ---------------------------------------------------------------------------
  // Column: construction and accessors

  /** `Column::new`: a path of one top-level index. */
  function NewColumn(name: string, index: nat): (c: Column)
    ensures c.name == name && |c.indexPath| == 1 && c.indexPath[0] == index
  {
    Column(name, [index])
  }

  /** `Column::new_with_path`: the path is kept exactly as given, even empty. */
  function NewColumnWithPath(name: string, indexPath: seq<nat>): (c: Column)
    ensures c.name == name && c.indexPath == indexPath
  {
    Column(name, indexPath)
  }

  /** `Column::new_with_schema`: the first top-level field called `name`. */
  function NewColumnWithSchema(name: string, schema: Schema): (r: Outcome<Column>)
    ensures r.Ok? <==> exists i :: 0 <= i < |schema.fields| && schema.fields[i].name == name
    ensures r.Ok? ==> r.value.name == name && |r.value.indexPath| == 1
    ensures r.Ok? ==> r.value.indexPath[0] < |schema.fields|
                      && schema.fields[r.value.indexPath[0]].name == name
                      && forall j :: 0 <= j < r.value.indexPath[0] ==> schema.fields[j].name != name
    ensures !r.Ok? ==> r == Err(FieldNotFound(name))
    ensures !r.Panic?
  {
    match IndexOf(schema, name)
    case Some(i) => Ok(NewColumn(name, i))
    case None => Err(FieldNotFound(name))
  }

  /** `Column::name`. */
  function ColumnName(c: Column): (n: string)
    ensures n == c.name
  {
    c.name
  }

  /** `Column::index`: the top-level position only; an empty path panics. */
  function ColumnIndex(c: Column): (i: nat)
    requires |c.indexPath| > 0
    ensures i == c.indexPath[0]
  {
    c.indexPath[0]
  }

  /** `Display`: the name, `@`, then the indices joined by `.`. */
  function ColumnDisplay(c: Column): (s: string)
    ensures |s| > |c.name| && s[..|c.name|] == c.name && s[|c.name|] == '@'
    ensures s[|c.name| + 1..] == JoinIndices(c.indexPath)
  {
    c.name + "@" + JoinIndices(c.indexPath)
  }

  /** `Column::bounds_error`: an error naming the column and its whole path. */
  function BoundsError(c: Column): (e: DataFusionError)
    ensures e.OutOfBounds? && e.column == c.name && e.indexPath == c.indexPath
  {
    OutOfBounds(c.name, c.indexPath)
  }

  // ---------------------------------------------------------------------------
  // Column: field resolution over a schema

  /** The field reached from `f` by the remaining nested indices `rest`. Only
      a struct field has sub-fields; a missing one is the bounds error. */
  function SubFieldAt(c: Column, f: Field, rest: seq<nat>): (r: Outcome<Field>)
    ensures !r.Panic?
    ensures r.Err? ==> r.error == BoundsError(c)
    decreases |rest|
  {
    if rest == [] then Ok(f)
    else match f.dtype
      case Struct(children) =>
        if rest[0] < |children| then SubFieldAt(c, children[rest[0]], rest[1..])
        else Err(BoundsError(c))
      case _ => Err(BoundsError(c))
  }

  /** What `Column::field` returns. An empty path is the bounds error; a
      top-level index past the schema panics in `Schema::field`. */
  function FieldAt(c: Column, schema: Schema): (r: Outcome<Field>)
    ensures r.Panic? <==> |c.indexPath| > 0 && c.indexPath[0] >= |schema.fields|
    ensures r.Err? ==> r.error == BoundsError(c)
    ensures c.indexPath == [] ==> r == Err(BoundsError(c))
  {
    if c.indexPath == [] then Err(BoundsError(c))
    else if c.indexPath[0] >= |schema.fields| then Panic
    else SubFieldAt(c, schema.fields[c.indexPath[0]], c.indexPath[1..])
  }

  /** `Column::field`: walks the path over the schema's field tree. */
  method ResolveField(c: Column, schema: Schema) returns (r: Outcome<Field>)
    ensures r == FieldAt(c, schema)
  {
    if |c.indexPath| == 0 {
      return Err(BoundsError(c));
    }
    if c.indexPath[0] >= |schema.fields| {
      return Panic;
    }
    var field := schema.fields[c.indexPath[0]];
    var i := 1;
    while i < |c.indexPath|
      invariant 1 <= i <= |c.indexPath|
      invariant SubFieldAt(c, field, c.indexPath[i..]) == FieldAt(c, schema)
    {
      assert c.indexPath[i..][1..] == c.indexPath[i + 1..];
      match field.dtype {
        case Struct(children) =>
          if c.indexPath[i] < |children| {
            field := children[c.indexPath[i]];
          } else {
            return Err(BoundsError(c));
          }
        case _ =>
          return Err(BoundsError(c));
      }
      i := i + 1;
    }
    return Ok(field);
  }

  /** `PhysicalExpr::data_type` of a column: the resolved field's type. */
  function ColumnDataType(c: Column, schema: Schema): (r: Outcome<DataType>)
    ensures r.Ok? <==> FieldAt(c, schema).Ok?
    ensures r.Ok? ==> r.value == FieldAt(c, schema).value.dtype
    ensures r.Err? ==> r.error == BoundsError(c)
    ensures r.Panic? <==> |c.indexPath| > 0 && c.indexPath[0] >= |schema.fields|
  {
    match FieldAt(c, schema)
    case Ok(f) => Ok(f.dtype)
    case Err(e) => Err(e)
    case Panic => Panic
  }

  /** `PhysicalExpr::nullable` of a column: the resolved field's flag. */
  function ColumnNullable(c: Column, schema: Schema): (r: Outcome<bool>)
    ensures r.Ok? <==> FieldAt(c, schema).Ok?
    ensures r.Ok? ==> r.value == FieldAt(c, schema).value.nullable
    ensures r.Err? ==> r.error == BoundsError(c)
    ensures r.Panic? <==> |c.indexPath| > 0 && c.indexPath[0] >= |schema.fields|
  {
    match FieldAt(c, schema)
    case Ok(f) => Ok(f.nullable)
    case Err(e) => Err(e)
    case Panic => Panic
  }

  // ---------------------------------------------------------------------------
  // Column: evaluation over a record batch

  /** The array reached from `a` by the remaining nested indices `rest`. A
      struct-typed array that is not a struct array fails the downcast (the
      bounds error); a child index past a struct array panics in
      `StructArray::column`; any other type is the bounds error. */
  function SubColumnAt(c: Column, a: Array, rest: seq<nat>): (r: Outcome<Array>)
    ensures r.Err? ==> r.error == BoundsError(c)
    decreases |rest|
  {
    if rest == [] then Ok(a)
    else match ArrayType(a)
      case Struct(_) =>
        if !a.StructArray? then Err(BoundsError(c))
        else if rest[0] < |a.columns| then SubColumnAt(c, a.columns[rest[0]], rest[1..])
        else Panic
      case _ => Err(BoundsError(c))
  }

  /** The array `Column::evaluate` returns. An empty path is the bounds error;
      a top-level index past the batch panics in `RecordBatch::column`. */
  function ColumnAt(c: Column, batch: RecordBatch): (r: Outcome<Array>)
    ensures r.Err? ==> r.error == BoundsError(c)
    ensures c.indexPath == [] ==> r == Err(BoundsError(c))
    ensures |c.indexPath| > 0 && c.indexPath[0] >= |batch.columns| ==> r.Panic?
  {
    if c.indexPath == [] then Err(BoundsError(c))
    else if c.indexPath[0] >= |batch.columns| then Panic
    else SubColumnAt(c, batch.columns[c.indexPath[0]], c.indexPath[1..])
  }

  /** `PhysicalExpr::evaluate` of a column: walks the path over the batch and
      returns the array reached, as it is. */
  method EvaluateColumn(c: Column, batch: RecordBatch) returns (r: Outcome<ColumnarValue>)
    ensures r.Ok? <==> ColumnAt(c, batch).Ok?
    ensures r.Ok? ==> r.value == ArrayValue(ColumnAt(c, batch).value)
    ensures r.Err? <==> ColumnAt(c, batch).Err?
    ensures r.Err? ==> r.error == BoundsError(c)
  {
    if |c.indexPath| == 0 {
      return Err(BoundsError(c));
    }
    if c.indexPath[0] >= |batch.columns| {
      return Panic;
    }
    var current := batch.columns[c.indexPath[0]];
    var i := 1;
    while i < |c.indexPath|
      invariant 1 <= i <= |c.indexPath|
      invariant SubColumnAt(c, current, c.indexPath[i..]) == ColumnAt(c, batch)
    {
      assert c.indexPath[i..][1..] == c.indexPath[i + 1..];
      match ArrayType(current) {
        case Struct(_) =>
          if !current.StructArray? {
            return Err(BoundsError(c));
          }
          if c.indexPath[i] >= |current.columns| {
            return Panic;
          }
          current := current.columns[c.indexPath[i]];
        case _ =>
          return Err(BoundsError(c));
      }
      i := i + 1;
    }
    return Ok(ArrayValue(current));
  }

  // ---------------------------------------------------------------------------
  // Column: leaf behaviour, analysis, equality

  /** `children`: a column has none. */
  function ColumnChildren(c: Column): (r: seq<PhysicalExpr>)
    ensures r == []
  {
    []
  }

  /** `with_new_children`: the children passed are ignored; the node itself is returned. */
  function ColumnWithNewChildren(c: Column, children: seq<PhysicalExpr>): (r: Outcome<PhysicalExpr>)
    ensures r == Ok(ColumnNode(c))
  {
    Ok(ColumnNode(c))
  }

  /** `analyze`: the current boundary becomes the entry of the top-level
      column; the assertion on the index is a precondition. */
  function ColumnAnalyze(c: Column, ctx: AnalysisContext): (r: AnalysisContext)
    requires |c.indexPath| > 0 && c.indexPath[0] < |ctx.columnBoundaries|
    ensures r.boundaries == ctx.columnBoundaries[ColumnIndex(c)]
    ensures r.columnBoundaries == ctx.columnBoundaries
  {
    WithBoundaries(ctx, ctx.columnBoundaries[c.indexPath[0]])
  }

  /** The derived equality of `Vec<usize>`: same length, equal element by element. */
  function IndexPathEq(p: seq<nat>, q: seq<nat>): (r: bool)
    ensures r ==> |p| == |q|
    decreases |p|
  {
    if p == [] || q == [] then |p| == 0 && |q| == 0
    else p[0] == q[0] && IndexPathEq(p[1..], q[1..])
  }

  /** The derived equality of `Column`: name and path. */
  function ColumnEq(a: Column, b: Column): (r: bool)
    ensures r <==> a == b
  {
    IndexPathEqIsEquality(a.indexPath, b.indexPath);
    a.name == b.name && IndexPathEq(a.indexPath, b.indexPath)
  }

  /** The element-wise comparison of index paths is equality of paths. */
  lemma {:induction false} IndexPathEqIsEquality(p: seq<nat>, q: seq<nat>)
    ensures IndexPathEq(p, q) <==> p == q
    decreases |p|
  {
    if p != [] && q != [] {
      IndexPathEqIsEquality(p[1..], q[1..]);
      if p[0] == q[0] && p[1..] == q[1..] {
        assert p == [p[0]] + p[1..] && q == [q[0]] + q[1..];
      }
    }
  }

  /** `PartialEq<dyn Any>` for `Column`: unequal to any node of another kind. */
  function ColumnEqAny(c: Column, other: PhysicalExpr): (r: bool)
    ensures r <==> other == ColumnNode(c)
  {
    match other
    case ColumnNode(x) => ColumnEq(c, x)
    case _ => false
  }

  // ---------------------------------------------------------------------------
  // UnKnownColumn

  /** `UnKnownColumn::new`. */
  function NewUnknownColumn(name: string): (u: UnKnownColumn)
    ensures u.name == name
  {
    UnKnownColumn(name)
  }

  /** `UnKnownColumn::name`. */
  function UnknownName(u: UnKnownColumn): (n: string)
    ensures n == u.name
  {
    u.name
  }

  /** `Display` of an unknown column: its name alone. */
  function UnknownDisplay(u: UnKnownColumn): (s: string)
    ensures s == u.name
  {
    u.name
  }

  /** `data_type` of an unknown column: `Null`, whatever the schema. */
  function UnknownDataType(u: UnKnownColumn, schema: Schema): (r: Outcome<DataType>)
    ensures r == Ok(Null)
  {
    Ok(Null)
  }

  /** `nullable` of an unknown column: always nullable. */
  function UnknownNullable(u: UnKnownColumn, schema: Schema): (r: Outcome<bool>)
    ensures r == Ok(true)
  {
    Ok(true)
  }

  /** `evaluate` of an unknown column: always a planning error. */
  function UnknownEvaluate(u: UnKnownColumn, batch: RecordBatch): (r: Outcome<ColumnarValue>)
    ensures r.Err? && r.error.Plan?
  {
    Err(Plan("UnKnownColumn::evaluate() should not be called"))
  }

  /** `children` of an unknown column: none. */
  function UnknownChildren(u: UnKnownColumn): (r: seq<PhysicalExpr>)
    ensures r == []
  {
    []
  }

  /** `with_new_children` of an unknown column: the node itself. */
  function UnknownWithNewChildren(u: UnKnownColumn, children: seq<PhysicalExpr>): (r: Outcome<PhysicalExpr>)
    ensures r == Ok(UnknownNode(u))
  {
    Ok(UnknownNode(u))
  }

  /** `PartialEq<dyn Any>` for `UnKnownColumn`: equal only to an unknown column
      of the same name. */
  function UnknownEqAny(u: UnKnownColumn, other: PhysicalExpr): (r: bool)
    ensures r <==> other == UnknownNode(u)
  {
    match other
    case UnknownNode(x) => u.name == x.name
    case _ => false
  }

  // ---------------------------------------------------------------------------

  /** `col`: a column found by name, as a shared expression node. */
  function Col(name: string, schema: Schema): (r: Outcome<PhysicalExpr>)
    ensures r.Ok? <==> NewColumnWithSchema(name, schema).Ok?
    ensures r.Ok? ==> r.value == ColumnNode(NewColumnWithSchema(name, schema).value)
    ensures r.Err? ==> r.error == FieldNotFound(name)
    ensures !r.Panic?
  {
    match NewColumnWithSchema(name, schema)
    case Ok(c) => Ok(ColumnNode(c))
    case Err(e) => Err(e)
    case Panic => Panic
  }
}
