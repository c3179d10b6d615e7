/** The parts of Arrow's type system, schemas, arrays and record batches
    that a column reference walks over. */
module Arrow {
  import opened Common

  /** A single value, as held by an array slot or a statistics bound. */
  datatype Scalar = NullScalar | Int32Scalar(i: int) | Utf8Scalar(s: string)

  /** A logical type; `Struct` lists the sub-fields of a nested field. */
  datatype DataType = Null | Boolean | Int32 | Int64 | Utf8 | Struct(fields: seq<Field>)

  datatype Field = Field(name: string, dtype: DataType, nullable: bool)

  datatype Schema = Schema(fields: seq<Field>)

  /** Position of the first top-level field called `name`, counting from `from`. */
  function IndexFrom(fields: seq<Field>, name: string, from: nat): (r: Option<nat>)
    requires from <= |fields|
    ensures r.Some? ==> from <= r.value < |fields| && fields[r.value].name == name
    ensures r.Some? ==> forall j :: from <= j < r.value ==> fields[j].name != name
    ensures r.None? ==> forall j :: from <= j < |fields| ==> fields[j].name != name
    decreases |fields| - from
  {
    if from == |fields| then None
    else if fields[from].name == name then Some(from)
    else IndexFrom(fields, name, from + 1)
  }

  /** `Schema::index_of`: the position of the first field called `name`. */
  function IndexOf(schema: Schema, name: string): (r: Option<nat>)
    ensures r.Some? ==> r.value < |schema.fields| && schema.fields[r.value].name == name
    ensures r.Some? ==> forall j :: 0 <= j < r.value ==> schema.fields[j].name != name
    ensures r.None? <==> forall j :: 0 <= j < |schema.fields| ==> schema.fields[j].name != name
  {
    IndexFrom(schema.fields, name, 0)
  }

  /** A column of data. A struct array holds one child array per sub-field. */
  datatype Array =
    | PrimitiveArray(dtype: DataType, values: seq<Scalar>)
    | StructArray(fields: seq<Field>, columns: seq<Array>, length: nat)

  /** `Array::data_type`. */
  function ArrayType(a: Array): DataType
  {
    match a
    case PrimitiveArray(dtype, _) => dtype
    case StructArray(fields, _, _) => Struct(fields)
  }

  /** `Array::len`: the number of rows. */
  function ArrayLen(a: Array): nat
  {
    match a
    case PrimitiveArray(_, values) => |values|
    case StructArray(_, _, length) => length
  }

  /** What Arrow's array constructors guarantee: a struct-typed array is a
      struct array whose children match its sub-fields and its length. */
  ghost predicate WellFormed(a: Array)
  {
    match a
    case PrimitiveArray(dtype, _) => !dtype.Struct?
    case StructArray(fields, columns, length) =>
      && |columns| == |fields|
      && forall i :: 0 <= i < |columns| ==>
           && ArrayType(columns[i]) == fields[i].dtype
           && ArrayLen(columns[i]) == length
           && WellFormed(columns[i])
  }

  datatype RecordBatch = RecordBatch(schema: Schema, columns: seq<Array>, numRows: nat)

  /** What `RecordBatch::try_new` checks: one column per field, of that field's
      type, every column as long as the batch. */
  ghost predicate Conforms(b: RecordBatch)
  {
    && |b.columns| == |b.schema.fields|
    && forall i :: 0 <= i < |b.columns| ==>
         && ArrayType(b.columns[i]) == b.schema.fields[i].dtype
         && ArrayLen(b.columns[i]) == b.numRows
         && WellFormed(b.columns[i])
  }
}
