/** Path resolution, stated independently of the walks in `ColumnExpr`: a
    path addresses a field when its first index picks a top-level field and
    each later index picks a sub-field of the struct the shorter path reaches.
    The lemmas tie `field`, `data_type`, `nullable` and `evaluate` to it. */
module Resolution {
  import opened Common
  import opened Arrow
  import opened ColumnExpr

  /** `path` leads to a field of `fields`, defined by its last step. */
  ghost predicate Addresses(fields: seq<Field>, path: seq<nat>)
    decreases |path|, 0
  {
    if |path| == 0 then false
    else if |path| == 1 then path[0] < |fields|
    else
      var init := path[..|path| - 1];
      && Addresses(fields, init)
      && Target(fields, init).dtype.Struct?
      && path[|path| - 1] < |Target(fields, init).dtype.fields|
  }

  /** The field an addressing path leads to. */
  ghost function Target(fields: seq<Field>, path: seq<nat>): Field
    requires Addresses(fields, path)
    decreases |path|, 1
  {
    if |path| == 1 then fields[path[0]]
    else Target(fields, path[..|path| - 1]).dtype.fields[path[|path| - 1]]
  }

  // ---------------------------------------------------------------------------
  // Walks compose

  /** Following `p + q` from a field is following `p`, then `q` from where `p` ended. */
  lemma {:induction false} SubFieldAtAppend(c: Column, f: Field, p: seq<nat>, q: seq<nat>)
    ensures SubFieldAt(c, f, p + q) ==
      match SubFieldAt(c, f, p)
      case Ok(g) => SubFieldAt(c, g, q)
      case other => other
    decreases |p|
  {
    if p != [] {
      assert (p + q)[0] == p[0] && (p + q)[1..] == p[1..] + q;
      match f.dtype {
        case Struct(children) =>
          if p[0] < |children| {
            SubFieldAtAppend(c, children[p[0]], p[1..], q);
          }
        case _ =>
      }
    } else {
      assert p + q == q;
    }
  }

  /** Following `p + q` from an array is following `p`, then `q` from where `p` ended. */
  lemma {:induction false} SubColumnAtAppend(c: Column, a: Array, p: seq<nat>, q: seq<nat>)
    ensures SubColumnAt(c, a, p + q) ==
      match SubColumnAt(c, a, p)
      case Ok(b) => SubColumnAt(c, b, q)
      case other => other
    decreases |p|
  {
    if p != [] {
      assert (p + q)[0] == p[0] && (p + q)[1..] == p[1..] + q;
      if a.StructArray? && p[0] < |a.columns| {
        SubColumnAtAppend(c, a.columns[p[0]], p[1..], q);
      }
    } else {
      assert p + q == q;
    }
  }

  /** Every non-empty prefix of an addressing path addresses a field too. */
  lemma {:induction false} AddressesPrefix(fields: seq<Field>, path: seq<nat>, k: nat)
    requires Addresses(fields, path) && 1 <= k <= |path|
    ensures Addresses(fields, path[..k])
    decreases |path|
  {
    if k < |path| {
      var init := path[..|path| - 1];
      assert init[..k] == path[..k];
      AddressesPrefix(fields, init, k);
    } else {
      assert path[..k] == path;
    }
  }

  /** The first index of an addressing path is a top-level position. */
  lemma AddressesTop(fields: seq<Field>, path: seq<nat>)
    requires Addresses(fields, path)
    ensures path[0] < |fields|
  {
    AddressesPrefix(fields, path, 1);
    assert path[..1] == [path[0]];
  }

  // ---------------------------------------------------------------------------
  // Field resolution

  /** Resolving the first `k` indices of a column's path in the schema. */
  lemma {:induction false} FieldPrefix(c: Column, fields: seq<Field>, k: nat)
    requires 1 <= k <= |c.indexPath| && c.indexPath[0] < |fields|
    ensures Addresses(fields, c.indexPath[..k]) ==>
      SubFieldAt(c, fields[c.indexPath[0]], c.indexPath[1..k]) == Ok(Target(fields, c.indexPath[..k]))
    ensures !Addresses(fields, c.indexPath[..k]) ==>
      SubFieldAt(c, fields[c.indexPath[0]], c.indexPath[1..k]) == Err(BoundsError(c))
    decreases k
  {
    var p := c.indexPath;
    var f0 := fields[p[0]];
    if k > 1 {
      FieldPrefix(c, fields, k - 1);
      assert p[1..k] == p[1..k - 1] + [p[k - 1]];
      assert p[..k][..k - 1] == p[..k - 1];
      SubFieldAtAppend(c, f0, p[1..k - 1], [p[k - 1]]);
    }
  }

  /** `Column::field` succeeds exactly on addressing paths, with the field
      addressed; an empty path, or a later index that meets a non-struct field
      or a missing sub-field, is the bounds error naming the column; only a
      top-level index past the schema panics. */
  lemma FieldAtCharacterized(c: Column, schema: Schema)
    ensures FieldAt(c, schema).Ok? <==> Addresses(schema.fields, c.indexPath)
    ensures Addresses(schema.fields, c.indexPath) ==>
      FieldAt(c, schema).value == Target(schema.fields, c.indexPath)
    ensures FieldAt(c, schema) == Err(BoundsError(c)) <==>
      c.indexPath == [] || (c.indexPath[0] < |schema.fields| && !Addresses(schema.fields, c.indexPath))
    ensures FieldAt(c, schema).Panic? <==> |c.indexPath| > 0 && c.indexPath[0] >= |schema.fields|
  {
    var p := c.indexPath;
    if p != [] && p[0] < |schema.fields| {
      FieldPrefix(c, schema.fields, |p|);
      assert p[..|p|] == p;
      assert p[1..|p|] == p[1..];
    } else if p != [] && Addresses(schema.fields, p) {
      AddressesTop(schema.fields, p);
      assert false;
    }
  }

  /** `data_type` and `nullable` report the addressed field's type and flag. */
  lemma DataTypeAndNullableOfAddressed(c: Column, schema: Schema)
    requires Addresses(schema.fields, c.indexPath)
    ensures ColumnDataType(c, schema) == Ok(Target(schema.fields, c.indexPath).dtype)
    ensures ColumnNullable(c, schema) == Ok(Target(schema.fields, c.indexPath).nullable)
  {
    FieldAtCharacterized(c, schema);
  }

  /** A later index that meets a non-struct field: `data_type` and `nullable`
      are the bounds error. */
  lemma NonStructStepIsBoundsError(c: Column, schema: Schema, k: nat)
    requires 1 <= k < |c.indexPath|
    requires Addresses(schema.fields, c.indexPath[..k])
    requires !Target(schema.fields, c.indexPath[..k]).dtype.Struct?
    ensures ColumnDataType(c, schema) == Err(BoundsError(c))
    ensures ColumnNullable(c, schema) == Err(BoundsError(c))
  {
    NotAddressedPast(schema.fields, c.indexPath, k);
    AddressesTop(schema.fields, c.indexPath[..k]);
    FieldAtCharacterized(c, schema);
  }

  /** A later index past the struct's sub-fields: `data_type` and `nullable`
      are the bounds error. */
  lemma NestedIndexPastStructIsBoundsError(c: Column, schema: Schema, k: nat)
    requires 1 <= k < |c.indexPath|
    requires Addresses(schema.fields, c.indexPath[..k])
    requires Target(schema.fields, c.indexPath[..k]).dtype.Struct?
    requires c.indexPath[k] >= |Target(schema.fields, c.indexPath[..k]).dtype.fields|
    ensures ColumnDataType(c, schema) == Err(BoundsError(c))
    ensures ColumnNullable(c, schema) == Err(BoundsError(c))
  {
    NotAddressedPast(schema.fields, c.indexPath, k);
    AddressesTop(schema.fields, c.indexPath[..k]);
    FieldAtCharacterized(c, schema);
  }

  /** A path whose step `k` cannot be taken addresses nothing. */
  lemma NotAddressedPast(fields: seq<Field>, path: seq<nat>, k: nat)
    requires 1 <= k < |path| && Addresses(fields, path[..k])
    requires !Target(fields, path[..k]).dtype.Struct?
             || path[k] >= |Target(fields, path[..k]).dtype.fields|
    ensures !Addresses(fields, path)
  {
    assert path[..k + 1][..k] == path[..k];
    if Addresses(fields, path) {
      AddressesPrefix(fields, path, k + 1);
      assert false;
    }
  }

  // ---------------------------------------------------------------------------
  // Evaluation against a conforming batch

  /** Resolving the first `k` indices over a conforming batch reaches an array
      of the addressed field's type, well formed and as long as the batch. */
  lemma {:induction false} ColumnPrefix(c: Column, b: RecordBatch, k: nat)
    requires Conforms(b)
    requires 1 <= k <= |c.indexPath| && c.indexPath[0] < |b.columns|
    requires Addresses(b.schema.fields, c.indexPath[..k])
    ensures var r := SubColumnAt(c, b.columns[c.indexPath[0]], c.indexPath[1..k]);
      && r.Ok?
      && ArrayType(r.value) == Target(b.schema.fields, c.indexPath[..k]).dtype
      && ArrayLen(r.value) == b.numRows
      && WellFormed(r.value)
    decreases k
  {
    var p := c.indexPath;
    var a0 := b.columns[p[0]];
    if k > 1 {
      assert p[..k][..k - 1] == p[..k - 1];
      ColumnPrefix(c, b, k - 1);
      assert p[1..k] == p[1..k - 1] + [p[k - 1]];
      SubColumnAtAppend(c, a0, p[1..k - 1], [p[k - 1]]);
      var a := SubColumnAt(c, a0, p[1..k - 1]).value;
      assert a.StructArray?;
      assert [p[k - 1]][1..] == [];
    }
  }

  /** On an addressing path `evaluate` succeeds, and the array it returns has
      the type `data_type` reports and the batch's row count. */
  lemma EvaluateAddressed(c: Column, b: RecordBatch)
    requires Conforms(b) && Addresses(b.schema.fields, c.indexPath)
    ensures ColumnAt(c, b).Ok?
    ensures ColumnDataType(c, b.schema) == Ok(ArrayType(ColumnAt(c, b).value))
    ensures ArrayLen(ColumnAt(c, b).value) == b.numRows
  {
    var p := c.indexPath;
    AddressesTop(b.schema.fields, p);
    assert p[..|p|] == p;
    ColumnPrefix(c, b, |p|);
    assert p[1..|p|] == p[1..];
    DataTypeAndNullableOfAddressed(c, b.schema);
  }

  /** A later index that meets a non-struct column: `evaluate` fails with the
      same bounds error as `data_type`. */
  lemma EvaluateNonStructStep(c: Column, b: RecordBatch, k: nat)
    requires Conforms(b)
    requires 1 <= k < |c.indexPath|
    requires Addresses(b.schema.fields, c.indexPath[..k])
    requires !Target(b.schema.fields, c.indexPath[..k]).dtype.Struct?
    ensures ColumnAt(c, b) == Err(BoundsError(c))
    ensures ColumnDataType(c, b.schema) == Err(BoundsError(c))
  {
    StepPast(c, b, k);
    NonStructStepIsBoundsError(c, b.schema, k);
  }

  /** A later index past a struct column's children: `evaluate` panics in
      `StructArray::column`, while `data_type` reports the bounds error. */
  lemma EvaluateNestedIndexPanics(c: Column, b: RecordBatch, k: nat)
    requires Conforms(b)
    requires 1 <= k < |c.indexPath|
    requires Addresses(b.schema.fields, c.indexPath[..k])
    requires Target(b.schema.fields, c.indexPath[..k]).dtype.Struct?
    requires c.indexPath[k] >= |Target(b.schema.fields, c.indexPath[..k]).dtype.fields|
    ensures ColumnAt(c, b) == Panic
    ensures ColumnDataType(c, b.schema) == Err(BoundsError(c))
  {
    StepPast(c, b, k);
    NestedIndexPastStructIsBoundsError(c, b.schema, k);
  }

  /** Where step `k` of the walk over a conforming batch cannot be taken, the
      walk ends there: the bounds error if the array is not a struct, a panic
      if it is. */
  lemma StepPast(c: Column, b: RecordBatch, k: nat)
    requires Conforms(b)
    requires 1 <= k < |c.indexPath|
    requires Addresses(b.schema.fields, c.indexPath[..k])
    requires !Target(b.schema.fields, c.indexPath[..k]).dtype.Struct?
             || c.indexPath[k] >= |Target(b.schema.fields, c.indexPath[..k]).dtype.fields|
    ensures ColumnAt(c, b) ==
      if Target(b.schema.fields, c.indexPath[..k]).dtype.Struct? then Panic else Err(BoundsError(c))
  {
    var p := c.indexPath;
    AddressesTop(b.schema.fields, p[..k]);
    var a0 := b.columns[p[0]];
    ColumnPrefix(c, b, k);
    assert p[1..] == p[1..k] + [p[k]] + p[k + 1..];
    SubColumnAtAppend(c, a0, p[1..k] + [p[k]], p[k + 1..]);
    SubColumnAtAppend(c, a0, p[1..k], [p[k]]);
  }

  // ---------------------------------------------------------------------------
  // Each step hands on the node reached, unchanged

  /** A successful walk does not depend on which column is walking. */
  lemma {:induction false} SubColumnAtSameWalk(c1: Column, c2: Column, a: Array, p: seq<nat>)
    requires SubColumnAt(c1, a, p).Ok?
    ensures SubColumnAt(c2, a, p) == SubColumnAt(c1, a, p)
    decreases |p|
  {
    if p != [] {
      SubColumnAtSameWalk(c1, c2, a.columns[p[0]], p[1..]);
    }
  }

  /** A successful walk does not depend on which column is walking. */
  lemma {:induction false} SubFieldAtSameWalk(c1: Column, c2: Column, f: Field, p: seq<nat>)
    requires SubFieldAt(c1, f, p).Ok?
    ensures SubFieldAt(c2, f, p) == SubFieldAt(c1, f, p)
    decreases |p|
  {
    if p != [] {
      SubFieldAtSameWalk(c1, c2, f.dtype.fields[p[0]], p[1..]);
    }
  }

  /** A one-index column evaluates to the batch's own column at that index. */
  lemma EvaluateTopLevel(name: string, i: nat, b: RecordBatch)
    requires i < |b.columns|
    ensures ColumnAt(NewColumn(name, i), b) == Ok(b.columns[i])
  {
  }

  /** Extending a path by one index narrows the array the shorter path
      evaluates to into its child at that index, and nothing else. */
  lemma EvaluateExtendsPath(name: string, p: seq<nat>, i: nat, b: RecordBatch)
    requires ColumnAt(Column(name, p), b).Ok?
    requires ColumnAt(Column(name, p), b).value.StructArray?
    requires i < |ColumnAt(Column(name, p), b).value.columns|
    ensures ColumnAt(Column(name, p + [i]), b) == Ok(ColumnAt(Column(name, p), b).value.columns[i])
  {
    var c, c' := Column(name, p), Column(name, p + [i]);
    var a := ColumnAt(c, b).value;
    assert (p + [i])[0] == p[0] && (p + [i])[1..] == p[1..] + [i];
    SubColumnAtSameWalk(c, c', b.columns[p[0]], p[1..]);
    SubColumnAtAppend(c', b.columns[p[0]], p[1..], [i]);
    assert [i][1..] == [];
  }

  /** Extending a path by one index narrows the field the shorter path
      resolves to into its sub-field at that index. */
  lemma FieldExtendsPath(name: string, p: seq<nat>, i: nat, schema: Schema)
    requires FieldAt(Column(name, p), schema).Ok?
    requires FieldAt(Column(name, p), schema).value.dtype.Struct?
    requires i < |FieldAt(Column(name, p), schema).value.dtype.fields|
    ensures FieldAt(Column(name, p + [i]), schema) == Ok(FieldAt(Column(name, p), schema).value.dtype.fields[i])
  {
    var c, c' := Column(name, p), Column(name, p + [i]);
    assert (p + [i])[0] == p[0] && (p + [i])[1..] == p[1..] + [i];
    SubFieldAtSameWalk(c, c', schema.fields[p[0]], p[1..]);
    SubFieldAtAppend(c', schema.fields[p[0]], p[1..], [i]);
    assert [i][1..] == [];
  }
}
