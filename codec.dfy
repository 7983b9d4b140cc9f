/**
 * The scalar codec: the type switch that turns one property value into a row
 * entry (CreateTableEntity's loop body) and the per-property read that turns
 * row entries back into a value (FillProperties' loop body).
 */
module Codec {
  import opened Values

  /** The name under which a property outside the scalar set is stored. */
  function JsonName(name: string): (r: string)
    ensures |r| == |name| + 4 && r[..|name|] == name
    ensures r != name
  {
    name + "Json"
  }

  /** No property name of the record is another property's `<Name>Json`. */
  predicate NoJsonClash(rec: Record) {
    forall i, j :: 0 <= i < |rec| && 0 <= j < |rec| ==> rec[i].name != JsonName(rec[j].name)
  }

  /**
   * The switch of CreateTableEntity. A null value becomes a null Int32 column
   * and a scalar a column of its own kind, both under the property's name;
   * anything else is serialised to JSON and stored as a string under
   * `<Name>Json`.
   */
  function Encode(env: Externals, f: Field): (e: (string, ColumnValue))
    ensures e.0 == f.name <==> !f.value.Complex?
    ensures e.0 != f.name ==> e.0 == JsonName(f.name)
    ensures e.1 == NullInt32 <==> f.value.Null?
    ensures f.value.Complex? ==> e.1.Typed? && e.1.scalar.Str?
  {
    match f.value
    case Null => (f.name, NullInt32)
    case Native(s) => (f.name, Typed(s))
    case Complex(o) => (JsonName(f.name), Typed(Str(env.serialize(o))))
  }

  /** EntityProperty.PropertyAsObject. */
  function AsObject(c: ColumnValue): (v: Value)
    ensures v.Null? <==> c.NullInt32?
    ensures !v.Complex?
  {
    match c
    case NullInt32 => Null
    case Typed(s) => Native(s)
  }

  /**
   * The typed getter FillProperties reads a non-null column through, chosen by
   * the property's declared type: DateTimeOffset or DateTimeOffset?, double,
   * int, long or Guid. Other declared types use PropertyAsObject.
   */
  function Accessor(decl: DeclType): (k: Option<Kind>)
    ensures k.Some? ==> decl.ScalarType? && decl.kind == k.value
    ensures k.Some? <==>
      || decl == ScalarType(DateTimeOffsetKind, false) || decl == ScalarType(DateTimeOffsetKind, true)
      || decl == ScalarType(DoubleKind, false) || decl == ScalarType(Int32Kind, false)
      || decl == ScalarType(Int64Kind, false) || decl == ScalarType(GuidKind, false)
  {
    match decl
    case ScalarType(DateTimeOffsetKind, _) => Some(DateTimeOffsetKind)
    case ScalarType(DoubleKind, false) => Some(DoubleKind)
    case ScalarType(Int32Kind, false) => Some(Int32Kind)
    case ScalarType(Int64Kind, false) => Some(Int64Kind)
    case ScalarType(GuidKind, false) => Some(GuidKind)
    case _ => None
  }

  /**
   * The storage SDK's typed getters (DateTimeOffsetValue, DoubleValue,
   * Int32Value, Int64Value, GuidValue) on a non-null column: each insists on a
   * column of its own type, except that DateTimeOffsetValue also reads a
   * DateTime column.
   */
  function ReadAs(env: Externals, k: Kind, s: Scalar): (r: Result<Value>)
    ensures s.KindOf() == k ==> r == Ok(Native(s))
    ensures r.Ok? ==> r.value.Native? && r.value.scalar.KindOf() == k
    ensures r.Err? ==> r.error == WrongColumnType(k)
  {
    if s.KindOf() == k then Ok(Native(s))
    else if k == DateTimeOffsetKind && s.DateTime? then Ok(Native(DateTimeOffset(env.toOffset(s.moment))))
    else Err(WrongColumnType(k))
  }

  /** EntityProperty.StringValue: the text of a string column, None for a null column. */
  function StringValue(c: ColumnValue): (r: Result<Option<string>>)
    ensures r == Ok(None) <==> c.NullInt32?
    ensures r.Err? <==> c.Typed? && !c.scalar.Str?
  {
    match c
    case NullInt32 => Ok(None)
    case Typed(Str(text)) => Ok(Some(text))
    case Typed(_) => Err(WrongColumnType(StringKind))
  }

  /**
   * One iteration of FillProperties: the value property `f` holds after it.
   * An entry under the property's own name is read (through the typed getter
   * its declared type selects); otherwise a `<Name>Json` entry holding text is
   * deserialised into the declared type; otherwise the value is left as it is.
   */
  function DecodeField(env: Externals, row: Row, f: Field): (r: Result<Value>)
    ensures r.Err? ==> r.error.WrongColumnType? || (f.name !in row.properties && JsonName(f.name) in row.properties)
  {
    if f.name in row.properties then
      var column := row.properties[f.name];
      var val := AsObject(column);
      if val.Null? then Ok(Null)
      else
        match Accessor(f.decl)
        case None => Ok(val)
        case Some(k) => ReadAs(env, k, column.scalar)
    else if JsonName(f.name) in row.properties then
      var text :- StringValue(row.properties[JsonName(f.name)]);
      if text.None? then Ok(f.value) else env.deserialize(text.value, f.decl)
    else
      Ok(f.value)
  }

  // ---- Lemmas ----

  lemma JsonNameInjective(a: string, b: string)
    ensures JsonName(a) == JsonName(b) ==> a == b
  {
    if JsonName(a) == JsonName(b) {
      assert a == JsonName(a)[..|a|];
      assert b == JsonName(b)[..|b|];
    }
  }

  /**
   * An entry under the property's own name decides the result: a `<Name>Json`
   * entry beside it is not looked at, and neither is the property's current value.
   */
  lemma OwnNameWins(env: Externals, row: Row, f: Field, w: Value)
    requires f.name in row.properties
    ensures DecodeField(env, row, f) == DecodeField(env, row.(properties := row.properties - {JsonName(f.name)}), f)
    ensures DecodeField(env, row, f) == DecodeField(env, row, f.(value := w))
    ensures row.properties[f.name] == NullInt32 ==> DecodeField(env, row, f) == Ok(Null)
  {
  }

  /** With no entry under its own name, the property is read from `<Name>Json`, if that holds text. */
  lemma JsonEntryRead(env: Externals, row: Row, f: Field)
    requires f.name !in row.properties && JsonName(f.name) in row.properties
    ensures row.properties[JsonName(f.name)] == NullInt32 ==> DecodeField(env, row, f) == Ok(f.value)
    ensures row.properties[JsonName(f.name)].Typed? && row.properties[JsonName(f.name)].scalar.Str? ==>
      DecodeField(env, row, f) == env.deserialize(row.properties[JsonName(f.name)].scalar.text, f.decl)
    ensures row.properties[JsonName(f.name)].Typed? && !row.properties[JsonName(f.name)].scalar.Str? ==>
      DecodeField(env, row, f) == Err(WrongColumnType(StringKind))
  {
  }

  /** With neither entry, the property keeps the value it had (the record's default). */
  lemma MissingEntryKeepsValue(env: Externals, row: Row, f: Field)
    requires f.name !in row.properties && JsonName(f.name) !in row.properties
    ensures DecodeField(env, row, f) == Ok(f.value)
  {
  }

  /**
   * The typed getter is used exactly for a non-null own-name entry of a
   * property declared DateTimeOffset(?), double, int, long or Guid: the value
   * read then has the declared kind.
   */
  lemma TypedGetterUsed(env: Externals, row: Row, f: Field)
    requires f.name in row.properties && row.properties[f.name].Typed?
    requires Accessor(f.decl).Some?
    ensures DecodeField(env, row, f) == ReadAs(env, f.decl.kind, row.properties[f.name].scalar)
    ensures DecodeField(env, row, f).Ok? ==>
      DecodeField(env, row, f).value.Native? && DecodeField(env, row, f).value.scalar.KindOf() == f.decl.kind
  {
  }

  /**
   * Round trip of one property: the entry Encode writes, read back into a
   * property of the same name and declared type (whatever its current value),
   * gives the original value. For a value outside the scalar set this needs
   * the JSON serialiser and deserialiser to agree on it.
   */
  lemma DecodeEncoded(env: Externals, f: Field, row: Row, w: Value)
    requires Conforms(f.decl, f.value)
    requires f.value.Complex? ==> env.deserialize(env.serialize(f.value.obj), f.decl) == Ok(f.value)
    requires Encode(env, f).0 in row.properties && row.properties[Encode(env, f).0] == Encode(env, f).1
    requires f.value.Complex? ==> f.name !in row.properties
    ensures DecodeField(env, row, f.(value := w)) == Ok(f.value)
  {
    if f.value.Native? && Accessor(f.decl).Some? {
      assert ReadAs(env, Accessor(f.decl).value, f.value.scalar) == Ok(f.value);
    }
  }
}
