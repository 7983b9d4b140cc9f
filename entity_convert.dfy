/**
 * The public operations of EntityConvert: record to row with literal keys or
 * with keys taken from two properties, and row to record with or without the
 * keys written back into properties.
 */
module EntityConvert {
  import opened Values
  import opened Fields
  import opened Codec
  import opened Assembly

  /** `ToString()` on a key property's value: a string is its own text, null raises. */
  function KeyString(env: Externals, v: Value): (r: Result<string>)
    ensures r.Err? <==> v.Null?
    ensures r.Err? ==> r.error == NullReference
    ensures v.Native? && v.scalar.Str? ==> r == Ok(v.scalar.text)
  {
    match v
    case Null => Err(NullReference)
    case Native(Str(text)) => Ok(text)
    case _ => Ok(env.render(v))
  }

  /** The row `ToTableEntity(o, partitionKey, rowKey, ignored...)` produces. */
  function LiteralKeyEntity(env: Externals, rec: Record, partitionKey: string, rowKey: string, ignored: seq<string>)
    : (r: Result<Row>)
    ensures r.Ok? ==> r.value.partitionKey == partitionKey && r.value.rowKey == rowKey
    ensures r.Err? ==> r.error.AmbiguousName? && r.error.name in ignored
  {
    var props :- IgnoredRemoved(rec, AllProperties(rec), ignored);
    Ok(Row(partitionKey, rowKey, Assemble(env, rec, props)))
  }

  /**
   * The positions of the two key properties, looked up as ToTableEntity does:
   * the partition property first, each by SingleOrDefault over all properties.
   */
  function KeyProperties(rec: Record, partitionProperty: string, rowProperty: string): (r: Result<(nat, nat)>)
    ensures r.Ok? ==> r.value.0 < |rec| && r.value.1 < |rec|
    ensures r.Ok? ==> Named(rec, AllProperties(rec), partitionProperty) == [r.value.0]
    ensures r.Ok? ==> Named(rec, AllProperties(rec), rowProperty) == [r.value.1]
    ensures r == Err(ArgumentError("partitionProperty")) <==>
      forall i :: 0 <= i < |rec| ==> rec[i].name != partitionProperty
    ensures r == Err(ArgumentError("rowProperty")) <==>
      |Named(rec, AllProperties(rec), partitionProperty)| == 1 && forall i :: 0 <= i < |rec| ==> rec[i].name != rowProperty
  {
    var all := AllProperties(rec);
    var partitionProp :- SingleOrDefault(rec, all, partitionProperty);
    if partitionProp.None? then Err(ArgumentError("partitionProperty"))
    else
      assert partitionProp.value in Named(rec, all, partitionProperty);
      var rowProp :- SingleOrDefault(rec, all, rowProperty);
      if rowProp.None? then Err(ArgumentError("rowProperty"))
      else
        assert rowProp.value in Named(rec, all, rowProperty);
        Ok((partitionProp.value, rowProp.value))
  }

  /** The working list once both key properties were removed from it. */
  function WithoutKeys(rec: Record, p: nat, q: nat): (r: seq<nat>)
    ensures Refs(rec, r) && Distinct(r)
    ensures forall i :: i in r <==> 0 <= i < |rec| && i != p && i != q
  {
    var all := AllProperties(rec);
    RemoveKeepsRefs(rec, all, p);
    RemoveKeepsRefs(rec, Remove(all, p), q);
    Remove(Remove(all, p), q)
  }

  /** The row `ToTableEntity(o, partitionProperty, rowProperty, ignored...)` produces. */
  function FieldKeyEntity(env: Externals, rec: Record, partitionProperty: string, rowProperty: string, ignored: seq<string>)
    : (r: Result<Row>)
    ensures r.Err? ==>
      || r.error == ArgumentError("partitionProperty") || r.error == ArgumentError("rowProperty")
      || r.error == NullReference
      || (r.error.AmbiguousName? && (r.error.name in ignored || r.error.name == partitionProperty || r.error.name == rowProperty))
  {
    var keys :- KeyProperties(rec, partitionProperty, rowProperty);
    EntityWithKeyProperties(env, rec, keys.0, keys.1, ignored)
  }

  /**
   * The rest of that conversion once the key properties `p` and `q` are known:
   * the ignore list is applied to the other properties, then both keys are
   * turned into text, then the bag is built.
   */
  function EntityWithKeyProperties(env: Externals, rec: Record, p: nat, q: nat, ignored: seq<string>): (r: Result<Row>)
    requires p < |rec| && q < |rec|
    ensures r.Err? ==> r.error.AmbiguousName? || r.error == NullReference
  {
    var props :- IgnoredRemoved(rec, WithoutKeys(rec, p, q), ignored);
    var partitionKey :- KeyString(env, rec[p].value);
    var rowKey :- KeyString(env, rec[q].value);
    Ok(Row(partitionKey, rowKey, Assemble(env, rec, props)))
  }

  /**
   * Writing one key back on decode. Only when both the property name and the
   * converter are given: the property is looked up (a missing one raises an
   * ArgumentException naming `param`), receives the converted key, and leaves
   * the working list.
   */
  function AssignKey(rec: Record, props: seq<nat>, name: Option<string>, convert: Option<KeyConverter>,
                     key: string, param: string): (r: Result<(Record, seq<nat>)>)
    requires Refs(rec, props)
    ensures r.Ok? ==> |r.value.0| == |rec| && Refs(r.value.0, r.value.1)
    ensures r.Ok? && Distinct(props) ==> Distinct(r.value.1)
    ensures name.None? || convert.None? ==> r == Ok((rec, props))
    ensures name.Some? && convert.Some? && (forall i :: i in props ==> rec[i].name != name.value)
      ==> r == Err(ArgumentError(param))
    ensures name.Some? && convert.Some? && |Named(rec, props, name.value)| > 1
      ==> r == Err(AmbiguousName(name.value))
    ensures name.Some? && convert.Some? && |Named(rec, props, name.value)| == 1 && convert.value(key).Err?
      ==> r == Err(convert.value(key).error)
    ensures r.Ok? && name.Some? && convert.Some?
      ==> |Named(rec, props, name.value)| == 1 && convert.value(key).Ok?
  {
    if name.Some? && convert.Some? then
      var found :- SingleOrDefault(rec, props, name.value);
      if found.None? then Err(ArgumentError(param))
      else
        var v :- convert.value(key);
        var i := found.value;
        RemoveKeepsRefs(rec, props, i);
        Ok((rec[i := rec[i].(value := v)], Remove(props, i)))
    else
      Ok((rec, props))
  }

  /** A key property found once, with a converter that succeeds: it holds the converted key and leaves the list. */
  lemma AssignKeyFound(rec: Record, props: seq<nat>, name: string, convert: KeyConverter, key: string, param: string,
                       i: nat, v: Value)
    requires Refs(rec, props) && Named(rec, props, name) == [i] && convert(key) == Ok(v)
    ensures i < |rec|
    ensures AssignKey(rec, props, Some(name), Some(convert), key, param) == Ok((rec[i := rec[i].(value := v)], Remove(props, i)))
  {
    assert i in Named(rec, props, name);
  }

  /**
   * The record `FromTableEntity(entity, partitionProperty, convertPartitionKey,
   * rowProperty, convertRowKey)` produces from the new record `blank`.
   */
  function RecordFrom(env: Externals, entity: Row, blank: Record,
                      partitionProperty: Option<string>, convertPartitionKey: Option<KeyConverter>,
                      rowProperty: Option<string>, convertRowKey: Option<KeyConverter>): (r: Result<Record>)
    ensures r.Ok? ==> |r.value| == |blank|
    ensures (partitionProperty.None? || convertPartitionKey.None?) && (rowProperty.None? || convertRowKey.None?)
      ==> r == Fill(env, entity, blank, AllProperties(blank))
  {
    var afterPartition :- AssignKey(blank, AllProperties(blank), partitionProperty, convertPartitionKey,
                                    entity.partitionKey, "partitionProperty");
    var afterRow :- AssignKey(afterPartition.0, afterPartition.1, rowProperty, convertRowKey,
                              entity.rowKey, "rowProperty");
    Fill(env, entity, afterRow.0, afterRow.1)
  }

  /**
   * The converter `FromTableEntity<T, TP, TR>` supplies for a key of type
   * `keyType`: Guid.Parse for Guid, Convert.ChangeType for anything else.
   */
  function DefaultConverter(env: Externals, keyType: DeclType): KeyConverter
  {
    if keyType == ScalarType(GuidKind, false) then
      (text: string) =>
        match env.parseGuid(text)
        case Ok(u) => Ok(Native(Guid(u)))
        case Err(e) => Err(e)
    else
      (text: string) => env.changeType(text, keyType)
  }

  // ---- The operations ----

  /** ToTableEntity with literal keys: every property not ignored is stored. */
  method ToTableEntityWithKeys(env: Externals, o: Record, partitionKey: string, rowKey: string, ignored: seq<string>)
    returns (r: Result<Row>)
    ensures r == LiteralKeyEntity(env, o, partitionKey, rowKey, ignored)
    ensures r.Ok? ==> r.value.partitionKey == partitionKey && r.value.rowKey == rowKey
  {
    var properties := AllProperties(o);
    properties :- RemoveIgnoredProperties(o, properties, ignored);
    var entity := CreateTableEntity(env, o, properties, partitionKey, rowKey);
    return Ok(entity);
  }

  /**
   * ToTableEntity with keys taken from two properties: both are looked up,
   * taken out of the stored properties, and their values' text becomes the keys.
   */
  method ToTableEntityFromFields(env: Externals, o: Record, partitionProperty: string, rowProperty: string,
                                 ignored: seq<string>)
    returns (r: Result<Row>)
    ensures r == FieldKeyEntity(env, o, partitionProperty, rowProperty, ignored)
  {
    var properties := AllProperties(o);
    var partitionProp :- SingleOrDefault(o, properties, partitionProperty);
    if partitionProp.None? {
      return Err(ArgumentError("partitionProperty"));
    }
    var rowProp :- SingleOrDefault(o, properties, rowProperty);
    if rowProp.None? {
      return Err(ArgumentError("rowProperty"));
    }
    RemoveKeepsRefs(o, properties, partitionProp.value);
    properties := Remove(properties, partitionProp.value);
    RemoveKeepsRefs(o, properties, rowProp.value);
    properties := Remove(properties, rowProp.value);
    properties :- RemoveIgnoredProperties(o, properties, ignored);
    var partitionKey :- KeyString(env, o[partitionProp.value].value);
    var rowKey :- KeyString(env, o[rowProp.value].value);
    var entity := CreateTableEntity(env, o, properties, partitionKey, rowKey);
    return Ok(entity);
  }

  /**
   * FromTableEntity with explicit key converters; `blank` is the record
   * `new T()` produced.
   */
  method FromTableEntityConverting(env: Externals, entity: Row, blank: Record,
                                   partitionProperty: Option<string>, convertPartitionKey: Option<KeyConverter>,
                                   rowProperty: Option<string>, convertRowKey: Option<KeyConverter>)
    returns (r: Result<Record>)
    ensures r == RecordFrom(env, entity, blank, partitionProperty, convertPartitionKey, rowProperty, convertRowKey)
    ensures r.Ok? ==> |r.value| == |blank|
  {
    var o := blank;
    var properties := AllProperties(blank);
    if partitionProperty.Some? && convertPartitionKey.Some? {
      var partitionProp :- SingleOrDefault(o, properties, partitionProperty.value);
      if partitionProp.None? {
        return Err(ArgumentError("partitionProperty"));
      }
      var key :- convertPartitionKey.value(entity.partitionKey);
      var i := partitionProp.value;
      o := o[i := o[i].(value := key)];
      RemoveKeepsRefs(o, properties, i);
      properties := Remove(properties, i);
    }
    if rowProperty.Some? && convertRowKey.Some? {
      var rowProp :- SingleOrDefault(o, properties, rowProperty.value);
      if rowProp.None? {
        return Err(ArgumentError("rowProperty"));
      }
      var key :- convertRowKey.value(entity.rowKey);
      var i := rowProp.value;
      o := o[i := o[i].(value := key)];
      RemoveKeepsRefs(o, properties, i);
      properties := Remove(properties, i);
    }
    r := FillProperties(env, entity, o, properties);
  }

  /**
   * FromTableEntity<T, TP, TR>: the key converters are the defaults for the
   * key types `partitionType` and `rowType`.
   */
  method FromTableEntityTyped(env: Externals, entity: Row, blank: Record,
                              partitionProperty: Option<string>, partitionType: DeclType,
                              rowProperty: Option<string>, rowType: DeclType)
    returns (r: Result<Record>)
    ensures r == RecordFrom(env, entity, blank, partitionProperty, Some(DefaultConverter(env, partitionType)),
                            rowProperty, Some(DefaultConverter(env, rowType)))
  {
    var convertPartition := DefaultConverter(env, partitionType);
    var convertRow := DefaultConverter(env, rowType);
    r := FromTableEntityConverting(env, entity, blank, partitionProperty, Some(convertPartition),
                                   rowProperty, Some(convertRow));
  }

  /** FromTableEntity<T>: no key is written back; every property is filled from the row. */
  method FromTableEntity(env: Externals, entity: Row, blank: Record) returns (r: Result<Record>)
    ensures r == Fill(env, entity, blank, AllProperties(blank))
  {
    r := FromTableEntityConverting(env, entity, blank, None, None, None, None);
  }

  // ---- Lemmas: keys and errors ----

  /**
   * With derived keys, the row's keys are the text of the two named
   * properties, and every stored entry comes from a property that is neither
   * a key property nor ignored.
   */
  lemma FieldKeyEntityShape(env: Externals, rec: Record, partitionProperty: string, rowProperty: string,
                            ignored: seq<string>)
    requires FieldKeyEntity(env, rec, partitionProperty, rowProperty, ignored).Ok?
    ensures var row := FieldKeyEntity(env, rec, partitionProperty, rowProperty, ignored).value;
      && (exists p :: 0 <= p < |rec| && rec[p].name == partitionProperty && KeyString(env, rec[p].value) == Ok(row.partitionKey))
      && (exists q :: 0 <= q < |rec| && rec[q].name == rowProperty && KeyString(env, rec[q].value) == Ok(row.rowKey))
      && forall name :: name in row.properties ==>
           exists i :: (0 <= i < |rec| && Encode(env, rec[i]).0 == name
             && rec[i].name != partitionProperty && rec[i].name != rowProperty && rec[i].name !in ignored)
  {
    var keys := KeyProperties(rec, partitionProperty, rowProperty).value;
    var p, q := keys.0, keys.1;
    assert p in Named(rec, AllProperties(rec), partitionProperty);
    assert q in Named(rec, AllProperties(rec), rowProperty);
    var row := EntityWithKeyProperties(env, rec, p, q, ignored).value;
    EntriesOfNonKeyProperties(env, rec, p, q, ignored);
    forall name | name in row.properties
      ensures exists i :: (0 <= i < |rec| && Encode(env, rec[i]).0 == name
             && rec[i].name != partitionProperty && rec[i].name != rowProperty && rec[i].name !in ignored)
    {
      var i :| 0 <= i < |rec| && i != p && i != q && Encode(env, rec[i]).0 == name && rec[i].name !in ignored;
      SingleNamed(rec, AllProperties(rec), partitionProperty, p, i);
      SingleNamed(rec, AllProperties(rec), rowProperty, q, i);
    }
  }

  /** Once the key properties are known, every stored entry comes from another property that is not ignored. */
  lemma EntriesOfNonKeyProperties(env: Externals, rec: Record, p: nat, q: nat, ignored: seq<string>)
    requires p < |rec| && q < |rec|
    requires EntityWithKeyProperties(env, rec, p, q, ignored).Ok?
    ensures var row := EntityWithKeyProperties(env, rec, p, q, ignored).value;
      && KeyString(env, rec[p].value) == Ok(row.partitionKey) && KeyString(env, rec[q].value) == Ok(row.rowKey)
      && forall name :: name in row.properties ==>
           exists i :: (0 <= i < |rec| && i != p && i != q && Encode(env, rec[i]).0 == name && rec[i].name !in ignored)
  {
    var withoutKeys := WithoutKeys(rec, p, q);
    var props := IgnoredRemoved(rec, withoutKeys, ignored).value;
    var row := EntityWithKeyProperties(env, rec, p, q, ignored).value;
    assert row.properties == Assemble(env, rec, props);
    IgnoredRemovedMeaning(rec, withoutKeys, ignored);
    forall name | name in row.properties
      ensures exists i :: (0 <= i < |rec| && i != p && i != q && Encode(env, rec[i]).0 == name && rec[i].name !in ignored)
    {
      AssembleKeys(env, rec, props, name);
      var j :| 0 <= j < |props| && Encode(env, rec[props[j]]).0 == name;
      assert props[j] in props;
    }
  }

  /**
   * With distinct property names and no name that is another's `<Name>Json`,
   * neither key property is stored under its own name or as JSON, and
   * neither is any ignored property.
   */
  lemma KeyAndIgnoredPropertiesNotStored(env: Externals, rec: Record, partitionProperty: string, rowProperty: string,
                                         ignored: seq<string>, i: nat)
    requires DistinctNames(rec) && NoJsonClash(rec)
    requires FieldKeyEntity(env, rec, partitionProperty, rowProperty, ignored).Ok?
    requires i < |rec| && (rec[i].name == partitionProperty || rec[i].name == rowProperty || rec[i].name in ignored)
    ensures rec[i].name !in FieldKeyEntity(env, rec, partitionProperty, rowProperty, ignored).value.properties
    ensures JsonName(rec[i].name) !in FieldKeyEntity(env, rec, partitionProperty, rowProperty, ignored).value.properties
  {
    var keys := KeyProperties(rec, partitionProperty, rowProperty).value;
    var p, q := keys.0, keys.1;
    var withoutKeys := WithoutKeys(rec, p, q);
    FieldKeyEntityParts(env, rec, partitionProperty, rowProperty, ignored);
    var props := IgnoredRemoved(rec, withoutKeys, ignored).value;
    assert i !in props by {
      IgnoredRemovedMeaning(rec, withoutKeys, ignored);
      if rec[i].name == partitionProperty {
        assert p in Named(rec, AllProperties(rec), partitionProperty);
      } else if rec[i].name == rowProperty {
        assert q in Named(rec, AllProperties(rec), rowProperty);
      }
    }
    AssembleAbsent(env, rec, props, i);
  }

  /** The parts of a successful conversion with derived keys. */
  lemma FieldKeyEntityParts(env: Externals, rec: Record, partitionProperty: string, rowProperty: string,
                            ignored: seq<string>)
    requires FieldKeyEntity(env, rec, partitionProperty, rowProperty, ignored).Ok?
    ensures KeyProperties(rec, partitionProperty, rowProperty).Ok?
    ensures var keys := KeyProperties(rec, partitionProperty, rowProperty).value;
      && IgnoredRemoved(rec, WithoutKeys(rec, keys.0, keys.1), ignored).Ok?
      && FieldKeyEntity(env, rec, partitionProperty, rowProperty, ignored).value.properties
         == Assemble(env, rec, IgnoredRemoved(rec, WithoutKeys(rec, keys.0, keys.1), ignored).value)
  {
    var keys := KeyProperties(rec, partitionProperty, rowProperty).value;
    assert FieldKeyEntity(env, rec, partitionProperty, rowProperty, ignored)
        == EntityWithKeyProperties(env, rec, keys.0, keys.1, ignored);
  }

  /**
   * With distinct property names and no name that is another's `<Name>Json`,
   * every property that is neither a key property nor ignored is stored, as
   * its encoded entry.
   */
  lemma OtherPropertiesStored(env: Externals, rec: Record, partitionProperty: string, rowProperty: string,
                              ignored: seq<string>, i: nat)
    requires DistinctNames(rec) && NoJsonClash(rec)
    requires FieldKeyEntity(env, rec, partitionProperty, rowProperty, ignored).Ok?
    requires i < |rec| && rec[i].name != partitionProperty && rec[i].name != rowProperty && rec[i].name !in ignored
    ensures var bag := FieldKeyEntity(env, rec, partitionProperty, rowProperty, ignored).value.properties;
      Encode(env, rec[i]).0 in bag && bag[Encode(env, rec[i]).0] == Encode(env, rec[i]).1
  {
    var keys := KeyProperties(rec, partitionProperty, rowProperty).value;
    var p, q := keys.0, keys.1;
    assert p in Named(rec, AllProperties(rec), partitionProperty);
    assert q in Named(rec, AllProperties(rec), rowProperty);
    var withoutKeys := WithoutKeys(rec, p, q);
    FieldKeyEntityParts(env, rec, partitionProperty, rowProperty, ignored);
    var props := IgnoredRemoved(rec, withoutKeys, ignored).value;
    assert i in props by {
      IgnoredRemovedMeaning(rec, withoutKeys, ignored);
    }
    AssembleEntry(env, rec, props, i);
  }

  /** Under derived keys, a missing partition property is an ArgumentException, and nothing else is. */
  lemma MissingPartitionProperty(env: Externals, rec: Record, partitionProperty: string, rowProperty: string,
                                 ignored: seq<string>)
    ensures FieldKeyEntity(env, rec, partitionProperty, rowProperty, ignored) == Err(ArgumentError("partitionProperty"))
      <==> forall i :: 0 <= i < |rec| ==> rec[i].name != partitionProperty
  {
  }

  /**
   * Under derived keys, a missing row property is an ArgumentException once
   * the partition property has been found, and nothing else is.
   */
  lemma MissingRowProperty(env: Externals, rec: Record, partitionProperty: string, rowProperty: string,
                           ignored: seq<string>)
    ensures FieldKeyEntity(env, rec, partitionProperty, rowProperty, ignored) == Err(ArgumentError("rowProperty"))
      <==> |Named(rec, AllProperties(rec), partitionProperty)| == 1
           && forall i :: 0 <= i < |rec| ==> rec[i].name != rowProperty
  {
  }

  /**
   * A null value in a key property fails at ToString(), once both key
   * properties were found and the ignore list was applied; and a null key
   * value is the only source of that failure.
   */
  lemma NullKeyValue(env: Externals, rec: Record, partitionProperty: string, rowProperty: string,
                     ignored: seq<string>, p: nat, q: nat)
    requires p < |rec| && q < |rec|
    requires Named(rec, AllProperties(rec), partitionProperty) == [p]
    requires Named(rec, AllProperties(rec), rowProperty) == [q]
    requires forall n :: n in ignored ==> |Named(rec, AllProperties(rec), n)| <= 1
    ensures FieldKeyEntity(env, rec, partitionProperty, rowProperty, ignored) == Err(NullReference)
      <==> rec[p].value.Null? || rec[q].value.Null?
  {
    var all := AllProperties(rec);
    assert KeyProperties(rec, partitionProperty, rowProperty) == Ok((p, q));
    RemoveKeepsRefs(rec, all, p);
    var withoutKeys := WithoutKeys(rec, p, q);
    assert withoutKeys == Remove(Remove(all, p), q);
    forall n | n in ignored ensures |Named(rec, withoutKeys, n)| <= 1 {
      NamedRemove(rec, all, p, n);
      NamedRemove(rec, Remove(all, p), q, n);
    }
    IgnoredRemovedMeaning(rec, withoutKeys, ignored);
    assert IgnoredRemoved(rec, withoutKeys, ignored).Ok?;
  }

  /** Ignoring a key property is a no-op: it has already left the list. */
  lemma IgnoringKeyPropertyIsNoOp(env: Externals, rec: Record, partitionProperty: string, rowProperty: string,
                                  ignored: seq<string>)
    ensures FieldKeyEntity(env, rec, partitionProperty, rowProperty, ignored + [partitionProperty])
         == FieldKeyEntity(env, rec, partitionProperty, rowProperty, ignored)
    ensures FieldKeyEntity(env, rec, partitionProperty, rowProperty, ignored + [rowProperty])
         == FieldKeyEntity(env, rec, partitionProperty, rowProperty, ignored)
  {
    var keys := KeyProperties(rec, partitionProperty, rowProperty);
    if keys.Ok? {
      var p, q := keys.value.0, keys.value.1;
      assert p in Named(rec, AllProperties(rec), partitionProperty);
      assert q in Named(rec, AllProperties(rec), rowProperty);
      forall i | i in WithoutKeys(rec, p, q) ensures rec[i].name != partitionProperty && rec[i].name != rowProperty {
        SingleNamed(rec, AllProperties(rec), partitionProperty, p, i);
        SingleNamed(rec, AllProperties(rec), rowProperty, q, i);
      }
      IgnoringOtherName(env, rec, p, q, ignored, partitionProperty);
      IgnoringOtherName(env, rec, p, q, ignored, rowProperty);
    }
  }

  /** Once the key properties are known, ignoring a name none of the others carries changes nothing. */
  lemma IgnoringOtherName(env: Externals, rec: Record, p: nat, q: nat, ignored: seq<string>, n: string)
    requires p < |rec| && q < |rec|
    requires forall i :: i in WithoutKeys(rec, p, q) ==> rec[i].name != n
    ensures EntityWithKeyProperties(env, rec, p, q, ignored + [n]) == EntityWithKeyProperties(env, rec, p, q, ignored)
  {
    IgnoreAbsentName(rec, WithoutKeys(rec, p, q), ignored, n);
  }

  /** With literal keys, the row carries exactly the given keys and only entries of properties not ignored. */
  lemma LiteralKeyEntityShape(env: Externals, rec: Record, partitionKey: string, rowKey: string, ignored: seq<string>)
    requires LiteralKeyEntity(env, rec, partitionKey, rowKey, ignored).Ok?
    ensures var row := LiteralKeyEntity(env, rec, partitionKey, rowKey, ignored).value;
      && row.partitionKey == partitionKey && row.rowKey == rowKey
      && |row.properties| <= |rec|
      && forall name :: name in row.properties ==>
           exists i :: 0 <= i < |rec| && Encode(env, rec[i]).0 == name && rec[i].name !in ignored
  {
    var props := IgnoredRemoved(rec, AllProperties(rec), ignored).value;
    IgnoredRemovedMeaning(rec, AllProperties(rec), ignored);
    AssembleSize(env, rec, props);
    forall name | name in Assemble(env, rec, props)
      ensures exists i :: (0 <= i < |rec| && Encode(env, rec[i]).0 == name && rec[i].name !in ignored)
    {
      AssembleKeys(env, rec, props, name);
      var j :| 0 <= j < |props| && Encode(env, rec[props[j]]).0 == name;
      assert props[j] in props;
    }
  }

  /** Ignoring a name no property carries is a silent no-op. */
  lemma IgnoringUnknownNameIsNoOp(env: Externals, rec: Record, partitionKey: string, rowKey: string,
                                  ignored: seq<string>, n: string)
    requires forall i :: 0 <= i < |rec| ==> rec[i].name != n
    ensures LiteralKeyEntity(env, rec, partitionKey, rowKey, ignored + [n])
         == LiteralKeyEntity(env, rec, partitionKey, rowKey, ignored)
  {
    IgnoreAbsentName(rec, AllProperties(rec), ignored, n);
  }

  /** On decode, a missing partition property named together with a converter is an ArgumentException. */
  lemma DecodeMissingPartitionProperty(env: Externals, entity: Row, blank: Record,
                                       partitionProperty: Option<string>, convertPartitionKey: Option<KeyConverter>,
                                       rowProperty: Option<string>, convertRowKey: Option<KeyConverter>)
    requires partitionProperty.Some? && convertPartitionKey.Some?
    requires forall i :: 0 <= i < |blank| ==> blank[i].name != partitionProperty.value
    ensures RecordFrom(env, entity, blank, partitionProperty, convertPartitionKey, rowProperty, convertRowKey)
         == Err(ArgumentError("partitionProperty"))
  {
  }

  /**
   * On decode, a missing row property named together with a converter is an
   * ArgumentException, whether the partition key is left alone or written
   * back into a property of its own.
   */
  lemma DecodeMissingRowProperty(env: Externals, entity: Row, blank: Record,
                                 partitionProperty: Option<string>, convertPartitionKey: Option<KeyConverter>,
                                 rowProperty: Option<string>, convertRowKey: Option<KeyConverter>)
    requires partitionProperty.Some? && convertPartitionKey.Some? ==>
      |Named(blank, AllProperties(blank), partitionProperty.value)| == 1
      && convertPartitionKey.value(entity.partitionKey).Ok?
    requires rowProperty.Some? && convertRowKey.Some?
    requires forall i :: 0 <= i < |blank| ==> blank[i].name != rowProperty.value
    ensures RecordFrom(env, entity, blank, partitionProperty, convertPartitionKey, rowProperty, convertRowKey)
         == Err(ArgumentError("rowProperty"))
  {
    var all := AllProperties(blank);
    var first := AssignKey(blank, all, partitionProperty, convertPartitionKey, entity.partitionKey, "partitionProperty");
    if partitionProperty.Some? && convertPartitionKey.Some? {
      var p := Named(blank, all, partitionProperty.value)[0];
      NamedMembers(blank, all, partitionProperty.value);
      assert p in Named(blank, all, partitionProperty.value);
      AssignKeyFound(blank, all, partitionProperty.value, convertPartitionKey.value, entity.partitionKey,
                     "partitionProperty", p, convertPartitionKey.value(entity.partitionKey).value);
    }
    assert first.Ok? && |first.value.0| == |blank|;
    forall i | i in first.value.1 ensures first.value.0[i].name != rowProperty.value {
    }
  }

  /**
   * A key given without its converter, or a converter without its property,
   * is not written back: decoding is as if neither were given.
   */
  lemma UnmappedKeyIsSkipped(env: Externals, entity: Row, blank: Record,
                             partitionProperty: Option<string>, convertPartitionKey: Option<KeyConverter>,
                             rowProperty: Option<string>, convertRowKey: Option<KeyConverter>)
    requires partitionProperty.None? || convertPartitionKey.None?
    ensures RecordFrom(env, entity, blank, partitionProperty, convertPartitionKey, rowProperty, convertRowKey)
         == RecordFrom(env, entity, blank, None, None, rowProperty, convertRowKey)
  {
  }

  /** The same for the row key: without both its property and its converter it is not written back. */
  lemma UnmappedRowKeyIsSkipped(env: Externals, entity: Row, blank: Record,
                                partitionProperty: Option<string>, convertPartitionKey: Option<KeyConverter>,
                                rowProperty: Option<string>, convertRowKey: Option<KeyConverter>)
    requires rowProperty.None? || convertRowKey.None?
    ensures RecordFrom(env, entity, blank, partitionProperty, convertPartitionKey, rowProperty, convertRowKey)
         == RecordFrom(env, entity, blank, partitionProperty, convertPartitionKey, None, None)
  {
  }

  /**
   * Writing one key back changes no name or type, and changes only a property
   * it takes off the list; what remains on the list was on it and is untouched.
   */
  lemma AssignKeyKeeps(rec: Record, props: seq<nat>, name: Option<string>, convert: Option<KeyConverter>,
                       key: string, param: string)
    requires Refs(rec, props) && Distinct(props)
    requires AssignKey(rec, props, name, convert, key, param).Ok?
    ensures var (o, rest) := AssignKey(rec, props, name, convert, key, param).value;
      && (forall i :: 0 <= i < |rec| ==> o[i].name == rec[i].name && o[i].decl == rec[i].decl)
      && (forall i :: 0 <= i < |rec| && o[i] != rec[i] ==> i in props && i !in rest)
      && (forall i :: i in rest ==> i in props)
  {
    if name.Some? && convert.Some? {
      var j := Named(rec, props, name.value)[0];
      NamedMembers(rec, props, name.value);
      assert j in Named(rec, props, name.value);
      AssignKeyFound(rec, props, name.value, convert.value, key, param, j, convert.value(key).value);
    }
  }

  /**
   * A partition key written back on decode holds the converted key, whatever
   * the row key does and whatever entry the row has under that property's
   * name: the property is not filled from the bag.
   */
  lemma DecodedPartitionKeyHoldsConvertedKey(env: Externals, entity: Row, blank: Record, name: string,
                                             convert: KeyConverter, p: nat,
                                             rowProperty: Option<string>, convertRowKey: Option<KeyConverter>)
    requires p < |blank| && Named(blank, AllProperties(blank), name) == [p]
    requires convert(entity.partitionKey).Ok?
    ensures var r := RecordFrom(env, entity, blank, Some(name), Some(convert), rowProperty, convertRowKey);
      r.Ok? ==> r.value[p] == blank[p].(value := convert(entity.partitionKey).value)
  {
    var all := AllProperties(blank);
    var o := blank[p := blank[p].(value := convert(entity.partitionKey).value)];
    AssignKeyFound(blank, all, name, convert, entity.partitionKey, "partitionProperty", p,
                   convert(entity.partitionKey).value);
    RemoveKeepsRefs(blank, all, p);
    var props := Remove(all, p);
    var second := AssignKey(o, props, rowProperty, convertRowKey, entity.rowKey, "rowProperty");
    if second.Ok? {
      var o2, props2 := second.value.0, second.value.1;
      AssignKeyKeeps(o, props, rowProperty, convertRowKey, entity.rowKey, "rowProperty");
      assert o2[p] == o[p] && p !in props2;
      assert RecordFrom(env, entity, blank, Some(name), Some(convert), rowProperty, convertRowKey)
          == Fill(env, entity, o2, props2);
      FillPointwise(env, entity, o2, props2);
    }
  }

  /**
   * A row key written back on decode holds the converted key, whatever the
   * partition key does: the partition lookup cannot take the row property's
   * place, and the property is not filled from the bag.
   */
  lemma DecodedRowKeyHoldsConvertedKey(env: Externals, entity: Row, blank: Record,
                                       partitionProperty: Option<string>, convertPartitionKey: Option<KeyConverter>,
                                       name: string, convert: KeyConverter, q: nat)
    requires q < |blank| && Named(blank, AllProperties(blank), name) == [q]
    requires convert(entity.rowKey).Ok?
    ensures var r := RecordFrom(env, entity, blank, partitionProperty, convertPartitionKey, Some(name), Some(convert));
      r.Ok? ==> r.value[q] == blank[q].(value := convert(entity.rowKey).value)
  {
    var r := RecordFrom(env, entity, blank, partitionProperty, convertPartitionKey, Some(name), Some(convert));
    if r.Ok? {
      var all := AllProperties(blank);
      RecordFromParts(env, entity, blank, partitionProperty, convertPartitionKey, Some(name), Some(convert));
      var first := AssignKey(blank, all, partitionProperty, convertPartitionKey, entity.partitionKey, "partitionProperty");
      var o, props := first.value.0, first.value.1;
      AssignKeyKeeps(blank, all, partitionProperty, convertPartitionKey, entity.partitionKey, "partitionProperty");
      var j := Named(o, props, name)[0];
      assert q in props && o[q] == blank[q] && Named(o, props, name) == [q] by {
        NamedMembers(o, props, name);
        assert j in Named(o, props, name);
        NamedMembers(blank, all, name);
        assert j in Named(blank, all, name);
      }
      RowKeyWritten(env, entity, o, props, name, convert, q);
      var second := AssignKey(o, props, Some(name), Some(convert), entity.rowKey, "rowProperty").value;
      FillPointwise(env, entity, second.0, second.1);
    }
  }

  /** A successful decode passed both key steps and is the fill of what they left. */
  lemma RecordFromParts(env: Externals, entity: Row, blank: Record,
                        partitionProperty: Option<string>, convertPartitionKey: Option<KeyConverter>,
                        rowProperty: Option<string>, convertRowKey: Option<KeyConverter>)
    requires RecordFrom(env, entity, blank, partitionProperty, convertPartitionKey, rowProperty, convertRowKey).Ok?
    ensures var first := AssignKey(blank, AllProperties(blank), partitionProperty, convertPartitionKey,
                                   entity.partitionKey, "partitionProperty");
      && first.Ok? && Distinct(first.value.1)
      && var second := AssignKey(first.value.0, first.value.1, rowProperty, convertRowKey, entity.rowKey, "rowProperty");
      && second.Ok? && Distinct(second.value.1)
      && RecordFrom(env, entity, blank, partitionProperty, convertPartitionKey, rowProperty, convertRowKey)
         == Fill(env, entity, second.value.0, second.value.1)
  {
  }

  /** The row-key step and the fill, once the row property `q` is known to be on the list. */
  lemma RowKeyWritten(env: Externals, entity: Row, o: Record, props: seq<nat>, name: string, convert: KeyConverter, q: nat)
    requires Refs(o, props) && Distinct(props) && q in props && Named(o, props, name) == [q]
    requires convert(entity.rowKey).Ok?
    ensures var r := AssignKey(o, props, Some(name), Some(convert), entity.rowKey, "rowProperty");
      r.Ok? && Refs(r.value.0, r.value.1) && q !in r.value.1
      && r.value.0[q] == o[q].(value := convert(entity.rowKey).value)
  {
    AssignKeyFound(o, props, name, convert, entity.rowKey, "rowProperty", q, convert(entity.rowKey).value);
  }

  /**
   * Reading both keys into the same property fails: the partition key takes
   * the property out of the list, so the row key's lookup finds nothing.
   * (Writing a row with one property as both keys succeeds.)
   */
  lemma SameKeyPropertyFails(env: Externals, entity: Row, blank: Record, name: string,
                             convertPartitionKey: KeyConverter, convertRowKey: KeyConverter, p: nat)
    requires p < |blank| && Named(blank, AllProperties(blank), name) == [p]
    requires convertPartitionKey(entity.partitionKey).Ok?
    ensures RecordFrom(env, entity, blank, Some(name), Some(convertPartitionKey), Some(name), Some(convertRowKey))
         == Err(ArgumentError("rowProperty"))
  {
    var all := AllProperties(blank);
    var o := blank[p := blank[p].(value := convertPartitionKey(entity.partitionKey).value)];
    RemoveKeepsRefs(blank, all, p);
    var props := Remove(all, p);
    forall i | i in props ensures o[i].name != name {
      assert i in all && i != p;
      SingleNamed(blank, all, name, p, i);
    }
  }

  /** The default converters: Guid.Parse for a Guid key, Convert.ChangeType otherwise. */
  lemma DefaultConverterChoice(env: Externals, keyType: DeclType, text: string)
    ensures keyType == ScalarType(GuidKind, false) ==>
      (DefaultConverter(env, keyType)(text).Ok? <==> env.parseGuid(text).Ok?)
      && (env.parseGuid(text).Ok? ==> DefaultConverter(env, keyType)(text) == Ok(Native(Guid(env.parseGuid(text).value))))
    ensures keyType != ScalarType(GuidKind, false) ==> DefaultConverter(env, keyType)(text) == env.changeType(text, keyType)
  {
  }
}
