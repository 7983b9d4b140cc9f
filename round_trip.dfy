/**
 * Round trips: a record written to a row and read back into a new record of
 * the same type is the record again, with literal keys and with keys taken
 * from two of its properties.
 */
module RoundTrip {
  import opened Values
  import opened Fields
  import opened Codec
  import opened Assembly
  import opened EntityConvert

  /** `blank` is a record of the same type as `rec`: same property names and declared types, in the same order. */
  predicate SameShape(blank: Record, rec: Record) {
    && |blank| == |rec|
    && forall i :: 0 <= i < |rec| ==> blank[i].name == rec[i].name && blank[i].decl == rec[i].decl
  }

  /**
   * What a record needs for its row to read back: distinct property names, no
   * property named like another's `<Name>Json`, every value of its declared
   * type, and the JSON serialiser and deserialiser agreeing on every value
   * stored as JSON.
   */
  predicate Storable(env: Externals, rec: Record) {
    && DistinctNames(rec)
    && NoJsonClash(rec)
    && forall i :: 0 <= i < |rec| ==>
         && Conforms(rec[i].decl, rec[i].value)
         && (rec[i].value.Complex? ==> env.deserialize(env.serialize(rec[i].value.obj), rec[i].decl) == Ok(rec[i].value))
  }

  /**
   * Filling the properties `props` of `o` from the bag `rec` wrote for the
   * properties `written` (among them every one in `props`) restores them, so a
   * record agreeing with `rec` elsewhere becomes `rec`.
   */
  lemma FillRestores(env: Externals, rec: Record, o: Record, props: seq<nat>, written: seq<nat>, row: Row)
    requires Storable(env, rec) && SameShape(o, rec)
    requires Refs(rec, props) && Distinct(props)
    requires Refs(rec, written) && Distinct(written) && forall i :: i in props ==> i in written
    requires row.properties == Assemble(env, rec, written)
    requires forall i :: 0 <= i < |rec| && i !in props ==> o[i] == rec[i]
    ensures Fill(env, row, o, props) == Ok(rec)
  {
    forall i | i in props ensures DecodeField(env, row, o[i]) == Ok(rec[i].value) {
      DecodeRestores(env, rec, o, written, row, i);
    }
    FillFromDecoded(env, rec, o, props, row);
  }

  /** Filling succeeds with `rec` when every listed property decodes to its value in `rec` and the others agree already. */
  lemma FillFromDecoded(env: Externals, rec: Record, o: Record, props: seq<nat>, row: Row)
    requires SameShape(o, rec) && Refs(o, props) && Distinct(props)
    requires forall i :: i in props ==> DecodeField(env, row, o[i]) == Ok(rec[i].value)
    requires forall i :: 0 <= i < |rec| && i !in props ==> o[i] == rec[i]
    ensures Fill(env, row, o, props) == Ok(rec)
  {
    FillPointwise(env, row, o, props);
    assert Fill(env, row, o, props).Ok?;
    var filled := Fill(env, row, o, props).value;
    assert |filled| == |rec|;
    forall i | 0 <= i < |rec| ensures filled[i] == rec[i] {
      if i in props {
        assert filled[i] == o[i].(value := rec[i].value);
      }
    }
    assert filled == rec;
  }

  /** A property of `o` reads back its value in `rec` from the bag `rec` wrote for a list that includes it. */
  lemma DecodeRestores(env: Externals, rec: Record, o: Record, written: seq<nat>, row: Row, i: nat)
    requires Storable(env, rec) && SameShape(o, rec)
    requires Refs(rec, written) && Distinct(written) && i in written
    requires row.properties == Assemble(env, rec, written)
    ensures DecodeField(env, row, o[i]) == Ok(rec[i].value)
  {
    AssembleEntries(env, rec, written);
    assert o[i] == rec[i].(value := o[i].value);
    DecodeEncoded(env, rec[i], row, o[i].value);
  }

  /**
   * Literal keys: a record written with `ToTableEntity(o, partitionKey,
   * rowKey)` reads back through `FromTableEntity<T>()` as the same record,
   * whatever the new record held before.
   */
  lemma LiteralKeyRoundTrip(env: Externals, rec: Record, blank: Record, partitionKey: string, rowKey: string)
    requires Storable(env, rec) && SameShape(blank, rec)
    ensures LiteralKeyEntity(env, rec, partitionKey, rowKey, []).Ok?
    ensures RecordFrom(env, LiteralKeyEntity(env, rec, partitionKey, rowKey, []).value, blank, None, None, None, None)
         == Ok(rec)
  {
    var all := AllProperties(rec);
    NothingToDrop(rec, all, []);
    assert IgnoredRemoved(rec, all, []) == Ok(all);
    var row := LiteralKeyEntity(env, rec, partitionKey, rowKey, []).value;
    assert AllProperties(blank) == all;
    FillRestores(env, rec, blank, all, all, row);
  }

  /**
   * Keys from properties: a record written with `ToTableEntity(o, p, q)` and
   * read back with `FromTableEntity(entity, p, convertPartitionKey, q,
   * convertRowKey)` is the same record, when the converters turn each key's
   * text back into the key property's value.
   */
  lemma FieldKeyRoundTrip(env: Externals, rec: Record, blank: Record, p: nat, q: nat,
                          convertPartitionKey: KeyConverter, convertRowKey: KeyConverter)
    requires Storable(env, rec) && SameShape(blank, rec)
    requires p < |rec| && q < |rec| && p != q
    requires !rec[p].value.Null? && !rec[q].value.Null?
    requires convertPartitionKey(KeyString(env, rec[p].value).value) == Ok(rec[p].value)
    requires convertRowKey(KeyString(env, rec[q].value).value) == Ok(rec[q].value)
    ensures FieldKeyEntity(env, rec, rec[p].name, rec[q].name, []).Ok?
    ensures RecordFrom(env, FieldKeyEntity(env, rec, rec[p].name, rec[q].name, []).value, blank,
                       Some(rec[p].name), Some(convertPartitionKey), Some(rec[q].name), Some(convertRowKey))
         == Ok(rec)
  {
    FieldKeyEncoded(env, rec, p, q);
    var entity := FieldKeyEntity(env, rec, rec[p].name, rec[q].name, []).value;
    var props := WithoutKeys(rec, p, q);
    KeyedRowRestores(env, rec, blank, p, q, convertPartitionKey, convertRowKey, entity, props);
  }

  /**
   * A row whose bag `rec` wrote for a list `written` holding every property
   * but `p` and `q` reads back as `rec` when the two keys are converted back
   * into the values of `p` and `q`.
   */
  lemma KeyedRowRestores(env: Externals, rec: Record, blank: Record, p: nat, q: nat,
                         convertPartitionKey: KeyConverter, convertRowKey: KeyConverter, entity: Row, written: seq<nat>)
    requires Storable(env, rec) && SameShape(blank, rec)
    requires p < |rec| && q < |rec| && p != q
    requires convertPartitionKey(entity.partitionKey) == Ok(rec[p].value)
    requires convertRowKey(entity.rowKey) == Ok(rec[q].value)
    requires Refs(rec, written) && Distinct(written)
    requires forall i :: 0 <= i < |rec| && i != p && i != q ==> i in written
    requires entity.properties == Assemble(env, rec, written)
    ensures RecordFrom(env, entity, blank, Some(rec[p].name), Some(convertPartitionKey), Some(rec[q].name), Some(convertRowKey))
         == Ok(rec)
  {
    var props := WithoutKeys(rec, p, q);
    var afterRow := blank[p := blank[p].(value := rec[p].value)][q := blank[q].(value := rec[q].value)];
    KeyedDecodeOf(env, rec, blank, p, q, convertPartitionKey, convertRowKey, entity);
    KeysWrittenBack(rec, blank, p, q, props);
    FillRestores(env, rec, afterRow, props, written, entity);
  }

  /** `KeyedDecode` for a new record of the same type as `rec`, keyed by `rec`'s property names. */
  lemma KeyedDecodeOf(env: Externals, rec: Record, blank: Record, p: nat, q: nat,
                      convertPartitionKey: KeyConverter, convertRowKey: KeyConverter, entity: Row)
    requires Storable(env, rec) && SameShape(blank, rec)
    requires p < |rec| && q < |rec| && p != q
    requires convertPartitionKey(entity.partitionKey) == Ok(rec[p].value)
    requires convertRowKey(entity.rowKey) == Ok(rec[q].value)
    ensures RecordFrom(env, entity, blank, Some(rec[p].name), Some(convertPartitionKey), Some(rec[q].name), Some(convertRowKey))
         == Fill(env, entity, blank[p := blank[p].(value := rec[p].value)][q := blank[q].(value := rec[q].value)],
                 WithoutKeys(rec, p, q))
  {
    SameShapeNames(blank, rec);
    KeyedDecode(env, entity, blank, p, q, convertPartitionKey, convertRowKey, rec[p].value, rec[q].value);
    assert AllProperties(blank) == AllProperties(rec);
  }

  /**
   * Literal keys read back into two properties: a record written with
   * `ToTableEntity(o, partitionKey, rowKey)` and read back with converters
   * that turn the two key strings into the values of properties `p` and `q`
   * is the same record. The two properties are taken from the keys and left
   * out of the fill, though the row also holds them as columns.
   */
  lemma LiteralKeysReadIntoProperties(env: Externals, rec: Record, blank: Record, partitionKey: string, rowKey: string,
                                      p: nat, q: nat, convertPartitionKey: KeyConverter, convertRowKey: KeyConverter)
    requires Storable(env, rec) && SameShape(blank, rec)
    requires p < |rec| && q < |rec| && p != q
    requires convertPartitionKey(partitionKey) == Ok(rec[p].value) && convertRowKey(rowKey) == Ok(rec[q].value)
    ensures LiteralKeyEntity(env, rec, partitionKey, rowKey, []).Ok?
    ensures RecordFrom(env, LiteralKeyEntity(env, rec, partitionKey, rowKey, []).value, blank,
                       Some(rec[p].name), Some(convertPartitionKey), Some(rec[q].name), Some(convertRowKey))
         == Ok(rec)
  {
    LiteralKeyEncoded(env, rec, partitionKey, rowKey);
    var entity := LiteralKeyEntity(env, rec, partitionKey, rowKey, []).value;
    KeyedRowRestores(env, rec, blank, p, q, convertPartitionKey, convertRowKey, entity, AllProperties(rec));
  }

  /**
   * Literal keys, only the row key read back into a property (no partition
   * property or no partition converter): the record comes back, the
   * partition-side property filled from its column like any other.
   */
  lemma LiteralRowKeyReadIntoProperty(env: Externals, rec: Record, blank: Record, partitionKey: string, rowKey: string,
                                      q: nat, convertRowKey: KeyConverter)
    requires Storable(env, rec) && SameShape(blank, rec)
    requires q < |rec| && convertRowKey(rowKey) == Ok(rec[q].value)
    ensures LiteralKeyEntity(env, rec, partitionKey, rowKey, []).Ok?
    ensures RecordFrom(env, LiteralKeyEntity(env, rec, partitionKey, rowKey, []).value, blank,
                       None, None, Some(rec[q].name), Some(convertRowKey))
         == Ok(rec)
  {
    LiteralKeyEncoded(env, rec, partitionKey, rowKey);
    var entity := LiteralKeyEntity(env, rec, partitionKey, rowKey, []).value;
    RowKeyRestores(env, rec, blank, q, convertRowKey, entity);
  }

  /** Writing with literal keys and nothing ignored stores every property. */
  lemma LiteralKeyEncoded(env: Externals, rec: Record, partitionKey: string, rowKey: string)
    ensures LiteralKeyEntity(env, rec, partitionKey, rowKey, [])
         == Ok(Row(partitionKey, rowKey, Assemble(env, rec, AllProperties(rec))))
  {
    var all := AllProperties(rec);
    NothingToDrop(rec, all, []);
    assert IgnoredRemoved(rec, all, []) == Ok(all);
  }

  /**
   * A row whose bag `rec` wrote for all its properties reads back as `rec`
   * when only the row key is converted back, into the value of `q`.
   */
  lemma RowKeyRestores(env: Externals, rec: Record, blank: Record, q: nat, convertRowKey: KeyConverter, entity: Row)
    requires Storable(env, rec) && SameShape(blank, rec)
    requires q < |rec| && convertRowKey(entity.rowKey) == Ok(rec[q].value)
    requires entity.properties == Assemble(env, rec, AllProperties(rec))
    ensures RecordFrom(env, entity, blank, None, None, Some(rec[q].name), Some(convertRowKey)) == Ok(rec)
  {
    var all := AllProperties(rec);
    var afterRow := blank[q := blank[q].(value := rec[q].value)];
    RemoveKeepsRefs(rec, all, q);
    var props := Remove(all, q);
    SameShapeNames(blank, rec);
    RowKeyDecode(env, entity, blank, q, convertRowKey, rec[q].value);
    assert AllProperties(blank) == all;
    assert afterRow[q] == rec[q];
    FillRestores(env, rec, afterRow, props, all, entity);
  }

  /** A record of the same shape as one with distinct names has distinct names too. */
  lemma SameShapeNames(blank: Record, rec: Record)
    requires SameShape(blank, rec) && DistinctNames(rec)
    ensures DistinctNames(blank)
  {
    forall i, j | 0 <= i < j < |blank| ensures blank[i].name != blank[j].name {
      assert blank[i].name == rec[i].name && blank[j].name == rec[j].name;
    }
  }

  /** A new record whose two key properties received `rec`'s key values agrees with `rec` outside the fill list. */
  lemma KeysWrittenBack(rec: Record, blank: Record, p: nat, q: nat, props: seq<nat>)
    requires SameShape(blank, rec) && p < |rec| && q < |rec|
    requires forall i :: i in props <==> 0 <= i < |rec| && i != p && i != q
    ensures var afterRow := blank[p := blank[p].(value := rec[p].value)][q := blank[q].(value := rec[q].value)];
      SameShape(afterRow, rec) && forall i :: 0 <= i < |rec| && i !in props ==> afterRow[i] == rec[i]
  {
  }

  /** Writing with two distinct, uniquely named, non-null key properties succeeds and stores every other property. */
  lemma FieldKeyEncoded(env: Externals, rec: Record, p: nat, q: nat)
    requires DistinctNames(rec) && p < |rec| && q < |rec|
    requires !rec[p].value.Null? && !rec[q].value.Null?
    ensures FieldKeyEntity(env, rec, rec[p].name, rec[q].name, [])
         == Ok(Row(KeyString(env, rec[p].value).value, KeyString(env, rec[q].value).value,
                   Assemble(env, rec, WithoutKeys(rec, p, q))))
  {
    var all := AllProperties(rec);
    NamedUnique(rec, all, p);
    NamedUnique(rec, all, q);
    assert KeyProperties(rec, rec[p].name, rec[q].name) == Ok((p, q));
    var props := WithoutKeys(rec, p, q);
    NothingToDrop(rec, props, []);
    assert IgnoredRemoved(rec, props, []) == Ok(props);
  }

  /**
   * Reading with only the row key property named, with a converter that
   * succeeds: that property receives the converted key and the others are
   * filled from the bag.
   */
  lemma RowKeyDecode(env: Externals, entity: Row, blank: Record, q: nat, convertRowKey: KeyConverter, qv: Value)
    requires DistinctNames(blank) && q < |blank| && convertRowKey(entity.rowKey) == Ok(qv)
    ensures Refs(blank, Remove(AllProperties(blank), q))
    ensures RecordFrom(env, entity, blank, None, None, Some(blank[q].name), Some(convertRowKey))
         == Fill(env, entity, blank[q := blank[q].(value := qv)], Remove(AllProperties(blank), q))
  {
    var all := AllProperties(blank);
    NamedUnique(blank, all, q);
    AssignKeyFound(blank, all, blank[q].name, convertRowKey, entity.rowKey, "rowProperty", q, qv);
    RemoveKeepsRefs(blank, all, q);
  }

  /**
   * Reading with both key properties named, each with a converter that
   * succeeds: the two key properties receive the converted keys and the
   * other properties are filled from the bag.
   */
  lemma KeyedDecode(env: Externals, entity: Row, blank: Record, p: nat, q: nat,
                    convertPartitionKey: KeyConverter, convertRowKey: KeyConverter, pv: Value, qv: Value)
    requires DistinctNames(blank) && p < |blank| && q < |blank| && p != q
    requires convertPartitionKey(entity.partitionKey) == Ok(pv) && convertRowKey(entity.rowKey) == Ok(qv)
    ensures RecordFrom(env, entity, blank, Some(blank[p].name), Some(convertPartitionKey), Some(blank[q].name), Some(convertRowKey))
         == Fill(env, entity, blank[p := blank[p].(value := pv)][q := blank[q].(value := qv)], WithoutKeys(blank, p, q))
  {
    var all := AllProperties(blank);
    NamedUnique(blank, all, p);
    AssignKeyFound(blank, all, blank[p].name, convertPartitionKey, entity.partitionKey, "partitionProperty", p, pv);
    var afterPartition := blank[p := blank[p].(value := pv)];
    RemoveKeepsRefs(blank, all, p);
    var remaining := Remove(all, p);
    assert q in remaining;
    assert DistinctNames(afterPartition);
    NamedUnique(afterPartition, remaining, q);
    AssignKeyFound(afterPartition, remaining, blank[q].name, convertRowKey, entity.rowKey, "rowProperty", q, qv);
  }
}
