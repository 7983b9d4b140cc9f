/**
 * The two loops of the engine: CreateTableEntity, which writes one entry per
 * remaining property into the row's property bag, and FillProperties, which
 * reads every remaining property of a fresh record back from a row.
 */
module Assembly {
  import opened Values
  import opened Fields
  import opened Codec

  /**
   * The property bag CreateTableEntity builds: the entry of each listed
   * property, assigned in list order, so a later property writing the same
   * name replaces an earlier one.
   */
  function Assemble(env: Externals, rec: Record, props: seq<nat>): map<string, ColumnValue>
    requires Refs(rec, props)
  {
    if props == [] then map[]
    else
      var e := Encode(env, rec[props[|props| - 1]]);
      Assemble(env, rec, props[..|props| - 1])[e.0 := e.1]
  }

  /** CreateTableEntity: a row with the given keys and one assignment per listed property. */
  method CreateTableEntity(env: Externals, rec: Record, props: seq<nat>, partitionKey: string, rowKey: string)
    returns (entity: Row)
    requires Refs(rec, props)
    ensures entity == Row(partitionKey, rowKey, Assemble(env, rec, props))
  {
    entity := Row(partitionKey, rowKey, map[]);
    for k := 0 to |props|
      invariant entity == Row(partitionKey, rowKey, Assemble(env, rec, props[..k]))
    {
      var e := Encode(env, rec[props[k]]);
      assert props[..k + 1][..k] == props[..k];
      entity := entity.(properties := entity.properties[e.0 := e.1]);
    }
    assert props[..|props|] == props;
  }

  /**
   * What FillProperties makes of `rec`: each listed property in turn receives
   * the value DecodeField reads from `row`; the first failure aborts.
   */
  function Fill(env: Externals, row: Row, rec: Record, props: seq<nat>): (r: Result<Record>)
    requires Refs(rec, props)
    ensures r.Ok? ==> |r.value| == |rec|
    decreases |props|
  {
    if props == [] then Ok(rec)
    else
      var i := props[0];
      var v :- DecodeField(env, row, rec[i]);
      Fill(env, row, rec[i := rec[i].(value := v)], props[1..])
  }

  /** FillProperties: assigns each listed property of the new record `o` from the row. */
  method FillProperties(env: Externals, entity: Row, o: Record, props: seq<nat>) returns (r: Result<Record>)
    requires Refs(o, props)
    ensures r == Fill(env, entity, o, props)
  {
    var current := o;
    for k := 0 to |props|
      invariant |current| == |o| && Refs(current, props[k..])
      invariant Fill(env, entity, o, props) == Fill(env, entity, current, props[k..])
    {
      var i := props[k];
      assert props[k..][0] == i && props[k..][1..] == props[k + 1..];
      var val := DecodeField(env, entity, current[i]);
      if val.Err? {
        return Err(val.error);
      }
      current := current[i := current[i].(value := val.value)];
    }
    return Ok(current);
  }

  // ---- Lemmas ----

  /** The bag holds exactly the entry names of the listed properties. */
  lemma {:induction false} AssembleKeys(env: Externals, rec: Record, props: seq<nat>, name: string)
    requires Refs(rec, props)
    ensures name in Assemble(env, rec, props) <==>
      exists j :: 0 <= j < |props| && Encode(env, rec[props[j]]).0 == name
  {
    if props != [] {
      var n := |props| - 1;
      AssembleKeys(env, rec, props[..n], name);
      if exists j :: 0 <= j < |props| && Encode(env, rec[props[j]]).0 == name {
        var j :| 0 <= j < |props| && Encode(env, rec[props[j]]).0 == name;
        if j < n {
          assert props[..n][j] == props[j];
        }
      }
    }
  }

  /** An entry name written by several properties holds the entry of the last of them. */
  lemma {:induction false} AssembleLastWins(env: Externals, rec: Record, props: seq<nat>, j: nat)
    requires Refs(rec, props) && j < |props|
    requires forall k :: j < k < |props| ==> Encode(env, rec[props[k]]).0 != Encode(env, rec[props[j]]).0
    ensures Encode(env, rec[props[j]]).0 in Assemble(env, rec, props)
    ensures Assemble(env, rec, props)[Encode(env, rec[props[j]]).0] == Encode(env, rec[props[j]]).1
  {
    var n := |props| - 1;
    if j < n {
      assert props[..n][j] == props[j];
      forall k | j < k < |props[..n]| ensures Encode(env, rec[props[..n][k]]).0 != Encode(env, rec[props[j]]).0 {
        assert props[..n][k] == props[k];
      }
      AssembleLastWins(env, rec, props[..n], j);
    }
  }

  /** Each listed property writes one entry, so the bag has no more entries than properties. */
  lemma {:induction false} AssembleSize(env: Externals, rec: Record, props: seq<nat>)
    requires Refs(rec, props)
    ensures |Assemble(env, rec, props)| <= |props|
  {
    if props != [] {
      var n := |props| - 1;
      AssembleSize(env, rec, props[..n]);
      var m := Assemble(env, rec, props[..n]);
      var e := Encode(env, rec[props[n]]);
      assert m[e.0 := e.1].Keys == m.Keys + {e.0};
    }
  }

  /**
   * FillProperties on a list without repeats: it succeeds exactly when every
   * listed property decodes, and then each listed property holds its decoded
   * value while every other property is left as it was.
   */
  lemma {:induction false} FillPointwise(env: Externals, row: Row, rec: Record, props: seq<nat>)
    requires Refs(rec, props) && Distinct(props)
    ensures Fill(env, row, rec, props).Ok? <==> forall i :: i in props ==> DecodeField(env, row, rec[i]).Ok?
    ensures Fill(env, row, rec, props).Ok? ==>
      forall i :: 0 <= i < |rec| ==>
        Fill(env, row, rec, props).value[i] ==
          if i in props then rec[i].(value := DecodeField(env, row, rec[i]).value) else rec[i]
    decreases |props|
  {
    if props != [] {
      var i := props[0];
      DistinctTail(props);
      var v := DecodeField(env, row, rec[i]);
      if v.Ok? {
        var next := rec[i := rec[i].(value := v.value)];
        FillPointwise(env, row, next, props[1..]);
        assert forall j :: j in props[1..] ==> next[j] == rec[j];
      } else {
        assert props[0] in props;
      }
    }
  }

  /**
   * With distinct property names and no name that is another's `<Name>Json`,
   * the entry names of two properties differ, and a property's own name or
   * JSON name is written by that property alone.
   */
  lemma EntryNameOf(env: Externals, rec: Record, i: nat, j: nat)
    requires DistinctNames(rec) && NoJsonClash(rec) && i < |rec| && j < |rec|
    ensures Encode(env, rec[j]).0 == rec[i].name <==> j == i && !rec[i].value.Complex?
    ensures Encode(env, rec[j]).0 == JsonName(rec[i].name) <==> j == i && rec[i].value.Complex?
    ensures Encode(env, rec[j]).0 == Encode(env, rec[i]).0 <==> j == i
  {
    JsonNameInjective(rec[i].name, rec[j].name);
    if i < j {
      assert rec[i].name != rec[j].name;
    } else if j < i {
      assert rec[j].name != rec[i].name;
    }
  }

  /**
   * Under the same naming conditions, the bag built from a list without
   * repeats holds each listed property's entry exactly as encoded, and a
   * property's own name (or its `<Name>Json`) is present exactly when that
   * property is listed and is stored under that name.
   */
  lemma AssembleEntries(env: Externals, rec: Record, props: seq<nat>)
    requires Refs(rec, props) && Distinct(props) && DistinctNames(rec) && NoJsonClash(rec)
    ensures forall i :: i in props ==>
      Encode(env, rec[i]).0 in Assemble(env, rec, props) && Assemble(env, rec, props)[Encode(env, rec[i]).0] == Encode(env, rec[i]).1
    ensures forall i :: 0 <= i < |rec| ==>
      (rec[i].name in Assemble(env, rec, props) <==> i in props && !rec[i].value.Complex?)
    ensures forall i :: 0 <= i < |rec| ==>
      (JsonName(rec[i].name) in Assemble(env, rec, props) <==> i in props && rec[i].value.Complex?)
  {
    var bag := Assemble(env, rec, props);
    forall i | i in props
      ensures Encode(env, rec[i]).0 in bag && bag[Encode(env, rec[i]).0] == Encode(env, rec[i]).1
    {
      var j :| 0 <= j < |props| && props[j] == i;
      forall k | j < k < |props| ensures Encode(env, rec[props[k]]).0 != Encode(env, rec[props[j]]).0 {
        EntryNameOf(env, rec, i, props[k]);
      }
      AssembleLastWins(env, rec, props, j);
    }
    forall i | 0 <= i < |rec|
      ensures rec[i].name in bag <==> i in props && !rec[i].value.Complex?
      ensures JsonName(rec[i].name) in bag <==> i in props && rec[i].value.Complex?
    {
      AssembleKeys(env, rec, props, rec[i].name);
      AssembleKeys(env, rec, props, JsonName(rec[i].name));
      forall k | 0 <= k < |props|
        ensures Encode(env, rec[props[k]]).0 == rec[i].name <==> props[k] == i && !rec[i].value.Complex?
        ensures Encode(env, rec[props[k]]).0 == JsonName(rec[i].name) <==> props[k] == i && rec[i].value.Complex?
      {
        EntryNameOf(env, rec, i, props[k]);
      }
    }
  }

  /** Under the same naming conditions, one listed property's entry is in the bag exactly as encoded. */
  lemma AssembleEntry(env: Externals, rec: Record, props: seq<nat>, i: nat)
    requires Refs(rec, props) && Distinct(props) && DistinctNames(rec) && NoJsonClash(rec) && i in props
    ensures Encode(env, rec[i]).0 in Assemble(env, rec, props)
    ensures Assemble(env, rec, props)[Encode(env, rec[i]).0] == Encode(env, rec[i]).1
  {
    AssembleEntries(env, rec, props);
  }

  /** Under the same naming conditions, a property left out of the list is stored neither under its own name nor as JSON. */
  lemma AssembleAbsent(env: Externals, rec: Record, props: seq<nat>, i: nat)
    requires Refs(rec, props) && Distinct(props) && DistinctNames(rec) && NoJsonClash(rec) && i < |rec| && i !in props
    ensures rec[i].name !in Assemble(env, rec, props) && JsonName(rec[i].name) !in Assemble(env, rec, props)
  {
    AssembleEntries(env, rec, props);
  }
}
