/**
 * The unit tests' Employee record, and what converting it gives.
 */
module Scenarios {
  import opened Values
  import opened Fields
  import opened Codec
  import opened Assembly
  import opened EntityConvert
  import opened RoundTrip

  /**
   * An Employee as the tests build it: a company, an id, an external Guid, a
   * name, a hire date, a Department object, and the properties left at their
   * defaults (a null TermDate, a zero DateTime, two null nullables). The hire
   * date is midnight of 31 January 2008 in ticks; DateTimeOffset.Parse gives it
   * the machine's local offset, which is taken here as UTC.
   */
  function Employee(company: Value): (emp: Record)
    ensures |emp| == 10 && emp[0].name == "Company" && emp[1].name == "Id" && emp[6].name == "Department"
  {
    [ Field("Company", ScalarType(StringKind, false), company),
      Field("Id", ScalarType(Int32Kind, false), Native(Int32(42))),
      Field("ExternalId", ScalarType(GuidKind, false), Native(Guid(Uuid(0xe3bf64f4_0537_495c_b3bf_148259d7ed36)))),
      Field("Name", ScalarType(StringKind, false), Native(Str("John Smith"))),
      Field("HireDate", ScalarType(DateTimeOffsetKind, false), Native(DateTimeOffset(Instant(633373344000000000, 0)))),
      Field("TermDate", ScalarType(DateTimeOffsetKind, true), Null),
      Field("Department", ObjectType("Department"), Complex(Obj("Department", 1))),
      Field("ADateTime", ScalarType(DateTimeKind, false), Native(DateTime(Moment(0)))),
      Field("ANullableDateTime", ScalarType(DateTimeKind, true), Null),
      Field("ANullableInt", ScalarType(Int32Kind, true), Null) ]
  }

  /** The Employee's property names are distinct, and none is another's `<Name>Json`. */
  lemma EmployeeNames(company: Value)
    ensures DistinctNames(Employee(company)) && NoJsonClash(Employee(company))
  {
    EmployeeNamesDistinct(company);
    EmployeeNamesEnd(company);
    var emp := Employee(company);
    forall i, j | 0 <= i < |emp| && 0 <= j < |emp| ensures emp[i].name != JsonName(emp[j].name) {
      JsonNameEnd(emp[j].name);
    }
  }

  lemma EmployeeNamesDistinct(company: Value)
    ensures DistinctNames(Employee(company))
  {
  }

  lemma EmployeeNamesEnd(company: Value)
    ensures forall i :: 0 <= i < |Employee(company)| ==>
      Employee(company)[i].name != [] && Employee(company)[i].name[|Employee(company)[i].name| - 1] != 'n'
  {
  }

  /** Every `<Name>Json` ends in 'n'. */
  lemma JsonNameEnd(name: string)
    ensures JsonName(name)[|JsonName(name)| - 1] == 'n'
  {
  }

  lemma DepartmentJsonName()
    ensures JsonName("Department") == "DepartmentJson"
  {
  }

  /**
   * Keys from Company and Id: the partition key is the company, the row key
   * the text of the id, and the Department object is stored as DepartmentJson.
   */
  lemma ConvertToEntityTable(env: Externals, company: string)
    ensures var te := FieldKeyEntity(env, Employee(Native(Str(company))), "Company", "Id", []);
      && te.Ok?
      && te.value.partitionKey == company
      && te.value.rowKey == env.render(Native(Int32(42)))
      && "DepartmentJson" in te.value.properties
  {
    var emp := Employee(Native(Str(company)));
    var department := emp[6];
    assert department == Field("Department", ObjectType("Department"), Complex(Obj("Department", 1)));
    assert emp[0].value == Native(Str(company)) && emp[1].value == Native(Int32(42));
    var te := FieldKeyEntity(env, emp, "Company", "Id", []);
    assert te.Ok? && Encode(env, department).0 in te.value.properties
        && te.value.partitionKey == KeyString(env, emp[0].value).value
        && te.value.rowKey == KeyString(env, emp[1].value).value by {
      EmployeeNames(Native(Str(company)));
      FieldKeyEncoded(env, emp, 0, 1);
      OtherPropertiesStored(env, emp, "Company", "Id", [], 6);
    }
    DepartmentJsonName();
  }

  /** Keys from Company and Id: neither key property is stored as a column. */
  lemma KeyPropertiesNotColumns(env: Externals, company: string)
    ensures var te := FieldKeyEntity(env, Employee(Native(Str(company))), "Company", "Id", []);
      te.Ok? && "Company" !in te.value.properties && "Id" !in te.value.properties
  {
    ConvertToEntityTable(env, company);
    var emp := Employee(Native(Str(company)));
    EmployeeNames(Native(Str(company)));
    KeyAndIgnoredPropertiesNotStored(env, emp, "Company", "Id", [], 0);
    KeyAndIgnoredPropertiesNotStored(env, emp, "Company", "Id", [], 1);
  }

  /** The Employee of the explicit-keys test: no Company, and Id left at 0. */
  function UnkeyedEmployee(): (emp: Record)
    ensures |emp| == 10 && emp[0].value.Null? && emp[1].value == Native(Int32(0))
  {
    Employee(Null)[1 := Field("Id", ScalarType(Int32Kind, false), Native(Int32(0)))]
  }

  /** Literal keys: the partition key is the one given, even with a null Company and an Id of 0. */
  lemma ConvertToEntityTableExplicitKeys(env: Externals)
    ensures var te := LiteralKeyEntity(env, UnkeyedEmployee(), "Google", "42", []);
      te.Ok? && te.value.partitionKey == "Google" && te.value.rowKey == "42"
  {
    var emp := UnkeyedEmployee();
    NothingToDrop(emp, AllProperties(emp), []);
  }

  /** A null Company as partition key property fails at ToString(). */
  lemma NullCompanyKey(env: Externals)
    ensures FieldKeyEntity(env, Employee(Null), "Company", "Id", []) == Err(NullReference)
  {
    var emp := Employee(Null);
    var all := AllProperties(emp);
    EmployeeNames(Null);
    NamedUnique(emp, all, 0);
    NamedUnique(emp, all, 1);
    NullKeyValue(env, emp, "Company", "Id", [], 0, 1);
  }

  /**
   * `FromTableEntity<Employee, string, int>(e => e.Company, e => e.Id)` on the
   * row written with keys from Company and Id gives the Employee back, the
   * Department included, when Convert.ChangeType reads the two keys back and
   * JSON reads the Department back.
   */
  lemma ConvertFromEntityTable(env: Externals, company: string, blank: Record)
    requires SameShape(blank, Employee(Native(Str(company))))
    requires env.changeType(company, ScalarType(StringKind, false)) == Ok(Native(Str(company)))
    requires env.changeType(env.render(Native(Int32(42))), ScalarType(Int32Kind, false)) == Ok(Native(Int32(42)))
    requires env.deserialize(env.serialize(Obj("Department", 1)), ObjectType("Department")) == Ok(Complex(Obj("Department", 1)))
    ensures var te := FieldKeyEntity(env, Employee(Native(Str(company))), "Company", "Id", []);
      && te.Ok?
      && RecordFrom(env, te.value, blank,
                    Some("Company"), Some(DefaultConverter(env, ScalarType(StringKind, false))),
                    Some("Id"), Some(DefaultConverter(env, ScalarType(Int32Kind, false))))
         == Ok(Employee(Native(Str(company))))
  {
    var emp := Employee(Native(Str(company)));
    var convertPartition := DefaultConverter(env, ScalarType(StringKind, false));
    var convertRow := DefaultConverter(env, ScalarType(Int32Kind, false));
    assert emp[0].value == Native(Str(company)) && emp[1].value == Native(Int32(42));
    assert convertPartition(KeyString(env, emp[0].value).value) == Ok(emp[0].value) by {
      DefaultConverterChoice(env, ScalarType(StringKind, false), company);
    }
    assert convertRow(KeyString(env, emp[1].value).value) == Ok(emp[1].value) by {
      DefaultConverterChoice(env, ScalarType(Int32Kind, false), env.render(Native(Int32(42))));
    }
    EmployeeStorable(env, company);
    FieldKeyRoundTrip(env, emp, blank, 0, 1, convertPartition, convertRow);
  }

  /**
   * Literal keys `company_<Company>` and `employee_42`, read back with
   * converters that strip the prefixes into Company and Id: the Employee comes
   * back, the Department included, given that JSON reads the Department back.
   */
  lemma ConvertFromEntityTableComplexKey(env: Externals, company: string, blank: Record,
                                         convertPartitionKey: KeyConverter, convertRowKey: KeyConverter)
    requires SameShape(blank, Employee(Native(Str(company))))
    requires convertPartitionKey("company_" + company) == Ok(Native(Str(company)))
    requires convertRowKey("employee_42") == Ok(Native(Int32(42)))
    requires env.deserialize(env.serialize(Obj("Department", 1)), ObjectType("Department")) == Ok(Complex(Obj("Department", 1)))
    ensures var te := LiteralKeyEntity(env, Employee(Native(Str(company))), "company_" + company, "employee_42", []);
      && te.Ok?
      && RecordFrom(env, te.value, blank, Some("Company"), Some(convertPartitionKey), Some("Id"), Some(convertRowKey))
         == Ok(Employee(Native(Str(company))))
  {
    var emp := Employee(Native(Str(company)));
    assert emp[0].value == Native(Str(company)) && emp[1].value == Native(Int32(42));
    EmployeeStorable(env, company);
    LiteralKeysReadIntoProperties(env, emp, blank, "company_" + company, "employee_42", 0, 1,
                                  convertPartitionKey, convertRowKey);
  }

  /**
   * The same row read back with no partition property and no partition
   * converter: only Id is taken from a key, and the Employee still comes back,
   * Company included from its column.
   */
  lemma ConvertFromEntityTableUnmappedPartitionKey(env: Externals, company: string, blank: Record,
                                                   convertRowKey: KeyConverter)
    requires SameShape(blank, Employee(Native(Str(company))))
    requires convertRowKey("employee_42") == Ok(Native(Int32(42)))
    requires env.deserialize(env.serialize(Obj("Department", 1)), ObjectType("Department")) == Ok(Complex(Obj("Department", 1)))
    ensures var te := LiteralKeyEntity(env, Employee(Native(Str(company))), "company_" + company, "employee_42", []);
      && te.Ok?
      && RecordFrom(env, te.value, blank, None, None, Some("Id"), Some(convertRowKey))
         == Ok(Employee(Native(Str(company))))
  {
    var emp := Employee(Native(Str(company)));
    assert emp[1].value == Native(Int32(42));
    EmployeeStorable(env, company);
    LiteralRowKeyReadIntoProperty(env, emp, blank, "company_" + company, "employee_42", 1, convertRowKey);
  }

  /** The Employee reads back from its row, given that JSON reads its Department back. */
  lemma EmployeeStorable(env: Externals, company: string)
    requires env.deserialize(env.serialize(Obj("Department", 1)), ObjectType("Department")) == Ok(Complex(Obj("Department", 1)))
    ensures Storable(env, Employee(Native(Str(company))))
  {
    var emp := Employee(Native(Str(company)));
    EmployeeNames(Native(Str(company)));
    EmployeeConforms(company);
    EmployeeComplexValues(company);
    assert emp[6].value == Complex(Obj("Department", 1)) && emp[6].decl == ObjectType("Department");
  }

  /** Every Employee value is of its property's declared type. */
  lemma EmployeeConforms(company: string)
    ensures forall i :: 0 <= i < |Employee(Native(Str(company)))| ==>
      Conforms(Employee(Native(Str(company)))[i].decl, Employee(Native(Str(company)))[i].value)
  {
  }

  /** The Department is the Employee's only value stored as JSON. */
  lemma EmployeeComplexValues(company: string)
    ensures forall i :: 0 <= i < |Employee(Native(Str(company)))| && Employee(Native(Str(company)))[i].value.Complex? ==> i == 6
  {
  }
}
