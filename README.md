# EntityConvert, modelled in Dafny

This project models the entity⇄row conversion engine of
TableStorage.Abstractions.TableEntityConverters (`EntityConvert.cs`). The engine
turns a plain .NET record into an Azure Table Storage `DynamicTableEntity`,
which is a partition key, a row key and a bag of named, typed columns. It also
turns such a row back into a new record.

The modules follow the engine's parts:

- `Values` (values.dfy): the data.
  - A record is the list of its properties. Each property has a name, a declared type and a runtime value.
  - A runtime value is null, a scalar of one of the eleven kinds the encoder's type switch recognises, or any other object.
  - A row is two key strings and a `map<string, ColumnValue>`.
  - The exceptions the engine raises form the `Error` datatype. Results are `Result<T>`.
  - The library code the engine calls is a parameter, `Externals`: JSON serialise/deserialise, `Convert.ChangeType`, `Guid.Parse`, `ToString()` and the SDK's DateTime→DateTimeOffset read.
- `Fields` (fields.dfy): the working property list.
  - A `PropertyInfo` is the position of its property, so the list is a `seq<nat>`.
  - The module has `GetProperties`, `SingleOrDefault`, `List.Remove` and `RemoveIgnoredProperties`.
  - `RemoveIgnoredProperties` is a method with the source's indexed loop. It is proved against the function `IgnoredRemoved`.
- `Codec` (codec.dfy): the type switch that encodes one value (`Encode`) and the per-property read of `FillProperties` (`DecodeField`).
- `Assembly` (assembly.dfy): the two loops.
  - `CreateTableEntity` is proved against the function `Assemble`.
  - `FillProperties` is proved against the function `Fill`.
- `EntityConvert` (entity_convert.dfy): the public operations.
  - The two `ToTableEntity` overloads and the three `FromTableEntity` overloads are methods.
  - Each is proved equal to a function. The properties are proved about those functions.
- `RoundTrip` (round_trip.dfy): a record written to a row and read back into a new record of the same type is the same record, with literal keys and with keys taken from two properties. The round trip holds under these conditions:
  - The record is `Storable`: its property names are distinct, no name is another's `<Name>Json`, every value is of its declared type, and JSON reads back what it wrote for each non-scalar value.
  - When keys are read back into properties, the key converters turn the key text back into the key properties' values.
  - The two key properties are distinct. One property used as both keys does not read back (`SameKeyPropertyFails`).
  - `short` and `byte` values read back only because the model's column keeps their Int16/Byte kind (see "## Left out").
- `Scenarios` (scenarios.dfy): the unit tests' `Employee` record and what the tests assert about it.

Three behaviours of the conversion code worth stating outright:

- An ignored name that matches no property is silently skipped, not an error: `SingleOrDefault` yields null and `List.Remove(null)` removes nothing (EntityConvert.cs:245-248).
- An ignored name that matches several properties raises from `SingleOrDefault`.
- The conversion code has no `Timestamp` propagation, no property-converter overrides and no JSON settings.

## Model

| member | source | states |
|---|---|---|
| Fields.AllProperties | src/TableStorage.Abstractions.TableEntityConverters/EntityConvert.cs:233-238 | the property list holds every property of the record exactly once |
| Fields.NamedMembers | src/TableStorage.Abstractions.TableEntityConverters/EntityConvert.cs:247 | the matches of the `p.Name == name` predicate are exactly the listed properties carrying that name |
| Fields.SingleOrDefault | src/TableStorage.Abstractions.TableEntityConverters/EntityConvert.cs:26-27 | no match gives null (iff no listed property has the name); one match gives that property, which is listed and carries the name; more than one match raises, naming the name |
| Fields.Remove | src/TableStorage.Abstractions.TableEntityConverters/EntityConvert.cs:39-40 | `List.Remove` drops one occurrence of a listed property and leaves a list without it untouched; nothing else leaves and nothing is added; a list without repeats stays so |
| Fields.RemoveFirst | src/TableStorage.Abstractions.TableEntityConverters/EntityConvert.cs:39-40 | the occurrence dropped is the first one, and the rest keep their order: the list before it followed by the list after it |
| Fields.RemoveKeepsRefs | src/TableStorage.Abstractions.TableEntityConverters/EntityConvert.cs:39-40 | after a removal every entry is still a property of the record |
| Fields.NamedRemove | src/TableStorage.Abstractions.TableEntityConverters/EntityConvert.cs:39-41 | removing a property never creates a new match for a name, so a name unambiguous before stays so |
| Fields.WithoutMembers | src/TableStorage.Abstractions.TableEntityConverters/EntityConvert.cs:240-251 | dropping a set of names keeps exactly the listed properties whose name is not among them, and keeps a list without repeats free of them |
| Fields.IgnoredRemoved | src/TableStorage.Abstractions.TableEntityConverters/EntityConvert.cs:240-251 | the outcome of the ignore step is a list of the record's properties without repeats when the input had none, or an ambiguity error naming one of the ignored names |
| Fields.RemoveIgnoredProperties | src/TableStorage.Abstractions.TableEntityConverters/EntityConvert.cs:240-251 | the loop's result equals `IgnoredRemoved`: every property with an ignored name is removed, or the first ambiguous ignored name raises |
| Fields.IgnoreStepAmbiguous | src/TableStorage.Abstractions.TableEntityConverters/EntityConvert.cs:247 | a round whose name several remaining properties carry makes the whole ignore step fail with that name |
| Fields.IgnoreStepMissing | src/TableStorage.Abstractions.TableEntityConverters/EntityConvert.cs:247-248 | a round whose name no remaining property carries removes nothing (`Remove(null)` is a no-op) and raises nothing |
| Fields.IgnoreStepSingle | src/TableStorage.Abstractions.TableEntityConverters/EntityConvert.cs:247-248 | a round whose name exactly one remaining property carries removes that property, which is dropping the name |
| Fields.IgnoredRemovedMeaning | src/TableStorage.Abstractions.TableEntityConverters/EntityConvert.cs:240-251 | the ignore step fails iff some ignored name is carried by several listed properties, and the error names such a name; on success a property remains iff it was listed and its name is not ignored |
| Fields.FirstAmbiguousMeaning | src/TableStorage.Abstractions.TableEntityConverters/EntityConvert.cs:245-249 | the scan for the first ambiguous ignored name finds none iff every ignored name has at most one match, and what it finds is an ignored, ambiguous name |
| Fields.SingleNamed | src/TableStorage.Abstractions.TableEntityConverters/EntityConvert.cs:26-37 | when `SingleOrDefault` found one property, every other listed property carries another name |
| Fields.NamedUnique | src/TableStorage.Abstractions.TableEntityConverters/EntityConvert.cs:26-37 | with distinct property names, a listed property is the single match for its own name |
| Fields.IgnoreAbsentName | src/TableStorage.Abstractions.TableEntityConverters/EntityConvert.cs:247-248 | ignoring one more name that no listed property carries changes neither the result nor the error |
| Fields.NamedWithout | src/TableStorage.Abstractions.TableEntityConverters/EntityConvert.cs:245-249 | after dropping some names, a dropped name matches nothing and any other name matches what it matched before |
| Fields.NoneNamed | src/TableStorage.Abstractions.TableEntityConverters/EntityConvert.cs:247 | a name no listed property carries has no match |
| Fields.NothingToDrop | src/TableStorage.Abstractions.TableEntityConverters/EntityConvert.cs:240-251 | dropping names that no listed property carries leaves the list as it is |
| Fields.RemoveSingleMatch | src/TableStorage.Abstractions.TableEntityConverters/EntityConvert.cs:247-248 | removing the single property named `n` gives the same list as dropping the name `n` |
| Codec.JsonName | src/TableStorage.Abstractions.TableEntityConverters/EntityConvert.cs:224 | the JSON column name is the property name followed by four more characters, so it is never the property's own name |
| Codec.JsonNameInjective | src/TableStorage.Abstractions.TableEntityConverters/EntityConvert.cs:224 | two properties with different names get different JSON column names |
| Codec.Encode | src/TableStorage.Abstractions.TableEntityConverters/EntityConvert.cs:185-228 | a value is stored under the property's own name iff it is null or a scalar, and under `<Name>Json` otherwise; the column is the null Int32 iff the value is null; a non-scalar is stored as a string |
| Codec.AsObject | src/TableStorage.Abstractions.TableEntityConverters/EntityConvert.cs:134 | `PropertyAsObject` is null exactly for the null column and never yields a non-scalar object |
| Codec.Accessor | src/TableStorage.Abstractions.TableEntityConverters/EntityConvert.cs:137-160 | a typed getter is chosen exactly for the declared types DateTimeOffset, DateTimeOffset?, double, int, long and Guid, and it is the getter of that kind |
| Codec.ReadAs | src/TableStorage.Abstractions.TableEntityConverters/EntityConvert.cs:139-159 | a typed getter returns a column of its own kind unchanged and yields only values of its kind; `DateTimeOffsetValue` also reads a DateTime column (through the SDK's conversion); any other column fails with a wrong-type error for that kind |
| Codec.DecodeField | src/TableStorage.Abstractions.TableEntityConverters/EntityConvert.cs:132-172 | one iteration of `FillProperties` fails only with a wrong column type or, when the property has no own-name entry but a `<Name>Json` entry, from the JSON read; its cases are the rows `OwnNameWins`, `JsonEntryRead`, `MissingEntryKeepsValue` and `TypedGetterUsed` |
| Codec.StringValue | src/TableStorage.Abstractions.TableEntityConverters/EntityConvert.cs:166 | `StringValue` is null exactly for the null column and fails exactly on a non-string column |
| Codec.OwnNameWins | src/TableStorage.Abstractions.TableEntityConverters/EntityConvert.cs:132-163 | with an entry under its own name, a property's read ignores any `<Name>Json` entry and its own previous value, and a null entry reads as null |
| Codec.JsonEntryRead | src/TableStorage.Abstractions.TableEntityConverters/EntityConvert.cs:164-172 | with only a `<Name>Json` entry, a null string assigns nothing, a string is deserialised into the declared type, and a non-string column fails |
| Codec.MissingEntryKeepsValue | src/TableStorage.Abstractions.TableEntityConverters/EntityConvert.cs:132-172 | with neither entry the property keeps its default value |
| Codec.TypedGetterUsed | src/TableStorage.Abstractions.TableEntityConverters/EntityConvert.cs:137-160 | for those declared types a non-null own-name entry is read through the typed getter, and a successful read has the declared kind |
| Codec.DecodeEncoded | src/TableStorage.Abstractions.TableEntityConverters/EntityConvert.cs:137-172 | the entry `Encode` writes for a value of the declared type reads back as that value, whatever the property held before (for a non-scalar, given that JSON reads back what it wrote) |
| Assembly.Assemble | src/TableStorage.Abstractions.TableEntityConverters/EntityConvert.cs:180-229 | definition of the bag `CreateTableEntity` builds: one assignment per listed property, in list order; its properties are the rows `AssembleKeys`, `AssembleLastWins`, `AssembleSize`, `AssembleEntries`, `AssembleEntry` and `AssembleAbsent` |
| Assembly.CreateTableEntity | src/TableStorage.Abstractions.TableEntityConverters/EntityConvert.cs:176-231 | the loop's row has the given keys and the bag of one assignment per listed property in list order (`Assemble`) |
| Assembly.AssembleKeys | src/TableStorage.Abstractions.TableEntityConverters/EntityConvert.cs:180-229 | a name is in the bag iff some listed property's entry name is that name |
| Assembly.AssembleLastWins | src/TableStorage.Abstractions.TableEntityConverters/EntityConvert.cs:228 | an entry name holds the column of the last listed property that writes it |
| Assembly.AssembleSize | src/TableStorage.Abstractions.TableEntityConverters/EntityConvert.cs:180-229 | the bag has at most as many entries as listed properties |
| Assembly.EntryNameOf | src/TableStorage.Abstractions.TableEntityConverters/EntityConvert.cs:182-228 | with distinct names and no name equal to another's `<Name>Json`, two properties write different entry names, and a property's own name or JSON name is written by that property alone |
| Assembly.AssembleEntries | src/TableStorage.Abstractions.TableEntityConverters/EntityConvert.cs:180-229 | under those naming conditions every listed property's entry is in the bag as encoded, and a property's own name (or `<Name>Json`) is present iff it is listed and stored under that name |
| Assembly.AssembleEntry | src/TableStorage.Abstractions.TableEntityConverters/EntityConvert.cs:228 | under those naming conditions a listed property's entry is in the bag exactly as encoded |
| Assembly.AssembleAbsent | src/TableStorage.Abstractions.TableEntityConverters/EntityConvert.cs:180-229 | under those naming conditions a property left out of the list is stored neither under its own name nor as `<Name>Json` |
| Assembly.Fill | src/TableStorage.Abstractions.TableEntityConverters/EntityConvert.cs:128-174 | filling keeps the record's shape (same number of properties) |
| Assembly.FillProperties | src/TableStorage.Abstractions.TableEntityConverters/EntityConvert.cs:128-174 | the loop's result equals `Fill`: each listed property in turn receives its decoded value, and the first failing read aborts |
| Assembly.FillPointwise | src/TableStorage.Abstractions.TableEntityConverters/EntityConvert.cs:130-173 | on a list without repeats, filling succeeds iff every listed property decodes; then each listed property holds its decoded value and every other property is unchanged |
| EntityConvert.KeyString | src/TableStorage.Abstractions.TableEntityConverters/EntityConvert.cs:43-44 | `ToString()` of a key value fails iff the value is null, with a null reference; a string is its own text |
| EntityConvert.LiteralKeyEntity | src/TableStorage.Abstractions.TableEntityConverters/EntityConvert.cs:13-19 | the literal-key conversion's row carries exactly the given keys, and it fails only with an ambiguous ignored name |
| EntityConvert.FieldKeyEntity | src/TableStorage.Abstractions.TableEntityConverters/EntityConvert.cs:21-47 | the derived-key conversion fails only with `ArgumentException("partitionProperty")`, `ArgumentException("rowProperty")`, a null reference, or an ambiguous name that is a key name or an ignored name |
| EntityConvert.KeyProperties | src/TableStorage.Abstractions.TableEntityConverters/EntityConvert.cs:26-37 | on success both key properties are found, each the single property of its name; a missing partition property raises `ArgumentException("partitionProperty")` iff no property has that name; a missing row property raises `ArgumentException("rowProperty")` iff the partition property was found and no property has the row name |
| EntityConvert.WithoutKeys | src/TableStorage.Abstractions.TableEntityConverters/EntityConvert.cs:39-40 | after the two removals the list holds every property except the two key properties, each once |
| EntityConvert.EntityWithKeyProperties | src/TableStorage.Abstractions.TableEntityConverters/EntityConvert.cs:39-46 | once the key properties are known, the only possible failures are an ambiguous ignored name and a null key value |
| EntityConvert.AssignKey | src/TableStorage.Abstractions.TableEntityConverters/EntityConvert.cs:78-99 | writing one key back: without both a property name and a converter nothing happens; with both, no property of that name raises `ArgumentException(param)`, several raise the ambiguity, a failing converter's error propagates, and success means one match and a converted key; the record keeps its shape and the list stays well formed and without repeats |
| EntityConvert.AssignKeyKeeps | src/TableStorage.Abstractions.TableEntityConverters/EntityConvert.cs:78-99 | a key step changes no name or type, changes only a property it takes off the list, and leaves only properties that were on it |
| EntityConvert.AssignKeyFound | src/TableStorage.Abstractions.TableEntityConverters/EntityConvert.cs:80-87 | a key property found once, with a converter that succeeds, receives the converted key and leaves the list |
| EntityConvert.RecordFrom | src/TableStorage.Abstractions.TableEntityConverters/EntityConvert.cs:68-102 | the decoded record has the new record's shape, and with neither key mapped (name and converter both given) it is the fill of every property |
| EntityConvert.RecordFromParts | src/TableStorage.Abstractions.TableEntityConverters/EntityConvert.cs:78-100 | a successful decode passed both key steps and is the fill of the list they left |
| EntityConvert.DefaultConverter | src/TableStorage.Abstractions.TableEntityConverters/EntityConvert.cs:53-63 | definition of the default key converters; which one is chosen is the row `DefaultConverterChoice` |
| EntityConvert.ToTableEntityWithKeys | src/TableStorage.Abstractions.TableEntityConverters/EntityConvert.cs:13-19 | the row has exactly the literal keys and the bag of every property not ignored |
| EntityConvert.ToTableEntityFromFields | src/TableStorage.Abstractions.TableEntityConverters/EntityConvert.cs:21-47 | the method computes the derived-key conversion: look up both keys, remove them, apply the ignore list, take the keys' text, build the bag |
| EntityConvert.FromTableEntityConverting | src/TableStorage.Abstractions.TableEntityConverters/EntityConvert.cs:68-102 | the method computes the decode: each key is written back only with both a name and a converter, then the rest is filled; the new record keeps the type's shape |
| EntityConvert.FromTableEntityTyped | src/TableStorage.Abstractions.TableEntityConverters/EntityConvert.cs:49-66 | the typed overload is the converting one with the default converters of the two key types |
| EntityConvert.FromTableEntity | src/TableStorage.Abstractions.TableEntityConverters/EntityConvert.cs:104-107 | with no keys written back, every property of the new record is filled from the row |
| EntityConvert.FieldKeyEntityShape | src/TableStorage.Abstractions.TableEntityConverters/EntityConvert.cs:21-47 | with derived keys, each key is the text of a property of the named name, and every entry comes from a property that is neither a key property nor ignored |
| EntityConvert.EntriesOfNonKeyProperties | src/TableStorage.Abstractions.TableEntityConverters/EntityConvert.cs:39-46 | once the key properties are known, the keys are their text and every entry comes from another, non-ignored property |
| EntityConvert.KeyAndIgnoredPropertiesNotStored | src/TableStorage.Abstractions.TableEntityConverters/EntityConvert.cs:39-46 | with distinct names, neither key property nor any ignored property is stored under its own name or its `<Name>Json` name |
| EntityConvert.FieldKeyEntityParts | src/TableStorage.Abstractions.TableEntityConverters/EntityConvert.cs:26-46 | a successful derived-key conversion found both key properties, passed the ignore step, and its bag is that of the remaining properties |
| EntityConvert.OtherPropertiesStored | src/TableStorage.Abstractions.TableEntityConverters/EntityConvert.cs:41-46 | with distinct names, every property that is neither a key property nor ignored is stored as its encoded entry |
| EntityConvert.MissingPartitionProperty | src/TableStorage.Abstractions.TableEntityConverters/EntityConvert.cs:26-31 | the derived-key conversion raises `ArgumentException("partitionProperty")` iff no property carries the partition name |
| EntityConvert.MissingRowProperty | src/TableStorage.Abstractions.TableEntityConverters/EntityConvert.cs:33-37 | it raises `ArgumentException("rowProperty")` iff the partition property was found once and no property carries the row name |
| EntityConvert.NullKeyValue | src/TableStorage.Abstractions.TableEntityConverters/EntityConvert.cs:43-44 | with both keys found and the ignore list unambiguous, the conversion fails with a null reference iff one of the key values is null |
| EntityConvert.IgnoringKeyPropertyIsNoOp | src/TableStorage.Abstractions.TableEntityConverters/EntityConvert.cs:39-41 | ignoring a key property as well changes nothing, since it has already left the list |
| EntityConvert.IgnoringOtherName | src/TableStorage.Abstractions.TableEntityConverters/EntityConvert.cs:41 | once the keys are known, ignoring a name none of the other properties carries changes nothing |
| EntityConvert.LiteralKeyEntityShape | src/TableStorage.Abstractions.TableEntityConverters/EntityConvert.cs:13-19 | with literal keys the row has exactly those keys, at most one entry per property, and only entries of properties not ignored |
| EntityConvert.IgnoringUnknownNameIsNoOp | src/TableStorage.Abstractions.TableEntityConverters/EntityConvert.cs:17 | ignoring a name no property carries is a silent no-op |
| EntityConvert.DecodeMissingPartitionProperty | src/TableStorage.Abstractions.TableEntityConverters/EntityConvert.cs:78-84 | on decode, a partition property named with a converter but absent raises `ArgumentException("partitionProperty")` |
| EntityConvert.DecodeMissingRowProperty | src/TableStorage.Abstractions.TableEntityConverters/EntityConvert.cs:78-95 | on decode, a row property named with a converter but absent raises `ArgumentException("rowProperty")`, whether the partition key is unmapped or written back into its own property |
| EntityConvert.UnmappedKeyIsSkipped | src/TableStorage.Abstractions.TableEntityConverters/EntityConvert.cs:78 | a partition key given without its converter, or a converter without its property, is not written back: decoding is as if neither were given |
| EntityConvert.UnmappedRowKeyIsSkipped | src/TableStorage.Abstractions.TableEntityConverters/EntityConvert.cs:89 | the same for the row key, whatever the partition key does |
| EntityConvert.DecodedPartitionKeyHoldsConvertedKey | src/TableStorage.Abstractions.TableEntityConverters/EntityConvert.cs:78-100 | a partition key written back holds the converted key, whatever the row key does and whatever entry the row has under that name, because the property is not filled again |
| EntityConvert.DecodedRowKeyHoldsConvertedKey | src/TableStorage.Abstractions.TableEntityConverters/EntityConvert.cs:78-100 | a row key written back holds the converted key, whatever the partition key does and whatever entry the row has under that name |
| EntityConvert.RowKeyWritten | src/TableStorage.Abstractions.TableEntityConverters/EntityConvert.cs:91-98 | a row property on the list and named once receives the converted row key and leaves the list |
| EntityConvert.SameKeyPropertyFails | src/TableStorage.Abstractions.TableEntityConverters/EntityConvert.cs:78-99 | reading both keys into the same property raises `ArgumentException("rowProperty")`, because the partition key removed it from the list |
| EntityConvert.DefaultConverterChoice | src/TableStorage.Abstractions.TableEntityConverters/EntityConvert.cs:53-63 | the default key converter is `Guid.Parse` for a Guid key and `Convert.ChangeType` to the key type otherwise |
| RoundTrip.FillRestores | src/TableStorage.Abstractions.TableEntityConverters/EntityConvert.cs:128-174 | filling the listed properties of a same-typed record from the bag `CreateTableEntity` wrote for them (and possibly others) gives the original record back |
| RoundTrip.FillFromDecoded | src/TableStorage.Abstractions.TableEntityConverters/EntityConvert.cs:128-174 | filling gives a record back when every listed property decodes to its value there and the others already agree |
| RoundTrip.DecodeRestores | src/TableStorage.Abstractions.TableEntityConverters/EntityConvert.cs:132-172 | a property reads back its value from the bag its record wrote for a list that includes it |
| RoundTrip.LiteralKeyRoundTrip | src/TableStorage.Abstractions.TableEntityConverters/EntityConvert.cs:104-107 | a storable record written with literal keys and read back by `FromTableEntity<T>()` into any new record of its type is the same record |
| RoundTrip.FieldKeyRoundTrip | src/TableStorage.Abstractions.TableEntityConverters/EntityConvert.cs:68-102 | a storable record written with keys from two of its properties and read back with converters that invert the keys' text is the same record |
| RoundTrip.KeyedRowRestores | src/TableStorage.Abstractions.TableEntityConverters/EntityConvert.cs:68-102 | a row whose bag a record wrote for at least its non-key properties reads back as that record when both keys convert back into the key properties' values |
| RoundTrip.LiteralKeysReadIntoProperties | src/TableStorage.Abstractions.TableEntityConverters/EntityConvert.cs:13-19 | a record written with literal keys and read back with converters turning the two key strings into two properties' values is the same record |
| RoundTrip.LiteralRowKeyReadIntoProperty | src/TableStorage.Abstractions.TableEntityConverters/EntityConvert.cs:89-100 | the same with only the row key read back into a property: the partition-side property is filled from its column and the record comes back |
| RoundTrip.LiteralKeyEncoded | src/TableStorage.Abstractions.TableEntityConverters/EntityConvert.cs:13-19 | with literal keys and nothing ignored, the conversion succeeds and stores every property |
| RoundTrip.RowKeyRestores | src/TableStorage.Abstractions.TableEntityConverters/EntityConvert.cs:89-100 | a row whose bag a record wrote for all its properties reads back as that record when only the row key converts back into a property |
| RoundTrip.RowKeyDecode | src/TableStorage.Abstractions.TableEntityConverters/EntityConvert.cs:89-100 | reading with only the row property named and a succeeding converter writes the converted key into it and fills the other properties from the bag |
| RoundTrip.KeysWrittenBack | src/TableStorage.Abstractions.TableEntityConverters/EntityConvert.cs:86-97 | a new record whose two key properties received the original key values agrees with the original outside the fill list |
| RoundTrip.FieldKeyEncoded | src/TableStorage.Abstractions.TableEntityConverters/EntityConvert.cs:21-47 | writing with two distinct, uniquely named, non-null key properties succeeds with their text as keys and the bag of every other property |
| RoundTrip.KeyedDecodeOf | src/TableStorage.Abstractions.TableEntityConverters/EntityConvert.cs:78-100 | the same for a new record of the record's own type, keyed by the record's property names |
| RoundTrip.KeyedDecode | src/TableStorage.Abstractions.TableEntityConverters/EntityConvert.cs:78-100 | reading with both key properties and succeeding converters writes the converted keys into them and fills the other properties from the bag |
| Scenarios.Employee | src/TableStorage.Abstractions.UnitTests/Employee.cs:12-26 | the test record has its ten properties, Company first, Id second, Department seventh |
| Scenarios.EmployeeNames | src/TableStorage.Abstractions.UnitTests/Employee.cs:12-26 | the Employee's property names are distinct, and none is another's `<Name>Json` |
| Scenarios.JsonNameEnd | src/TableStorage.Abstractions.TableEntityConverters/EntityConvert.cs:224 | every JSON column name ends in 'n' |
| Scenarios.DepartmentJsonName | src/TableStorage.Abstractions.UnitTests/EntityConvertTests.cs:30 | the Department property's JSON column is named `DepartmentJson` |
| Scenarios.ConvertToEntityTable | src/TableStorage.Abstractions.UnitTests/EntityConvertTests.cs:11-31 | keys from Company and Id: the partition key is the company, the row key the id's text, and `DepartmentJson` is in the bag |
| Scenarios.KeyPropertiesNotColumns | src/TableStorage.Abstractions.UnitTests/EntityConvertTests.cs:28 | with keys from Company and Id, neither Company nor Id is a column |
| Scenarios.UnkeyedEmployee | src/TableStorage.Abstractions.UnitTests/EntityConvertTests.cs:37-48 | the explicit-keys test's Employee has no Company and an Id of 0 |
| Scenarios.ConvertToEntityTableExplicitKeys | src/TableStorage.Abstractions.UnitTests/EntityConvertTests.cs:34-51 | literal keys "Google" and "42" become the row's keys, even with a null Company and an Id of 0 |
| Scenarios.NullCompanyKey | src/TableStorage.Abstractions.TableEntityConverters/EntityConvert.cs:43 | a null Company as partition key property fails with a null reference |
| Scenarios.ConvertFromEntityTable | src/TableStorage.Abstractions.UnitTests/EntityConvertTests.cs:54-74 | the Employee written with keys from Company and Id reads back through `FromTableEntity<Employee, string, int>` as the same Employee, given that ChangeType reads the keys back and JSON reads the Department back |
| Scenarios.ConvertFromEntityTableComplexKey | src/TableStorage.Abstractions.UnitTests/EntityConvertTests.cs:76-97 | literal keys `company_<Company>` and `employee_42`, read back with prefix-stripping converters into Company and Id, give the Employee back, Department included |
| Scenarios.ConvertFromEntityTableUnmappedPartitionKey | src/TableStorage.Abstractions.UnitTests/EntityConvertTests.cs:99-120 | the same row read back with no partition property or converter and only Id from the row key gives the Employee back, Company included from its column |
| Scenarios.EmployeeStorable | src/TableStorage.Abstractions.UnitTests/Employee.cs:12-26 | the Employee meets the round trip's conditions when JSON reads its Department back |
| Scenarios.EmployeeConforms | src/TableStorage.Abstractions.UnitTests/Employee.cs:12-26 | every Employee value is of its property's declared type |
| Scenarios.EmployeeComplexValues | src/TableStorage.Abstractions.UnitTests/Employee.cs:20 | the Department is the Employee's only value stored as JSON |

## Left out

- Reflection is not modelled: `GetProperties` and `SetValue`. A record is a list of named, typed values, and a `PropertyInfo` is a position in it.
- Expression parsing is not modelled: `GetPropertyNameFromExpression` (EntityConvert.cs:109-126). A key or ignored property is given by its name.
- JSON, `Convert.ChangeType`, `Guid.Parse`, `ToString()` of a non-string key and the SDK's DateTime-to-DateTimeOffset read are library code the model does not look inside. They are function parameters (`Externals`), and no round trip is assumed of them. The round-trip lemmas state the JSON agreement they need as a precondition.
- Assembly.FillProperties: `SetValue`'s conversions are not modelled. These are unboxing, widening and a null for a value type. The value read is stored as read.
- Assembly.FillPointwise: `SetValue` throws an ArgumentException for a value of another type than the property's. The model stores every value read, so "filling succeeds iff every listed property decodes" holds of the model and not of a read that `SetValue` would refuse.
- Fields.Remove: its own contract does not say which occurrence is dropped. The lemma `RemoveFirst` states that it is the first one and that the rest keep their order; it is kept out of `Remove`'s contract so that proofs using `Remove` do not carry it.
- Codec.Encode: how the storage SDK later stores `short` and `byte` columns is not part of this model. The column keeps the value's kind.
- Doubles, dates and Guids are opaque tokens. No floating-point or time arithmetic happens in the engine.
- The record is a value rather than a heap object. `new T()` is a record passed in as `blank`, holding the type's defaults.
- EntityConvert.EntityWithKeyProperties: its contract names only the possible error kinds. The row it builds is described by `FieldKeyEntityShape`, `OtherPropertiesStored` and `KeyAndIgnoredPropertiesNotStored`.
- Assembly.Fill: its contract states only the record's shape. What filling does is stated by `FillPointwise`, on lists without repeats, which is all the engine builds.
- `PropertyConverters.cs` is not part of this model, and neither are the `Timestamp` handling or JSON settings. Nothing in the conversion code uses them.
- The Department's inner fields (`Name`, `Id`, `OptionalId`) are inside an opaque object. The test's check of `OptionalId` after the round trip is therefore the whole Department reading back.
- Scenarios.ConvertFromEntityTableComplexKey: the keys are the texts the test's string interpolation produces (`company_<Company>`, `employee_42`). The model writes them out directly rather than rendering Id through `ToString()`.
