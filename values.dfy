/** The values the conversion engine moves between plain records and table rows. */
module Values {

  /** The .NET integer types the engine stores natively, as bounded integers. */
  newtype uint8 = x: int | 0 <= x < 0x100
  newtype int16 = x: int | -0x8000 <= x < 0x8000
  newtype int32 = x: int | -0x8000_0000 <= x < 0x8000_0000
  newtype int64 = x: int | -0x8000_0000_0000_0000 <= x < 0x8000_0000_0000_0000

  /** A double, kept as its IEEE 754 bit pattern: the engine copies doubles and never computes with them. */
  datatype Float64 = Float64(bits: bv64)
  /** A DateTime, kept as its tick count. */
  datatype Moment = Moment(ticks: int)
  /** A DateTimeOffset, kept as its tick count and its offset from UTC in minutes. */
  datatype Instant = Instant(ticks: int, offsetMinutes: int)
  /** A Guid, kept as its 128 bits. */
  datatype Uuid = Uuid(bits: bv128)
  /** A runtime object outside the scalar set (a nested record, a list, an enum value, ...). */
  datatype Obj = Obj(typeName: string, id: nat)

  /** The scalar types an EntityProperty can be built from, in the order the encoder tests them. */
  datatype Kind =
    | Int32Kind | Int16Kind | ByteKind | StringKind | DoubleKind | DateTimeKind
    | DateTimeOffsetKind | BoolKind | BytesKind | Int64Kind | GuidKind

  /** A non-null value of one of the scalar kinds. */
  datatype Scalar =
    | Int32(i32: int32)
    | Int16(i16: int16)
    | Byte(u8: uint8)
    | Str(text: string)
    | Double(f64: Float64)
    | DateTime(moment: Moment)
    | DateTimeOffset(instant: Instant)
    | Bool(flag: bool)
    | Bytes(bytes: seq<uint8>)
    | Int64(i64: int64)
    | Guid(uuid: Uuid)
  {
    function KindOf(): Kind {
      match this
      case Int32(_) => Int32Kind
      case Int16(_) => Int16Kind
      case Byte(_) => ByteKind
      case Str(_) => StringKind
      case Double(_) => DoubleKind
      case DateTime(_) => DateTimeKind
      case DateTimeOffset(_) => DateTimeOffsetKind
      case Bool(_) => BoolKind
      case Bytes(_) => BytesKind
      case Int64(_) => Int64Kind
      case Guid(_) => GuidKind
    }
  }

  /** The runtime value of a record property: null, a scalar, or any other object. */
  datatype Value = Null | Native(scalar: Scalar) | Complex(obj: Obj)

  /**
   * An entry of a row's property bag. A null property value is stored as a null
   * 32-bit integer; every other column holds a scalar of its own kind.
   */
  datatype ColumnValue = Typed(scalar: Scalar) | NullInt32

  /**
   * The declared type of a record property: a scalar kind (with `nullable` for
   * the `T?` form of a value type), or any other type, named.
   */
  datatype DeclType = ScalarType(kind: Kind, nullable: bool) | ObjectType(typeName: string)

  /** A public read/write property of a record: its name, declared type and current value. */
  datatype Field = Field(name: string, decl: DeclType, value: Value)

  /** A record, as the list of its properties in declaration order. */
  type Record = seq<Field>

  /** A DynamicTableEntity: partition key, row key and the bag of named columns. */
  datatype Row = Row(partitionKey: string, rowKey: string, properties: map<string, ColumnValue>)

  /** The exceptions the conversion can raise. */
  datatype Error =
    | ArgumentError(paramName: string)     // ArgumentException naming the offending parameter
    | AmbiguousName(name: string)          // SingleOrDefault met more than one property with this name
    | NullReference                        // ToString() on a null key value
    | WrongColumnType(expected: Kind)      // a typed getter of the storage SDK read a column of another type
    | ConversionFailure(detail: string)    // raised by a JSON, Guid or ChangeType conversion

  datatype Option<+T> = None | Some(value: T)

  datatype Result<+T> = Ok(value: T) | Err(error: Error) {
    predicate IsFailure() { Err? }
    function PropagateFailure<U>(): Result<U> requires Err? { Err(error) }
    function Extract(): T requires Ok? { value }
  }

  /** A caller-supplied key converter: key string to the value assigned to the key property. */
  type KeyConverter = string -> Result<Value>

  /** The library code the engine calls and this model does not look inside. */
  datatype Externals = Externals(
    serialize: Obj -> string,                           // JsonConvert.SerializeObject
    deserialize: (string, DeclType) -> Result<Value>,   // JsonConvert.DeserializeObject(text, type)
    changeType: (string, DeclType) -> Result<Value>,    // Convert.ChangeType(text, type)
    parseGuid: string -> Result<Uuid>,                  // Guid.Parse
    render: Value -> string,                            // ToString() of a non-string key value
    toOffset: Moment -> Instant)                        // the SDK's DateTimeOffset view of a DateTime column

  /** `v` is a value a property of declared type `decl` can hold. */
  predicate Conforms(decl: DeclType, v: Value) {
    match decl
    case ScalarType(k, nullable) =>
      || (v.Native? && v.scalar.KindOf() == k)
      || (v.Null? && (nullable || k == StringKind || k == BytesKind))
    case ObjectType(_) => true
  }
}
