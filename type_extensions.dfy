// The lookup from the CLR type of a parameter value to its DbType.
module TypeExtensions {
  import opened Errors
  import opened SystemData

  /** The CLR types that have an entry in the lookup table. */
  const MappedTypes: set<ClrType> := {
    ObjectType, DBNullType, BoolType, CharType, SByteType, ByteType, ShortType,
    UShortType, IntType, UIntType, LongType, ULongType, FloatType, DoubleType,
    DecimalType, DateTimeType, StringType, ArrayOf(ByteType), GuidType
  }

  /** ToDbType: the table entry for the type; an unlisted type is a
      missing dictionary key. */
  function ToDbType(t: ClrType): (r: Result<DbType>)
    ensures r.Ok? <==> t in MappedTypes
    ensures r.Fail? ==> r.error == KeyNotFound
  {
    match t
    case ObjectType => Ok(Binary)
    case DBNullType => Ok(Object)
    case BoolType => Ok(Boolean)
    case CharType => Ok(SByte)
    case SByteType => Ok(SByte)
    case ByteType => Ok(Byte)
    case ShortType => Ok(Int16)
    case UShortType => Ok(UInt16)
    case IntType => Ok(Int32)
    case UIntType => Ok(UInt32)
    case LongType => Ok(Int64)
    case ULongType => Ok(UInt64)
    case FloatType => Ok(Single)
    case DoubleType => Ok(Double)
    case DecimalType => Ok(Decimal)
    case DateTimeType => Ok(DateTime)
    case StringType => Ok(String)
    case GuidType => Ok(Guid)
    case ArrayOf(e) => if e == ByteType then Ok(Binary) else Fail(KeyNotFound)
    case OtherType(_) => Fail(KeyNotFound)
  }

  /** The table is not injective: object and byte[] share Binary, char and
      sbyte share SByte. */
  lemma ToDbTypeCollisions()
    ensures ToDbType(ObjectType) == ToDbType(ArrayOf(ByteType)) == Ok(Binary)
    ensures ToDbType(CharType) == ToDbType(SByteType) == Ok(SByte)
  {
  }

  /** Apart from those two collisions every mapped type has its own DbType. */
  lemma ToDbTypeOtherwiseInjective(a: ClrType, b: ClrType)
    requires ToDbType(a).Ok? && ToDbType(a) == ToDbType(b)
    requires {a, b} !! {ObjectType, ArrayOf(ByteType), CharType, SByteType}
    ensures a == b
  {
  }
}
