// The lookup from the CIM type of a WMI property to the CLR type of its values.
module PropertyDataExtensions {
  import opened Errors
  import opened SystemData
  import TypeExtensions

  /** The parts of a System.Management.PropertyData the lookup reads. */
  datatype PropertyData = PropertyData(cimType: CimType, isArray: bool)

  /** The table entry for a scalar CIM type; SInt64 and None have none. */
  function ScalarType(c: CimType): Option<ClrType> {
    match c
    case CimBoolean => Some(BoolType)
    case CimChar16 => Some(StringType)
    case CimDateTime => Some(DateTimeType)
    case CimObject => Some(ObjectType)
    case CimReal32 => Some(DecimalType)
    case CimReal64 => Some(DecimalType)
    case CimReference => Some(ObjectType)
    case CimSInt16 => Some(ShortType)
    case CimSInt32 => Some(IntType)
    case CimSInt8 => Some(SByteType)
    case CimString => Some(StringType)
    case CimUInt8 => Some(ByteType)
    case CimUInt16 => Some(UShortType)
    case CimUInt32 => Some(UIntType)
    case CimUInt64 => Some(ULongType)
    case CimSInt64 => None
    case CimNone => None
  }

  /** ToSystemType: the mapped element type, made an array type for an array
      property; an unmapped CIM type is a missing dictionary key. */
  function ToSystemType(p: PropertyData): (r: Result<ClrType>)
    ensures r.Fail? <==> p.cimType in {CimSInt64, CimNone}
    ensures r.Fail? ==> r.error == KeyNotFound
    ensures r.Ok? ==> (r.value.ArrayOf? <==> p.isArray)
  {
    match ScalarType(p.cimType)
    case None => Fail(KeyNotFound)
    case Some(t) => Ok(if p.isArray then ArrayOf(t) else t)
  }

  /** An array property's type is the array type of the scalar property's type. */
  lemma ToSystemTypeArray(c: CimType)
    ensures ToSystemType(PropertyData(c, true)) ==
            (match ToSystemType(PropertyData(c, false))
             case Ok(t) => Ok(ArrayOf(t))
             case Fail(e) => Fail(e))
  {
  }

  /** Every scalar WMI property that has a CLR type also has a DbType; an
      array property has one only when it is an array of UInt8 (byte[]). */
  lemma PropertyHasDbType(p: PropertyData)
    requires ToSystemType(p).Ok?
    ensures TypeExtensions.ToDbType(ToSystemType(p).value).Ok? <==> (!p.isArray || p.cimType == CimUInt8)
  {
  }

  /** Real32 and Real64 share decimal; Char16 and String share string. */
  lemma ToSystemTypeCollisions()
    ensures ToSystemType(PropertyData(CimReal32, false)) == ToSystemType(PropertyData(CimReal64, false)) == Ok(DecimalType)
    ensures ToSystemType(PropertyData(CimChar16, false)) == ToSystemType(PropertyData(CimString, false)) == Ok(StringType)
    ensures ToSystemType(PropertyData(CimObject, false)) == ToSystemType(PropertyData(CimReference, false)) == Ok(ObjectType)
  {
  }
}
