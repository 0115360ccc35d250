// The System.Data and CLR vocabulary the provider maps between: DbType,
// parameter direction and row version, the CLR types of parameter values,
// the CIM types of WMI properties, and boxed values.
module SystemData {

  /** System.Data.DbType. */
  datatype DbType =
    | AnsiString | Binary | Byte | Boolean | Currency | Date | DateTime | Decimal
    | Double | Guid | Int16 | Int32 | Int64 | Object | SByte | Single | String
    | Time | UInt16 | UInt32 | UInt64 | VarNumeric | AnsiStringFixedLength
    | StringFixedLength | Xml | DateTime2 | DateTimeOffset

  /** System.Data.ParameterDirection. */
  datatype ParameterDirection = Input | Output | InputOutput | ReturnValue

  /** System.Data.DataRowVersion. */
  datatype DataRowVersion = Original | Current | Proposed | Default

  /** A CLR type, as far as the provider distinguishes them. `byte[]` is
      `ArrayOf(ByteType)`; any type the provider does not name is `OtherType`. */
  datatype ClrType =
    | ObjectType | DBNullType | BoolType | CharType | SByteType | ByteType
    | ShortType | UShortType | IntType | UIntType | LongType | ULongType
    | FloatType | DoubleType | DecimalType | DateTimeType | StringType | GuidType
    | ArrayOf(element: ClrType)
    | OtherType(name: string)

  /** System.Management.CimType. */
  datatype CimType =
    | CimNone | CimSInt8 | CimUInt8 | CimSInt16 | CimUInt16 | CimSInt32 | CimUInt32
    | CimSInt64 | CimUInt64 | CimReal32 | CimReal64 | CimBoolean | CimString
    | CimDateTime | CimReference | CimChar16 | CimObject

  /** A boxed parameter value: a null reference, DBNull.Value, or an object of
      a CLR type whose invariant text is `text`. */
  datatype Value = NullRef | DBNullValue | Obj(ty: ClrType, text: string)
}
