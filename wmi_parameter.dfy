// WMIParameter: a command parameter whose DbType, when never assigned, is
// inferred from the value's CLR type.
module Parameter {
  import opened Errors
  import opened SystemData
  import TypeExtensions

  const NotSupportedMessage: string := "Specified method is not supported."

  class WmiParameter {
    /** The assigned DbType; None is the "unknown" DbType (-1). */
    var dbType: Option<DbType>
    var objValue: Value
    var parameterName: Option<string>
    var size: int
    var sourceColumn: Option<string>
    var sourceColumnNullMapping: bool
    var sourceVersion: DataRowVersion
    var isNullable: bool

    /** The main constructor: everything given is stored verbatim and the
        parameter accepts nulls. */
    constructor (parameterName: Option<string>, parameterType: Option<DbType>, parameterSize: int,
                 sourceColumn: Option<string>, sourceVersion: DataRowVersion)
      ensures this.parameterName == parameterName && dbType == parameterType && size == parameterSize
      ensures this.sourceColumn == sourceColumn && this.sourceVersion == sourceVersion
      ensures isNullable && objValue == NullRef && !sourceColumnNullMapping
    {
      this.parameterName := parameterName;
      dbType := parameterType;
      this.sourceColumn := sourceColumn;
      this.sourceVersion := sourceVersion;
      size := parameterSize;
      isNullable := true;
      objValue := NullRef;
      sourceColumnNullMapping := false;
    }

    /** The parameterless and name-only constructors: unknown DbType, size 0,
        the current row version. */
    constructor Named(parameterName: Option<string>)
      ensures this.parameterName == parameterName && dbType.None? && size == 0
      ensures sourceColumn.None? && sourceVersion == Current
      ensures isNullable && objValue == NullRef && !sourceColumnNullMapping
    {
      this.parameterName := parameterName;
      dbType := None;
      sourceColumn := None;
      sourceVersion := Current;
      size := 0;
      isNullable := true;
      objValue := NullRef;
      sourceColumnNullMapping := false;
    }

    /** The DbType getter: the assigned type, or else the type inferred
        from a non-null value, or else String. */
    function GetDbType(): (r: Result<DbType>)
      reads this
      ensures dbType.Some? ==> r == Ok(dbType.value)
      ensures dbType.None? && !objValue.Obj? ==> r == Ok(String)
      ensures dbType.None? && objValue.Obj? ==> r == TypeExtensions.ToDbType(objValue.ty)
      ensures r.Fail? ==> dbType.None? && objValue.Obj? && objValue.ty !in TypeExtensions.MappedTypes
    {
      if dbType.None? then
        if objValue.Obj? then TypeExtensions.ToDbType(objValue.ty) else Ok(String)
      else Ok(dbType.value)
    }

    /** The DbType setter stores the type as given. */
    method SetDbType(t: DbType)
      modifies this
      ensures dbType == Some(t) && GetDbType() == Ok(t)
      ensures objValue == old(objValue) && parameterName == old(parameterName) && size == old(size)
      ensures sourceColumn == old(sourceColumn) && sourceVersion == old(sourceVersion)
      ensures isNullable == old(isNullable) && sourceColumnNullMapping == old(sourceColumnNullMapping)
    {
      dbType := Some(t);
    }

    /** The Value setter: stores the value and, while the DbType is unknown
        and the value is an object, fixes the DbType from the value's type;
        an unmapped type throws after the value has been stored. */
    method SetValue(v: Value) returns (o: Outcome)
      modifies this
      ensures objValue == v
      ensures old(dbType).Some? || !v.Obj? ==> dbType == old(dbType) && o == Done
      ensures old(dbType).None? && v.Obj? ==>
                match TypeExtensions.ToDbType(v.ty)
                case Ok(t) => dbType == Some(t) && o == Done
                case Fail(e) => dbType.None? && o == Throw(e)
      ensures o.Done? ==> GetDbType().Ok?
      ensures parameterName == old(parameterName) && size == old(size)
      ensures sourceColumn == old(sourceColumn) && sourceVersion == old(sourceVersion)
      ensures isNullable == old(isNullable) && sourceColumnNullMapping == old(sourceColumnNullMapping)
    {
      objValue := v;
      o := Done;
      if dbType.None? && objValue.Obj? {
        var inferred := TypeExtensions.ToDbType(objValue.ty);
        match inferred
        case Ok(t) => dbType := Some(t);
        case Fail(e) => o := Throw(e);
      }
    }

    /** Returns the DbType to unknown, so that the getter infers it again
        from the current value. */
    method ResetDbType()
      modifies this
      ensures dbType.None?
      ensures GetDbType() == if objValue.Obj? then TypeExtensions.ToDbType(objValue.ty) else Ok(String)
      ensures objValue == old(objValue) && parameterName == old(parameterName) && size == old(size)
      ensures sourceColumn == old(sourceColumn) && sourceVersion == old(sourceVersion)
      ensures isNullable == old(isNullable) && sourceColumnNullMapping == old(sourceColumnNullMapping)
    {
      dbType := None;
    }

    /** The Direction getter: every parameter is an input parameter. */
    function Direction(): ParameterDirection {
      Input
    }

    /** The Direction setter accepts only Input and stores nothing. */
    method SetDirection(d: ParameterDirection) returns (o: Outcome)
      ensures o == Done <==> d == Input
      ensures o.Throw? ==> o.error == NotSupported(NotSupportedMessage)
    {
      if d != Input {
        o := Throw(NotSupported(NotSupportedMessage));
      } else {
        o := Done;
      }
    }

    method SetSize(s: int)
      modifies this
      ensures size == s
      ensures dbType == old(dbType) && objValue == old(objValue) && parameterName == old(parameterName)
      ensures sourceColumn == old(sourceColumn) && sourceVersion == old(sourceVersion)
      ensures isNullable == old(isNullable) && sourceColumnNullMapping == old(sourceColumnNullMapping)
    {
      size := s;
    }

    method SetIsNullable(b: bool)
      modifies this
      ensures isNullable == b
      ensures dbType == old(dbType) && objValue == old(objValue) && parameterName == old(parameterName)
      ensures size == old(size) && sourceColumn == old(sourceColumn) && sourceVersion == old(sourceVersion)
      ensures sourceColumnNullMapping == old(sourceColumnNullMapping)
    {
      isNullable := b;
    }
  }

  /** The (name, value) constructor: a named parameter whose Value is then
      set, which may already fix its DbType or throw. */
  method NewWithValue(parameterName: Option<string>, value: Value) returns (r: Result<WmiParameter>)
    ensures r.Ok? ==> fresh(r.value) && r.value.parameterName == parameterName && r.value.objValue == value
    ensures r.Ok? ==> r.value.size == 0 && r.value.isNullable && r.value.sourceVersion == Current
    ensures r.Ok? ==> r.value.dbType == (if value.Obj? && TypeExtensions.ToDbType(value.ty).Ok? then Some(TypeExtensions.ToDbType(value.ty).value) else None)
    ensures r.Fail? <==> value.Obj? && value.ty !in TypeExtensions.MappedTypes
    ensures r.Fail? ==> r.error == KeyNotFound
  {
    var p := new WmiParameter.Named(parameterName);
    var o := p.SetValue(value);
    if o.Throw? {
      r := Fail(o.error);
    } else {
      r := Ok(p);
    }
  }
}
