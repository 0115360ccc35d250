// The provider services: the manifest token of a connection, the DbType
// and size chosen for a parameter of a given EDM type, and the creation of
// command parameters.
module ProviderServices {
  import opened Errors
  import opened Edm
  import SystemData
  import MetadataHelpers
  import Parameter
  import TypeExtensions
  import SqlRules
  import Symbols
  import CommandTrees
  import CommandGeneration
  import DmlGeneration

  const IntMaxValue: int := 0x7FFF_FFFF

  /** A connection, as far as the manifest token depends on it. */
  datatype Connection = Connection(connectionString: Option<string>)

  /** The manifest token is the connection string itself; a missing
      connection or an empty connection string is an ArgumentNullException. */
  function GetDbProviderManifestToken(connection: Option<Connection>): (r: Result<string>)
    ensures connection.None? ==> r == Fail(ArgumentNull("connection"))
    ensures connection.Some? ==>
              (r.Ok? <==> connection.value.connectionString.Some? && connection.value.connectionString.value != "")
    ensures r.Ok? ==> connection.Some? && connection.value.connectionString == Some(r.value)
    ensures connection.Some? && r.Fail? ==> r.error == ArgumentNull("ConnectionString")
  {
    if connection.None? then Fail(ArgumentNull("connection"))
    else match connection.value.connectionString
      case None => Fail(ArgumentNull("ConnectionString"))
      case Some(s) => if s == "" then Fail(ArgumentNull("ConnectionString")) else Ok(s)
  }

  /** The preferred Size: the bounded MaxLength, else int.MaxValue for an
      output parameter, else no preference. */
  function GetParameterSize(t: TypeUsage, isOutParam: bool): (r: Result<Option<int>>)
    ensures MetadataHelpers.TryGetMaxLength(t).Fail? <==> r.Fail?
    ensures MetadataHelpers.TryGetMaxLength(t) == Ok(None) ==> r == Ok(if isOutParam then Some(IntMaxValue) else None)
    ensures forall m :: MetadataHelpers.TryGetMaxLength(t) == Ok(Some(m)) ==> r == Ok(Some(m))
  {
    match MetadataHelpers.TryGetMaxLength(t)
    case Fail(e) => Fail(e)
    case Ok(Some(m)) => Ok(Some(m))
    case Ok(None) => if isOutParam then Ok(Some(IntMaxValue)) else Ok(None)
  }

  /** The string DbType: fixed or variable length, unicode or ANSI; a
      missing FixedLength facet counts as variable and a missing Unicode
      facet as unicode. */
  function GetStringDbType(t: TypeUsage): (r: Result<SystemData.DbType>)
    ensures r.Ok? <==> MetadataHelpers.TryGetIsFixedLength(t).Ok? && MetadataHelpers.TryGetIsUnicode(t).Ok?
    ensures r.Ok? ==>
              ((r.value in {SystemData.StringFixedLength, SystemData.AnsiStringFixedLength})
                 <==> MetadataHelpers.TryGetIsFixedLength(t) == Ok(Some(true)))
    ensures r.Ok? ==>
              ((r.value in {SystemData.StringFixedLength, SystemData.DbType.String})
                 <==> MetadataHelpers.TryGetIsUnicode(t) != Ok(Some(false)))
    ensures r.Ok? ==>
              r.value in {SystemData.StringFixedLength, SystemData.AnsiStringFixedLength,
                          SystemData.DbType.String, SystemData.AnsiString}
  {
    match MetadataHelpers.TryGetIsFixedLength(t)
    case Fail(e) => Fail(e)
    case Ok(f) =>
      var fixedLength := if f.Some? then f.value else false;
      match MetadataHelpers.TryGetIsUnicode(t)
      case Fail(e) => Fail(e)
      case Ok(u) =>
        var unicode := if u.Some? then u.value else true;
        if fixedLength then
          Ok(if unicode then SystemData.StringFixedLength else SystemData.AnsiStringFixedLength)
        else
          Ok(if unicode then SystemData.DbType.String else SystemData.AnsiString)
  }

  /** The DbType and preferred size of a parameter of the given type. Only
      strings and binaries carry a size; a kind outside the table falls
      back to Object. */
  function GetSqlDbType(t: TypeUsage, isOutParam: bool): (r: Result<(SystemData.DbType, Option<int>)>)
    ensures !MetadataHelpers.IsPrimitiveType(t) ==> r == Fail(NotSupported("Cannot create parameter of non-primitive type"))
    ensures r.Ok? && r.value.1.Some? ==> t.edmType.kind in {Binary, String}
    ensures r.Ok? && t.edmType.kind == String ==>
              GetStringDbType(t) == Ok(r.value.0) && GetParameterSize(t, isOutParam) == Ok(r.value.1)
    ensures r.Ok? && t.edmType.kind == Binary ==>
              r.value.0 == SystemData.DbType.Binary && GetParameterSize(t, isOutParam) == Ok(r.value.1)
  {
    match MetadataHelpers.GetPrimitiveTypeKind(t)
    case Fail(e) => Fail(e)
    case Ok(kind) =>
      match kind
      case Binary =>
        (match GetParameterSize(t, isOutParam)
         case Fail(e) => Fail(e)
         case Ok(size) => Ok((SystemData.DbType.Binary, size)))
      case String =>
        (match GetParameterSize(t, isOutParam)
         case Fail(e) => Fail(e)
         case Ok(size) =>
           match GetStringDbType(t)
           case Fail(e) => Fail(e)
           case Ok(d) => Ok((d, size)))
      case Boolean => Ok((SystemData.DbType.Boolean, None))
      case Byte => Ok((SystemData.DbType.Byte, None))
      case Time => Ok((SystemData.DbType.Time, None))
      case DateTimeOffset => Ok((SystemData.DbType.DateTimeOffset, None))
      case DateTime => Ok((SystemData.DbType.DateTime, None))
      case Decimal => Ok((SystemData.DbType.Decimal, None))
      case Double => Ok((SystemData.DbType.Double, None))
      case Guid => Ok((SystemData.DbType.Guid, None))
      case Int16 => Ok((SystemData.DbType.Int16, None))
      case Int32 => Ok((SystemData.DbType.Int32, None))
      case Int64 => Ok((SystemData.DbType.Int64, None))
      case SByte => Ok((SystemData.DbType.SByte, None))
      case Single => Ok((SystemData.DbType.Single, None))
      case _ => Ok((SystemData.Object, None))
  }

  /** Outside strings, GetSqlDbType picks the same DbType as
      MetadataHelpers.GetDbType wherever the latter is defined; it also
      covers Time and DateTimeOffset, for which GetDbType throws. */
  lemma SqlDbTypeAgreesWithGetDbType(t: TypeUsage, isOutParam: bool)
    requires MetadataHelpers.IsPrimitiveType(t) && t.edmType.kind != String
    requires GetSqlDbType(t, isOutParam).Ok?
    ensures MetadataHelpers.GetDbType(t.edmType.kind).Ok? ==>
              GetSqlDbType(t, isOutParam).value.0 == MetadataHelpers.GetDbType(t.edmType.kind).value
    ensures t.edmType.kind in {Time, DateTimeOffset} ==>
              MetadataHelpers.GetDbType(t.edmType.kind).Fail? && GetSqlDbType(t, isOutParam).value.0 != SystemData.Object
  {
  }

  /** The string type a Guid parameter is given instead: non-unicode,
      fixed length and unbounded (with the default Nullable facet). */
  const GuidAsString: TypeUsage :=
    TypeUsage(PrimitiveType("String", String, []),
              map[MetadataHelpers.UnicodeFacetName := BoolValue(false),
                  MetadataHelpers.FixedLengthFacetName := BoolValue(true),
                  MetadataHelpers.MaxLengthFacetName := Unbounded,
                  MetadataHelpers.NullableFacetName := BoolValue(true)])

  /** The type a parameter is created with: its own, except that Guids
      become fixed-length ANSI strings. */
  function ParameterType(t: TypeUsage): (r: Result<TypeUsage>)
    ensures r.Fail? <==> !MetadataHelpers.IsPrimitiveType(t)
    ensures r.Ok? ==> r.value == if t.edmType.kind == Guid then GuidAsString else t
  {
    match MetadataHelpers.GetPrimitiveTypeKind(t)
    case Fail(e) => Fail(e)
    case Ok(kind) => if kind == Guid then Ok(GuidAsString) else Ok(t)
  }

  /** A Guid parameter becomes an AnsiStringFixedLength parameter. */
  lemma GuidParameterIsAnsiFixedLength(t: TypeUsage, isOutParam: bool)
    requires MetadataHelpers.IsPrimitiveTypeOfKind(t, Guid)
    ensures ParameterType(t).Ok?
    ensures GetSqlDbType(ParameterType(t).value, isOutParam)
            == Ok((SystemData.AnsiStringFixedLength, if isOutParam then Some(IntMaxValue) else None))
  {
    assert ParameterType(t).value == GuidAsString;
    assert MetadataHelpers.TryGetMaxLength(GuidAsString) == Ok(None);
    assert MetadataHelpers.TryGetIsFixedLength(GuidAsString) == Ok(Some(true));
    assert MetadataHelpers.TryGetIsUnicode(GuidAsString) == Ok(Some(false));
  }

  /** A string type with none of the string facets is a unicode,
      variable-length String. */
  lemma StringDbTypeDefaults(t: TypeUsage)
    requires MetadataHelpers.IsPrimitiveTypeOfKind(t, String)
    requires MetadataHelpers.FixedLengthFacetName !in t.facets && MetadataHelpers.UnicodeFacetName !in t.facets
    ensures GetStringDbType(t) == Ok(SystemData.DbType.String)
  {
  }

  /** Creates a parameter for a value of the given type and mode. Since a
      WMI parameter only accepts Input, any mode other than In fails when
      the direction is assigned. */
  method CreateSqlParameter(name: string, t: TypeUsage, mode: ParameterMode, value: SystemData.Value)
    returns (r: Result<Parameter.WmiParameter>)
    ensures r.Ok? ==> mode == In
    ensures mode != In && ParameterType(t).Ok? && !(value.Obj? && value.ty !in TypeExtensions.MappedTypes) ==>
              r == Fail(NotSupported(Parameter.NotSupportedMessage))
    ensures r.Ok? ==>
              fresh(r.value) && ParameterType(t).Ok? &&
              var pt := ParameterType(t).value;
              GetSqlDbType(pt, false).Ok? && MetadataHelpers.IsNullable(pt).Ok? &&
              var (dbType, size) := GetSqlDbType(pt, false).value;
              r.value.GetDbType() == Ok(dbType) &&
              r.value.size == (if size.Some? then size.value else 0) &&
              r.value.isNullable == MetadataHelpers.IsNullable(pt).value &&
              r.value.parameterName == Some(name) && r.value.objValue == value
    ensures r.Fail? && mode == In ==>
              ParameterType(t).Fail? || (value.Obj? && value.ty !in TypeExtensions.MappedTypes) ||
              GetSqlDbType(ParameterType(t).value, false).Fail? || MetadataHelpers.IsNullable(ParameterType(t).value).Fail?
  {
    var pt := ParameterType(t);
    if pt.Fail? {
      return Fail(pt.error);
    }
    var created := Parameter.NewWithValue(Some(name), value);
    if created.Fail? {
      return Fail(created.error);
    }
    var p := created.value;
    var direction := MetadataHelpers.ParameterModeToParameterDirection(mode);
    if p.Direction() != direction {
      var o := p.SetDirection(direction);
      if o.Throw? {
        return Fail(o.error);
      }
    }
    var isOutParam := mode != In;
    var sqlDbType := GetSqlDbType(pt.value, isOutParam);
    if sqlDbType.Fail? {
      return Fail(sqlDbType.error);
    }
    var (dbType, size) := sqlDbType.value;
    if p.GetDbType() != Ok(dbType) {
      p.SetDbType(dbType);
    }
    if size.Some? && (isOutParam || p.size != size.value) {
      p.SetSize(size.value);
    }
    var isNullable := MetadataHelpers.IsNullable(pt.value);
    if isNullable.Fail? {
      return Fail(isNullable.error);
    }
    if isOutParam || isNullable.value != p.isNullable {
      p.SetIsNullable(isNullable.value);
    }
    r := Ok(p);
  }

  /** function.Parameters.TryGetValue(name, ignoreCase: false): the
      function's parameter of exactly that name. */
  function FunctionParameterNamed(ps: seq<FunctionParameter>, name: string): (r: Option<FunctionParameter>)
    ensures r.Some? ==> r.value in ps && r.value.name == name
    ensures r.None? ==> forall p :: p in ps ==> p.name != name
  {
    if |ps| == 0 then None
    else if ps[0].name == name then Some(ps[0])
    else FunctionParameterNamed(ps[1..], name)
  }

  /** What a parameter of the tree is created from: the parameter of the
      same name of the function the tree calls, when there is one, and
      otherwise an In parameter of the tree parameter's own name and type. */
  function ParameterSource(body: CommandTrees.TreeBody, q: CommandTrees.TreeParameter): (r: FunctionParameter)
    ensures r.name == q.name
    ensures body.FunctionTree? && FunctionParameterNamed(body.edmFunction.parameters, q.name).Some? ==>
              r in body.edmFunction.parameters
    ensures !(body.FunctionTree? && FunctionParameterNamed(body.edmFunction.parameters, q.name).Some?) ==>
              r == FunctionParameter(q.name, q.typeUsage, In)
  {
    if body.FunctionTree? && FunctionParameterNamed(body.edmFunction.parameters, q.name).Some? then
      FunctionParameterNamed(body.edmFunction.parameters, q.name).value
    else FunctionParameter(q.name, q.typeUsage, In)
  }

  /** The parameters SQL generation made join the command only for an
      insert, update or delete tree; any other tree that brings some is an
      InvalidOperationException. */
  function GeneratedParameters(body: CommandTrees.TreeBody, ps: Option<seq<DmlGeneration.DmlParameter>>)
    : (r: Result<seq<DmlGeneration.DmlParameter>>)
    ensures r.Fail? <==> ps.Some? && |ps.value| > 0 && !CommandTrees.IsModification(body)
    ensures r.Fail? ==> r.error == InvalidOperation("SqlGenParametersNotPermitted")
    ensures r.Ok? && ps.Some? ==> r.value == ps.value
    ensures r.Ok? && ps.None? ==> r.value == []
  {
    if ps.None? || |ps.value| == 0 then Ok(if ps.None? then [] else ps.value)
    else if !CommandTrees.IsModification(body) then Fail(InvalidOperation("SqlGenParametersNotPermitted"))
    else Ok(ps.value)
  }

  /** The command CreateCommand prepares: the generated text, columns and
      command type, the parameters made for the tree's parameters in order,
      then the parameters SQL generation made. */
  datatype Command = Command(
    commandText: string,
    columns: Option<seq<string>>,
    commandType: SqlRules.CommandType,
    parameters: seq<Parameter.WmiParameter>,
    generatedParameters: seq<DmlGeneration.DmlParameter>)

  /** The command of a generated text and the parameters made for the
      tree's parameters, with the parameters SQL generation made. */
  function Assembled(g: CommandGeneration.GeneratedCommand, made: seq<Parameter.WmiParameter>, body: CommandTrees.TreeBody)
    : (r: Result<Command>)
  {
    var extra :- GeneratedParameters(body, g.parameters);
    Ok(Command(g.text, g.columns, g.commandType, made, extra))
  }

  /** CreateCommand(manifest, commandTree): a missing manifest or tree is an
      ArgumentNullException; otherwise the tree's SQL is generated, each
      tree parameter becomes a parameter valued DBNull, and the parameters
      of a modification follow. */
  method CreateCommand(hasManifest: bool, commandTree: Option<CommandTrees.CommandTree>) returns (r: Result<Command>)
    modifies (iset s: Symbols.Symbol {:trigger s.name} | true)`needsRenaming,
             (iset s: Symbols.Symbol {:trigger s.name} | true)`columns,
             (iset s: Symbols.Symbol {:trigger s.name} | true)`newName
    ensures !hasManifest ==> r == Fail(ArgumentNull("manifest"))
    ensures hasManifest && commandTree.None? ==> r == Fail(ArgumentNull("commandTree"))
    ensures commandTree.Some? && commandTree.value.body.OtherTree? ==> r.Fail?
    ensures r.Ok? ==>
              commandTree.Some? &&
              var t := commandTree.value;
              |r.value.parameters| == |t.parameters| &&
              forall i :: 0 <= i < |t.parameters| ==>
                r.value.parameters[i].parameterName == Some(t.parameters[i].name) &&
                r.value.parameters[i].objValue == SystemData.DBNullValue &&
                ParameterSource(t.body, t.parameters[i]).mode == In
    ensures r.Ok? && r.value.generatedParameters != [] ==> CommandTrees.IsModification(commandTree.value.body)
    ensures r.Ok? && CommandTrees.IsModification(commandTree.value.body) ==>
              var m := CommandGeneration.ModificationSql(commandTree.value.body);
              m.Ok? && r.value.commandText == m.value.0 && r.value.generatedParameters == m.value.1 &&
              r.value.columns.None? && r.value.commandType == SqlRules.TextCommand
    ensures r.Ok? && commandTree.value.body.FunctionTree? ==>
              (r.value.commandText, r.value.commandType) == SqlRules.GenerateFunctionSql(commandTree.value.body.edmFunction)
  {
    if !hasManifest {
      return Fail(ArgumentNull("manifest"));
    }
    if commandTree.None? {
      return Fail(ArgumentNull("commandTree"));
    }
    var t := commandTree.value;
    var generated := CommandGeneration.GenerateSql(t.body);
    if generated.Fail? {
      return Fail(generated.error);
    }
    var g := generated.value;
    var made: seq<Parameter.WmiParameter> := [];
    for i := 0 to |t.parameters|
      invariant |made| == i
      invariant forall j :: 0 <= j < i ==>
                  made[j].parameterName == Some(t.parameters[j].name) &&
                  made[j].objValue == SystemData.DBNullValue &&
                  ParameterSource(t.body, t.parameters[j]).mode == In
    {
      var source := ParameterSource(t.body, t.parameters[i]);
      var p := CreateSqlParameter(source.name, source.typeUsage, source.mode, SystemData.DBNullValue);
      if p.Fail? {
        return Fail(p.error);
      }
      made := made + [p.value];
    }
    r := Assembled(g, made, t.body);
  }
}
