// Static helpers over type metadata: structural queries, primitive kinds,
// the DbType of a primitive kind and typed facet lookups.
module MetadataHelpers {
  import opened Errors
  import opened Edm
  import SystemData
  import Text

  const MaxLengthFacetName: string := "MaxLength"
  const UnicodeFacetName: string := "Unicode"
  const FixedLengthFacetName: string := "FixedLength"
  const PrecisionFacetName: string := "Precision"
  const ScaleFacetName: string := "Scale"
  const NullableFacetName: string := "Nullable"

  /** The ParameterDirection for a function parameter's mode. */
  function ParameterModeToParameterDirection(mode: ParameterMode): (d: SystemData.ParameterDirection)
    ensures d == SystemData.Input <==> mode == In
    ensures d == SystemData.Output <==> mode == Out
    ensures d == SystemData.InputOutput <==> mode == InOut
    ensures d == SystemData.ReturnValue <==> mode == ReturnValue
  {
    match mode
    case In => SystemData.Input
    case InOut => SystemData.InputOutput
    case Out => SystemData.Output
    case ReturnValue => SystemData.ReturnValue
  }

  predicate IsCollectionType(t: TypeUsage) { t.edmType.CollectionType? }
  predicate IsPrimitiveType(t: TypeUsage) { t.edmType.PrimitiveType? }
  predicate IsRowType(t: TypeUsage) { t.edmType.RowType? }

  /** The element type of a collection type, null for any other type. */
  function GetElementTypeUsage(t: TypeUsage): (r: Option<TypeUsage>)
    ensures r.Some? <==> IsCollectionType(t)
    ensures r.Some? ==> t.edmType == CollectionType(r.value)
  {
    if t.edmType.CollectionType? then Some(t.edmType.elementType) else None
  }

  /** The properties of a structured (complex, entity or row) type; an
      empty list for any other type. */
  function GetProperties(edmType: EdmType): (r: seq<EdmProperty>)
    ensures !(edmType.ComplexType? || edmType.EntityType? || edmType.RowType?) ==> r == []
    ensures edmType.ComplexType? || edmType.EntityType? || edmType.RowType? ==> r == edmType.properties
  {
    match edmType
    case ComplexType(_, ps) => ps
    case EntityType(_, ps, _) => ps
    case RowType(ps) => ps
    case _ => []
  }

  /** The primitive kind of a type usage, if it is present and primitive. */
  function TryGetPrimitiveTypeKind(t: Option<TypeUsage>): (r: Option<PrimitiveTypeKind>)
    ensures r.Some? <==> t.Some? && t.value.edmType.PrimitiveType?
    ensures r.Some? ==> r.value == t.value.edmType.kind
  {
    if t.Some? && t.value.edmType.PrimitiveType? then Some(t.value.edmType.kind) else None
  }

  /** The primitive kind, or NotSupportedException for a non-primitive type. */
  function GetPrimitiveTypeKind(t: TypeUsage): (r: Result<PrimitiveTypeKind>)
    ensures r.Ok? <==> IsPrimitiveType(t)
    ensures r.Ok? ==> r.value == t.edmType.kind
    ensures r.Fail? ==> r.error == NotSupported("Cannot create parameter of non-primitive type")
  {
    match TryGetPrimitiveTypeKind(Some(t))
    case Some(k) => Ok(k)
    case None => Fail(NotSupported("Cannot create parameter of non-primitive type"))
  }

  predicate IsPrimitiveTypeOfKind(t: TypeUsage, kind: PrimitiveTypeKind) {
    TryGetPrimitiveTypeKind(Some(t)) == Some(kind)
  }

  /** The primitive kinds GetDbType knows. */
  const DbTypeKinds: set<PrimitiveTypeKind> :=
    {Binary, Boolean, Byte, DateTime, Decimal, Double, Single, Guid, Int16, Int32, Int64, SByte, String}

  function KindName(k: PrimitiveTypeKind): string {
    match k
    case Binary => "Binary" case Boolean => "Boolean" case Byte => "Byte"
    case DateTime => "DateTime" case Decimal => "Decimal" case Double => "Double"
    case Guid => "Guid" case Single => "Single" case SByte => "SByte"
    case Int16 => "Int16" case Int32 => "Int32" case Int64 => "Int64"
    case String => "String" case Time => "Time" case DateTimeOffset => "DateTimeOffset"
    case Geometry => "Geometry" case Geography => "Geography"
  }

  /** The DbType of a primitive kind; Time, DateTimeOffset and the spatial
      kinds have none and raise InvalidOperationException. */
  function GetDbType(k: PrimitiveTypeKind): (r: Result<SystemData.DbType>)
    ensures r.Ok? <==> k in DbTypeKinds
    ensures r.Fail? ==> r.error == InvalidOperation("Unknown PrimitiveTypeKind " + KindName(k))
  {
    match k
    case Binary => Ok(SystemData.DbType.Binary)
    case Boolean => Ok(SystemData.DbType.Boolean)
    case Byte => Ok(SystemData.DbType.Byte)
    case DateTime => Ok(SystemData.DbType.DateTime)
    case Decimal => Ok(SystemData.DbType.Decimal)
    case Double => Ok(SystemData.DbType.Double)
    case Single => Ok(SystemData.DbType.Single)
    case Guid => Ok(SystemData.DbType.Guid)
    case Int16 => Ok(SystemData.DbType.Int16)
    case Int32 => Ok(SystemData.DbType.Int32)
    case Int64 => Ok(SystemData.DbType.Int64)
    case SByte => Ok(SystemData.DbType.SByte)
    case String => Ok(SystemData.DbType.String)
    case _ => Fail(InvalidOperation("Unknown PrimitiveTypeKind " + KindName(k)))
  }

  /** GetDbType is injective where it is defined. */
  lemma GetDbTypeInjective(a: PrimitiveTypeKind, b: PrimitiveTypeKind)
    requires GetDbType(a).Ok? && GetDbType(a) == GetDbType(b)
    ensures a == b
  {
  }

  /** The facet's value, or the default when the facet is missing, null or
      unbounded. */
  function GetFacetValueOrDefault(t: TypeUsage, facetName: string, defaultValue: FacetValue): (r: FacetValue)
    ensures facetName !in t.facets || t.facets[facetName] in {NullValue, Unbounded} ==> r == defaultValue
    ensures facetName in t.facets && t.facets[facetName] !in {NullValue, Unbounded} ==> r == t.facets[facetName]
  {
    if facetName in t.facets && t.facets[facetName] != NullValue && t.facets[facetName] != Unbounded
    then t.facets[facetName]
    else defaultValue
  }

  /** The first facet description with exactly the given name. */
  function GetFacet(descriptions: seq<FacetDescription>, facetName: string): (r: Option<FacetDescription>)
    ensures r.Some? ==> r.value in descriptions && r.value.facetName == facetName
    ensures r.None? ==> forall d :: d in descriptions ==> d.facetName != facetName
  {
    if descriptions == [] then None
    else if descriptions[0].facetName == facetName then Some(descriptions[0])
    else GetFacet(descriptions[1..], facetName)
  }

  /** Whether the primitive type's description of the facet marks it
      constant; a non-primitive type fails the cast, a missing description
      is dereferenced as null. */
  function IsFacetValueConstant(t: TypeUsage, facetName: string): (r: Result<bool>)
    ensures !t.edmType.PrimitiveType? ==> r == Fail(InvalidCast)
    ensures t.edmType.PrimitiveType? ==>
              match GetFacet(t.edmType.facetDescriptions, facetName)
              case None => r == Fail(NullReference)
              case Some(d) => r == Ok(d.isConstant)
  {
    if !t.edmType.PrimitiveType? then Fail(InvalidCast)
    else match GetFacet(t.edmType.facetDescriptions, facetName)
      case None => Fail(NullReference)
      case Some(d) => Ok(d.isConstant)
  }

  /** The first facet description whose name equals the given one ignoring
      case, searched only on primitive types. */
  function TryGetTypeFacetDescriptionByName(edmType: EdmType, facetName: string): (r: Option<FacetDescription>)
    ensures !edmType.PrimitiveType? ==> r.None?
    ensures r.Some? ==> r.value in edmType.facetDescriptions
  {
    if edmType.PrimitiveType? then FindIgnoreCase(edmType.facetDescriptions, facetName) else None
  }

  function FindIgnoreCase(descriptions: seq<FacetDescription>, facetName: string): (r: Option<FacetDescription>)
    ensures r.Some? ==> r.value in descriptions
  {
    if descriptions == [] then None
    else if Text.EqualsIgnoreCase(facetName, descriptions[0].facetName) then Some(descriptions[0])
    else FindIgnoreCase(descriptions[1..], facetName)
  }

  /** The Nullable facet's value, false when the facet is absent; a null
      value cannot be unboxed and any non-boolean value fails the cast. */
  function IsNullable(t: TypeUsage): (r: Result<bool>)
    ensures NullableFacetName !in t.facets ==> r == Ok(false)
    ensures r.Ok? && r.value ==> t.facets[NullableFacetName] == BoolValue(true)
    ensures NullableFacetName in t.facets && t.facets[NullableFacetName].BoolValue? ==> r == Ok(t.facets[NullableFacetName].b)
  {
    if NullableFacetName !in t.facets then Ok(false)
    else match t.facets[NullableFacetName]
      case BoolValue(b) => Ok(b)
      case NullValue => Fail(NullReference)
      case _ => Fail(InvalidCast)
  }

  /** An int facet that is present, non-null and bounded; None otherwise. */
  function TryGetIntFacetValue(t: TypeUsage, facetName: string): (r: Result<Option<int>>)
    ensures (facetName !in t.facets || t.facets[facetName] in {NullValue, Unbounded}) <==> r == Ok(None)
    ensures r.Ok? && r.value.Some? ==> facetName in t.facets && t.facets[facetName] == IntValue(r.value.value)
  {
    if facetName !in t.facets then Ok(None)
    else match t.facets[facetName]
      case NullValue => Ok(None)
      case Unbounded => Ok(None)
      case IntValue(i) => Ok(Some(i))
      case _ => Fail(InvalidCast)
  }

  /** A bool facet that is present and non-null; None otherwise. */
  function TryGetBooleanFacetValue(t: TypeUsage, facetName: string): (r: Result<Option<bool>>)
    ensures (facetName !in t.facets || t.facets[facetName] == NullValue) <==> r == Ok(None)
    ensures r.Ok? && r.value.Some? ==> facetName in t.facets && t.facets[facetName] == BoolValue(r.value.value)
  {
    if facetName !in t.facets then Ok(None)
    else match t.facets[facetName]
      case NullValue => Ok(None)
      case BoolValue(b) => Ok(Some(b))
      case _ => Fail(InvalidCast)
  }

  /** The MaxLength of a String or Binary type; no value for other types. */
  function TryGetMaxLength(t: TypeUsage): (r: Result<Option<int>>)
    ensures !IsPrimitiveTypeOfKind(t, String) && !IsPrimitiveTypeOfKind(t, Binary) ==> r == Ok(None)
    ensures r.Ok? && r.value.Some? ==> MaxLengthFacetName in t.facets && t.facets[MaxLengthFacetName] == IntValue(r.value.value)
  {
    if !IsPrimitiveTypeOfKind(t, String) && !IsPrimitiveTypeOfKind(t, Binary) then Ok(None)
    else TryGetIntFacetValue(t, MaxLengthFacetName)
  }

  /** The FixedLength of a String or Binary type; no value for other types. */
  function TryGetIsFixedLength(t: TypeUsage): (r: Result<Option<bool>>)
    ensures !IsPrimitiveTypeOfKind(t, String) && !IsPrimitiveTypeOfKind(t, Binary) ==> r == Ok(None)
    ensures r.Ok? && r.value.Some? ==> FixedLengthFacetName in t.facets && t.facets[FixedLengthFacetName] == BoolValue(r.value.value)
  {
    if !IsPrimitiveTypeOfKind(t, String) && !IsPrimitiveTypeOfKind(t, Binary) then Ok(None)
    else TryGetBooleanFacetValue(t, FixedLengthFacetName)
  }

  /** The Unicode facet of a String type; no value for any other type. */
  function TryGetIsUnicode(t: TypeUsage): (r: Result<Option<bool>>)
    ensures !IsPrimitiveTypeOfKind(t, String) ==> r == Ok(None)
    ensures r.Ok? && r.value.Some? ==> UnicodeFacetName in t.facets && t.facets[UnicodeFacetName] == BoolValue(r.value.value)
  {
    if !IsPrimitiveTypeOfKind(t, String) then Ok(None)
    else TryGetBooleanFacetValue(t, UnicodeFacetName)
  }
}
