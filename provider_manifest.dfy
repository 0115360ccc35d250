// The provider manifest: which schema resource answers an information
// request, and the two-way mapping between store types and EDM types.
module ProviderManifest {
  import opened Errors
  import opened Edm
  import Text
  import MetadataHelpers

  const IntMinValue: int := -0x8000_0000

  /** The reader GetDbInformation returns: an embedded resource, or null. */
  datatype DbInformation = XmlResource(resourceName: string) | NullReader

  const StoreSchemaDefinition: string := "StoreSchemaDefinition"
  const StoreSchemaMapping: string := "StoreSchemaMapping"
  const ConceptualSchemaDefinition: string := "ConceptualSchemaDefinition"

  /** The schema description, the schema mapping, nothing for the
      conceptual schema, and ProviderIncompatibleException otherwise. */
  function GetDbInformation(informationType: string): (r: Result<DbInformation>)
    ensures informationType == ConceptualSchemaDefinition ==> r == Ok(NullReader)
    ensures r.Fail? <==> informationType !in {StoreSchemaDefinition, StoreSchemaMapping, ConceptualSchemaDefinition}
    ensures r.Fail? ==> r.error == ProviderIncompatible
    ensures r.Ok? && r.value.XmlResource? ==> informationType in {StoreSchemaDefinition, StoreSchemaMapping}
  {
    if informationType == StoreSchemaDefinition then
      Ok(XmlResource("System.Data.WMI.WMIProviderServices.StoreSchemaDefinition.ssdl"))
    else if informationType == StoreSchemaMapping then
      Ok(XmlResource("System.Data.WMI.WMIProviderServices.StoreSchemaMapping.msl"))
    else if informationType == ConceptualSchemaDefinition then Ok(NullReader)
    else Fail(ProviderIncompatible)
  }

  /** A type usage as the manifest builds it: the type and the facets the
      TypeUsage.CreateXxxTypeUsage factory sets (a missing maxLength or
      precision means the unbounded or default form of the factory). */
  datatype Usage<T> =
    | DefaultUsage(ty: T)
    | DecimalUsage(ty: T, precisionScale: Option<(nat, nat)>)
    | StringUsage(ty: T, isUnicode: bool, isFixedLength: bool, maxLength: Option<int>)
    | BinaryUsage(ty: T, isFixedLength: bool, maxLength: Option<int>)
    | DateTimeUsage(ty: T)

  /** TypeHelpers.TryGetPrecision / TryGetScale: a byte facet that is
      present, bounded and non-null. */
  function TryGetByteFacetValue(t: TypeUsage, facetName: string): (r: Result<Option<nat>>)
    ensures (facetName !in t.facets || t.facets[facetName] in {NullValue, Unbounded}) <==> r == Ok(None)
    ensures r.Ok? && r.value.Some? ==> facetName in t.facets && t.facets[facetName] == ByteValue(r.value.value)
  {
    if facetName !in t.facets then Ok(None)
    else match t.facets[facetName]
      case NullValue => Ok(None)
      case Unbounded => Ok(None)
      case ByteValue(n) => Ok(Some(n))
      case _ => Fail(InvalidCast)
  }

  /** TypeHelpers.TryGetMaxLength reads the MaxLength facet exactly as the
      shared int facet reader does. */
  function TryGetMaxLength(t: TypeUsage): Result<Option<int>> {
    MetadataHelpers.TryGetIntFacetValue(t, MetadataHelpers.MaxLengthFacetName)
  }

  /** The character store types. */
  predicate IsStringStoreType(name: string) {
    name in {"varchar", "char", "nvarchar", "nchar"}
  }
  const DefaultStoreTypes: set<string> :=
    {"tinyint", "smallint", "integer", "bit", "uniqueidentifier", "int", "float", "real"}

  /** The EDM type for a store type, found by its lower-cased name in the
      manifest's store-type table `storeTypes`. */
  function GetEdmType(storeTypes: map<string, PrimitiveTypeKind>, storeType: Option<TypeUsage>)
    : (r: Result<Usage<PrimitiveTypeKind>>)
    ensures storeType.None? ==> r == Fail(ArgumentNull("storeType"))
    ensures storeType.Some? && Text.ToLower(TypeName(storeType.value.edmType)) !in storeTypes ==>
              r.Fail? && r.error.Argument?
    ensures r.Ok? ==> storeType.Some? && r.value.ty == storeTypes[Text.ToLower(TypeName(storeType.value.edmType))]
    ensures r.Ok? && r.value.StringUsage? ==>
              var name := Text.ToLower(TypeName(storeType.value.edmType));
              IsStringStoreType(name) &&
              (r.value.isUnicode <==> name in {"nvarchar", "nchar"}) &&
              (r.value.isFixedLength <==> name in {"char", "nchar"})
  {
    if storeType.None? then Fail(ArgumentNull("storeType"))
    else
      var t := storeType.value;
      var name := Text.ToLower(TypeName(t.edmType));
      if name !in storeTypes then Fail(Argument("WMI does not support the type '" + name + "'."))
      else
        var edmPrimitiveType := storeTypes[name];
        if name in DefaultStoreTypes then Ok(DefaultUsage(edmPrimitiveType))
        else if IsStringStoreType(name) || name == "blob" then
          match TryGetMaxLength(t)
          case Fail(e) => Fail(e)
          case Ok(maxLength) =>
            if name == "blob" then Ok(BinaryUsage(edmPrimitiveType, false, maxLength))
            else Ok(StringUsage(edmPrimitiveType, name == "nvarchar" || name == "nchar",
                                name == "char" || name == "nchar", maxLength))
        else if name == "decimal" then
          match TryGetByteFacetValue(t, MetadataHelpers.PrecisionFacetName)
          case Fail(e) => Fail(e)
          case Ok(None) => Ok(DecimalUsage(edmPrimitiveType, None))
          case Ok(Some(precision)) =>
            match TryGetByteFacetValue(t, MetadataHelpers.ScaleFacetName)
            case Fail(e) => Fail(e)
            case Ok(None) => Ok(DecimalUsage(edmPrimitiveType, None))
            case Ok(Some(scale)) => Ok(DecimalUsage(edmPrimitiveType, Some((precision, scale))))
        else if name == "datetime" then Ok(DateTimeUsage(edmPrimitiveType))
        else Fail(NotSupported("WMI does not support the type '" + name + "'."))
  }

  /** The facet collection's indexer: a facet that is not there is an
      ArgumentException. */
  function Facet(t: TypeUsage, facetName: string): (r: Result<FacetValue>)
    ensures r.Ok? <==> facetName in t.facets
    ensures r.Ok? ==> r.value == t.facets[facetName]
  {
    if facetName in t.facets then Ok(t.facets[facetName]) else Fail(Argument(facetName))
  }

  /** A boolean facet value that may be null, with the meaning of null. */
  function BoolOr(v: FacetValue, ifNull: bool): (r: Result<bool>)
    ensures v == NullValue ==> r == Ok(ifNull)
    ensures v.BoolValue? ==> r == Ok(v.b)
    ensures r.Fail? <==> !(v == NullValue || v.BoolValue?)
  {
    match v
    case NullValue => Ok(ifNull)
    case BoolValue(b) => Ok(b)
    case _ => Fail(InvalidCast)
  }

  /** A MaxLength value: None when unbounded or null, the int otherwise. */
  function BoundedLength(v: FacetValue): (r: Result<Option<int>>)
    ensures v in {NullValue, Unbounded} <==> r == Ok(None)
    ensures r.Ok? && r.value.Some? ==> v == IntValue(r.value.value)
  {
    match v
    case NullValue => Ok(None)
    case Unbounded => Ok(None)
    case IntValue(i) => Ok(Some(i))
    case _ => Fail(InvalidCast)
  }

  /** The length a fixed-length store type carries: the bound, or
      int.MinValue when there is none. */
  function FixedLength(maxLength: Option<int>): int {
    if maxLength.Some? then maxLength.value else IntMinValue
  }

  function BinaryStoreType(isFixedLength: bool, maxLength: Option<int>): Usage<string> {
    if isFixedLength then BinaryUsage("blob", true, Some(FixedLength(maxLength)))
    else BinaryUsage("blob", false, maxLength)
  }

  function StringStoreType(isUnicode: bool, isFixedLength: bool, maxLength: Option<int>): Usage<string> {
    if isFixedLength then StringUsage(if isUnicode then "nchar" else "char", isUnicode, true, Some(FixedLength(maxLength)))
    else StringUsage(if isUnicode then "nvarchar" else "varchar", isUnicode, false, maxLength)
  }

  /** The store type for an EDM type, named as in the manifest's store-type
      table. */
  function GetStoreType(edmType: Option<TypeUsage>): (r: Result<Usage<string>>)
    ensures edmType.None? ==> r == Fail(ArgumentNull("edmType"))
    ensures edmType.Some? && !edmType.value.edmType.PrimitiveType? ==> r.Fail? && r.error.Argument?
    ensures edmType.Some? && edmType.value.edmType.PrimitiveType? &&
            edmType.value.edmType.kind in {SByte, Time, DateTimeOffset, Geometry, Geography} ==>
              r.Fail? && r.error.NotSupported?
    ensures r.Ok? && r.value.StringUsage? ==>
              r.value.isFixedLength ==> r.value.maxLength.Some?
    ensures r.Ok? && r.value.BinaryUsage? ==>
              r.value.isFixedLength ==> r.value.maxLength.Some?
  {
    if edmType.None? then Fail(ArgumentNull("edmType"))
    else
      var t := edmType.value;
      if !t.edmType.PrimitiveType? then Fail(Argument("WMI does not support the type '" + TypeName(t.edmType) + "'."))
      else match t.edmType.kind
        case Boolean => Ok(DefaultUsage("bit"))
        case Byte => Ok(DefaultUsage("tinyint"))
        case Int16 => Ok(DefaultUsage("smallint"))
        case Int32 => Ok(DefaultUsage("int"))
        case Int64 => Ok(DefaultUsage("integer"))
        case Guid => Ok(DefaultUsage("uniqueidentifier"))
        case Double => Ok(DefaultUsage("float"))
        case Single => Ok(DefaultUsage("real"))
        case Decimal =>
          (match TryGetByteFacetValue(t, MetadataHelpers.PrecisionFacetName)
           case Fail(e) => Fail(e)
           case Ok(p) =>
             match TryGetByteFacetValue(t, MetadataHelpers.ScaleFacetName)
             case Fail(e) => Fail(e)
             case Ok(s) =>
               Ok(DecimalUsage("decimal", Some((if p.Some? then p.value else 18, if s.Some? then s.value else 0)))))
        case Binary =>
          (match Facet(t, MetadataHelpers.FixedLengthFacetName)
           case Fail(e) => Fail(e)
           case Ok(fixedValue) =>
             match BoolOr(fixedValue, false)
             case Fail(e) => Fail(e)
             case Ok(isFixedLength) =>
               match Facet(t, MetadataHelpers.MaxLengthFacetName)
               case Fail(e) => Fail(e)
               case Ok(lengthValue) =>
                 match BoundedLength(lengthValue)
                 case Fail(e) => Fail(e)
                 case Ok(maxLength) => Ok(BinaryStoreType(isFixedLength, maxLength)))
        case String =>
          (match Facet(t, MetadataHelpers.UnicodeFacetName)
           case Fail(e) => Fail(e)
           case Ok(unicodeValue) =>
             match BoolOr(unicodeValue, true)
             case Fail(e) => Fail(e)
             case Ok(isUnicode) =>
               match Facet(t, MetadataHelpers.FixedLengthFacetName)
               case Fail(e) => Fail(e)
               case Ok(fixedValue) =>
                 match BoolOr(fixedValue, false)
                 case Fail(e) => Fail(e)
                 case Ok(isFixedLength) =>
                   match Facet(t, MetadataHelpers.MaxLengthFacetName)
                   case Fail(e) => Fail(e)
                   case Ok(lengthValue) =>
                     match BoundedLength(lengthValue)
                     case Fail(e) => Fail(e)
                     case Ok(maxLength) => Ok(StringStoreType(isUnicode, isFixedLength, maxLength)))
        case DateTime => Ok(DefaultUsage("datetime"))
        case _ => Fail(NotSupported("There is no store type corresponding to the EDM type of primitive type '"
                                    + MetadataHelpers.KindName(t.edmType.kind) + "'."))
  }

  /** The scalar kinds map to their fixed store names. */
  lemma GetStoreTypeScalars(t: TypeUsage)
    requires t.edmType.PrimitiveType?
    ensures t.edmType.kind == Boolean ==> GetStoreType(Some(t)) == Ok(DefaultUsage("bit"))
    ensures t.edmType.kind == Byte ==> GetStoreType(Some(t)) == Ok(DefaultUsage("tinyint"))
    ensures t.edmType.kind == Int16 ==> GetStoreType(Some(t)) == Ok(DefaultUsage("smallint"))
    ensures t.edmType.kind == Int32 ==> GetStoreType(Some(t)) == Ok(DefaultUsage("int"))
    ensures t.edmType.kind == Int64 ==> GetStoreType(Some(t)) == Ok(DefaultUsage("integer"))
    ensures t.edmType.kind == Guid ==> GetStoreType(Some(t)) == Ok(DefaultUsage("uniqueidentifier"))
    ensures t.edmType.kind == Double ==> GetStoreType(Some(t)) == Ok(DefaultUsage("float"))
    ensures t.edmType.kind == Single ==> GetStoreType(Some(t)) == Ok(DefaultUsage("real"))
    ensures t.edmType.kind == DateTime ==> GetStoreType(Some(t)) == Ok(DefaultUsage("datetime"))
  {
  }

  /** Decimal store types take precision 18 and scale 0 when those facets
      are absent. */
  lemma GetStoreTypeDecimalDefaults(t: TypeUsage)
    requires t.edmType.PrimitiveType? && t.edmType.kind == Decimal
    requires MetadataHelpers.PrecisionFacetName !in t.facets && MetadataHelpers.ScaleFacetName !in t.facets
    ensures GetStoreType(Some(t)) == Ok(DecimalUsage("decimal", Some((18, 0))))
  {
  }

  /** The string store type: a null Unicode facet counts as unicode, a null
      FixedLength facet as variable length; fixed strings are nchar/char,
      the others nvarchar/varchar with the length only when it is bounded. */
  lemma GetStoreTypeString(t: TypeUsage, unicode: FacetValue, fixedLength: FacetValue, maxLength: FacetValue)
    requires t.edmType.PrimitiveType? && t.edmType.kind == String
    requires t.facets == map[MetadataHelpers.UnicodeFacetName := unicode,
                             MetadataHelpers.FixedLengthFacetName := fixedLength,
                             MetadataHelpers.MaxLengthFacetName := maxLength]
    requires unicode == NullValue || unicode.BoolValue?
    requires fixedLength == NullValue || fixedLength.BoolValue?
    requires maxLength in {NullValue, Unbounded} || maxLength.IntValue?
    ensures var isUnicode := unicode == NullValue || unicode.b;
            var isFixed := fixedLength != NullValue && fixedLength.b;
            var bound := if maxLength.IntValue? then Some(maxLength.i) else None;
            GetStoreType(Some(t)) ==
              Ok(if isFixed then StringUsage(if isUnicode then "nchar" else "char", isUnicode, true,
                                             Some(if bound.Some? then bound.value else IntMinValue))
                 else StringUsage(if isUnicode then "nvarchar" else "varchar", isUnicode, false, bound))
  {
  }

  /** The facets TypeUsage.CreateStringTypeUsage / CreateBinaryTypeUsage
      give an EDM usage (an absent bound is the unbounded value). */
  function EdmTypeUsage(kind: PrimitiveTypeKind, u: Usage<PrimitiveTypeKind>): TypeUsage {
    var t := PrimitiveType(MetadataHelpers.KindName(kind), kind, []);
    var bound := if u.StringUsage? || u.BinaryUsage? then
                   (if u.maxLength.Some? then IntValue(u.maxLength.value) else Unbounded)
                 else NullValue;
    match u
    case StringUsage(_, uni, fix, _) =>
      TypeUsage(t, map[MetadataHelpers.UnicodeFacetName := BoolValue(uni),
                       MetadataHelpers.FixedLengthFacetName := BoolValue(fix),
                       MetadataHelpers.MaxLengthFacetName := bound])
    case BinaryUsage(_, fix, _) =>
      TypeUsage(t, map[MetadataHelpers.FixedLengthFacetName := BoolValue(fix),
                       MetadataHelpers.MaxLengthFacetName := bound])
    case _ => TypeUsage(t, map[])
  }

  /** A character store type maps to an EDM string whose unicode and
      fixed-length flags follow the store name, with the store's bound. */
  lemma GetEdmTypeString(storeTypes: map<string, PrimitiveTypeKind>, store: TypeUsage)
    requires IsStringStoreType(Text.ToLower(TypeName(store.edmType)))
    requires Text.ToLower(TypeName(store.edmType)) in storeTypes
    requires TryGetMaxLength(store).Ok?
    ensures var name := Text.ToLower(TypeName(store.edmType));
            GetEdmType(storeTypes, Some(store)) ==
              Ok(StringUsage(storeTypes[name], name in {"nvarchar", "nchar"}, name in {"char", "nchar"},
                             TryGetMaxLength(store).value))
  {
    var name := Text.ToLower(TypeName(store.edmType));
    assert name !in DefaultStoreTypes;
  }

  /** The character store names are already lower case. */
  lemma LowerCaseStoreNames(name: string)
    requires IsStringStoreType(name)
    ensures Text.ToLower(name) == name
  {
    Text.ToLowerKeeps(name);
  }

  /** Mapping a character store type to EDM and back gives the same store
      type, with the same length, whenever that length is bounded (a fixed
      type without a bound comes back with int.MinValue). */
  lemma StringStoreTypeRoundTrip(storeTypes: map<string, PrimitiveTypeKind>, name: string, store: TypeUsage, length: int)
    requires IsStringStoreType(name) && name in storeTypes && storeTypes[name] == String
    requires store.edmType == PrimitiveType(name, String, [])
    requires store.facets == map[MetadataHelpers.MaxLengthFacetName := IntValue(length)]
    ensures GetEdmType(storeTypes, Some(store)).Ok?
    ensures GetStoreType(Some(EdmTypeUsage(String, GetEdmType(storeTypes, Some(store)).value)))
            == Ok(StringUsage(name, name in {"nvarchar", "nchar"}, name in {"char", "nchar"}, Some(length)))
  {
    var uni, fix := name in {"nvarchar", "nchar"}, name in {"char", "nchar"};
    StringStoreToEdm(storeTypes, name, store, length);
    EdmStringToStore(uni, fix, length);
    if fix {
      assert name == (if uni then "nchar" else "char");
    } else {
      assert name == (if uni then "nvarchar" else "varchar");
    }
  }

  /** A character store type with a bound maps to a bounded EDM string. */
  lemma StringStoreToEdm(storeTypes: map<string, PrimitiveTypeKind>, name: string, store: TypeUsage, length: int)
    requires IsStringStoreType(name) && name in storeTypes && storeTypes[name] == String
    requires store.edmType == PrimitiveType(name, String, [])
    requires store.facets == map[MetadataHelpers.MaxLengthFacetName := IntValue(length)]
    ensures GetEdmType(storeTypes, Some(store)) ==
              Ok(StringUsage(String, name in {"nvarchar", "nchar"}, name in {"char", "nchar"}, Some(length)))
  {
    LowerCaseStoreNames(name);
    assert TryGetMaxLength(store) == Ok(Some(length));
    GetEdmTypeString(storeTypes, store);
  }

  /** A bounded EDM string maps to the character store type its flags
      select, with the same bound. */
  lemma EdmStringToStore(uni: bool, fix: bool, length: int)
    ensures GetStoreType(Some(EdmTypeUsage(String, StringUsage(String, uni, fix, Some(length))))) ==
              Ok(StringUsage(if fix then (if uni then "nchar" else "char") else (if uni then "nvarchar" else "varchar"),
                             uni, fix, Some(length)))
  {
    var back := EdmTypeUsage(String, StringUsage(String, uni, fix, Some(length)));
    EdmStringUsageFacets(uni, fix, length);
    GetStoreTypeString(back, BoolValue(uni), BoolValue(fix), IntValue(length));
  }

  /** A bounded EDM string usage carries its three facets. */
  lemma EdmStringUsageFacets(uni: bool, fix: bool, length: int)
    ensures EdmTypeUsage(String, StringUsage(String, uni, fix, Some(length))).facets ==
              map[MetadataHelpers.UnicodeFacetName := BoolValue(uni),
                  MetadataHelpers.FixedLengthFacetName := BoolValue(fix),
                  MetadataHelpers.MaxLengthFacetName := IntValue(length)]
  {
  }
}
