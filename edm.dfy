// Entity Framework metadata, reduced to the records the provider reads:
// type usages with their facets, EDM types, properties, entity sets and
// functions.
module Edm {
  import opened Errors

  /** System.Data.Entity.Core.Metadata.Edm.PrimitiveTypeKind (the spatial
      kinds are represented by Geometry and Geography). */
  datatype PrimitiveTypeKind =
    | Binary | Boolean | Byte | DateTime | Decimal | Double | Guid | Single | SByte
    | Int16 | Int32 | Int64 | String | Time | DateTimeOffset | Geometry | Geography

  /** The value of a facet: null, the special unbounded value, or a boxed
      int, bool or byte. */
  datatype FacetValue = NullValue | Unbounded | IntValue(i: int) | BoolValue(b: bool) | ByteValue(n: nat)

  datatype FacetDescription = FacetDescription(facetName: string, isConstant: bool)

  /** A type together with its facets, looked up by exact facet name. */
  datatype TypeUsage = TypeUsage(edmType: EdmType, facets: map<string, FacetValue>)

  datatype EdmType =
    | PrimitiveType(name: string, kind: PrimitiveTypeKind, facetDescriptions: seq<FacetDescription>)
    | CollectionType(elementType: TypeUsage)
    | RowType(properties: seq<EdmProperty>)
    | EntityType(name: string, properties: seq<EdmProperty>, keyMembers: seq<EdmProperty>)
    | ComplexType(name: string, properties: seq<EdmProperty>)
    | OtherType(name: string)

  /** EdmType.Name; collection and row types, which carry no declared
      name, answer with their kind. */
  function TypeName(t: EdmType): string {
    match t
    case PrimitiveType(n, _, _) => n
    case CollectionType(_) => "collection"
    case RowType(_) => "rowtype"
    case EntityType(n, _, _) => n
    case ComplexType(n, _) => n
    case OtherType(n) => n
  }

  datatype EdmProperty = EdmProperty(name: string, typeUsage: TypeUsage)

  /** System.Data.Entity.Core.Metadata.Edm.ParameterMode. */
  datatype ParameterMode = In | Out | InOut | ReturnValue

  /** An entity set with the store metadata properties the provider reads
      ("Table" and "DefiningQuery"; absent ones are None). */
  datatype EntitySet = EntitySet(name: string, table: Option<string>, definingQuery: Option<string>,
                                 elementType: EdmType)

  datatype FunctionParameter = FunctionParameter(name: string, typeUsage: TypeUsage, mode: ParameterMode)

  /** A store function with the metadata attributes the generator reads. */
  datatype EdmFunction = EdmFunction(
    name: string,
    namespaceName: string,
    storeFunctionName: Option<string>,
    commandText: Option<string>,
    builtIn: bool,
    niladic: bool,
    parameters: seq<FunctionParameter>)
}
