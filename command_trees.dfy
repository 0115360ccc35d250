// Entity Framework command trees, restricted to the expression kinds the
// provider's generators visit: the query expression tree, its bindings,
// sort clauses and aggregates, and the query, function and modification
// command trees handed to the provider.
module CommandTrees {
  import opened Errors
  import opened Edm

  datatype ComparisonKind = Equals | NotEquals | LessThan | LessThanOrEquals | GreaterThan | GreaterThanOrEquals

  datatype ArithmeticKind = Plus | Minus | Multiply | Divide | Modulo | UnaryMinus

  datatype JoinKind = InnerJoin | LeftOuterJoin | FullOuterJoin

  datatype ApplyKind = CrossApply | OuterApply

  datatype SetOpKind = UnionAll | Except | Intersect

  datatype QuantifierKind = Any | All

  /** The reference and type-test operators, which the query generator
      rejects: Deref, EntityRef, RefKey, IsOf, OfType, Ref and Treat. */
  datatype RefKind = Deref | EntityRef | RefKey | IsOf | OfType | Ref | Treat

  /** The boxed value of a constant. DateTime, Decimal, Double and Single
      values are represented by the text .NET formats them to (the DMTF
      text for a DateTime, the invariant-culture text for the numbers). A
      Guid carries both its 16 bytes (Guid.ToByteArray) and its text. */
  datatype ConstantValue =
    | IntegerValue(i: int)
    | BooleanValue(b: bool)
    | BytesValue(bytes: seq<bv8>)
    | GuidValue(guidBytes: seq<bv8>, guidText: string)
    | StringValue(s: string)
    | FormattedValue(text: string)

  /** An input of a relational node: the expression and the variable that
      ranges over its elements. */
  datatype Binding = Binding(variableName: string, variableType: TypeUsage, expression: Expr)

  /** The input of a GROUP BY: the element variable and the group
      variable. */
  datatype GroupBinding = GroupBinding(variableName: string, groupVariableName: string,
                                       variableType: TypeUsage, expression: Expr)

  datatype SortClause = SortClause(expression: Expr, ascending: bool, collation: string)

  /** An aggregate of a GROUP BY: a function aggregate, or any other kind. */
  datatype Aggregate =
    | FunctionAggregate(aggregateFunction: EdmFunction, distinct: bool, arguments: seq<Expr>)
    | OtherAggregate(arguments: seq<Expr>)

  /** The nodes without sub-expressions. */
  datatype Leaf =
    | Constant(value: ConstantValue)
    | Null
    | ParameterReference(parameterName: string)
    | VariableReference(variableName: string)
    | Scan(target: EntitySet)

  /** The kinds of DbUnaryExpression, and relationship navigation (whose
      only sub-expression is its source). */
  datatype UnaryKind = Cast | Not | IsNull | IsEmpty | Distinct | Element | RefOp(refOp: RefKind) | Navigate

  /** The kinds of DbBinaryExpression. */
  datatype BinaryKind = And | Or | Comparison(comparison: ComparisonKind) | SetOp(setOp: SetOpKind)

  /** The nodes over an argument list. */
  datatype ListKind = Arithmetic(arithmetic: ArithmeticKind) | Function(edmFunction: EdmFunction) | NewInstance

  /** A query expression; `ty` is its DbExpression.ResultType. */
  datatype Expr =
    | Leaf(ty: TypeUsage, leaf: Leaf)
    | Property(ty: TypeUsage, instance: Expr, propertyName: string)
    | Unary(ty: TypeUsage, unary: UnaryKind, argument: Expr)
    | Binary(ty: TypeUsage, binary: BinaryKind, left: Expr, right: Expr)
    | Nary(ty: TypeUsage, nary: ListKind, arguments: seq<Expr>)
    | Case(ty: TypeUsage, whens: seq<Expr>, thens: seq<Expr>, elseExpr: Option<Expr>)
    | Like(ty: TypeUsage, argument: Expr, pattern: Expr, escape: Expr)
    | Quantifier(ty: TypeUsage, quantifier: QuantifierKind, input: Binding, pred: Expr)
    | Filter(ty: TypeUsage, input: Binding, pred: Expr)
    | Project(ty: TypeUsage, input: Binding, projection: Expr)
    | Sort(ty: TypeUsage, input: Binding, sortOrder: seq<SortClause>)
    | Skip(ty: TypeUsage, input: Binding, sortOrder: seq<SortClause>, count: Expr)
    | Limit(ty: TypeUsage, argument: Expr, limit: Expr, withTies: bool)
    | GroupBy(ty: TypeUsage, groupInput: GroupBinding, keys: seq<Expr>, aggregates: seq<Aggregate>)
    | Join(ty: TypeUsage, join: JoinKind, leftInput: Binding, rightInput: Binding, joinCondition: Expr)
    | CrossJoin(ty: TypeUsage, inputs: seq<Binding>)
    | Apply(ty: TypeUsage, apply: ApplyKind, input: Binding, applied: Binding)

  /** The number of nodes of an expression, counting the expressions of
      its bindings, sort clauses and aggregates. */
  function Size(e: Expr): (n: nat)
    ensures n >= 1
    decreases e
  {
    match e
    case Leaf(_, _) => 1
    case Property(_, i, _) => 1 + Size(i)
    case Unary(_, _, a) => 1 + Size(a)
    case Binary(_, _, l, r) => 1 + Size(l) + Size(r)
    case Nary(_, _, args) => 1 + SizeAll(args)
    case Case(_, ws, ts, el) => 1 + SizeAll(ws) + SizeAll(ts) + (if el.Some? then Size(el.value) else 0)
    case Like(_, a, p, esc) => 1 + Size(a) + Size(p) + Size(esc)
    case Quantifier(_, _, b, p) => 1 + Size(b.expression) + Size(p)
    case Filter(_, b, p) => 1 + Size(b.expression) + Size(p)
    case Project(_, b, p) => 1 + Size(b.expression) + Size(p)
    case Sort(_, b, cs) => 1 + Size(b.expression) + SizeSorts(cs)
    case Skip(_, b, cs, c) => 1 + Size(b.expression) + SizeSorts(cs) + Size(c)
    case Limit(_, a, l, _) => 1 + Size(a) + Size(l)
    case GroupBy(_, g, ks, ags) => 1 + Size(g.expression) + SizeAll(ks) + SizeAggregates(ags)
    case Join(_, _, l, r, c) => 1 + Size(l.expression) + Size(r.expression) + Size(c)
    case CrossJoin(_, bs) => 1 + SizeBindings(bs)
    case Apply(_, _, b, a) => 1 + Size(b.expression) + Size(a.expression)
  }

  function SizeAll(es: seq<Expr>): (n: nat)
    ensures forall i :: 0 <= i < |es| ==> Size(es[i]) <= n
    decreases es
  {
    if |es| == 0 then 0 else Size(es[0]) + SizeAll(es[1..])
  }

  function SizeSorts(cs: seq<SortClause>): (n: nat)
    ensures forall i :: 0 <= i < |cs| ==> Size(cs[i].expression) <= n
    decreases cs
  {
    if |cs| == 0 then 0 else Size(cs[0].expression) + SizeSorts(cs[1..])
  }

  function SizeBindings(bs: seq<Binding>): (n: nat)
    ensures forall i :: 0 <= i < |bs| ==> Size(bs[i].expression) <= n
    decreases bs
  {
    if |bs| == 0 then 0 else Size(bs[0].expression) + SizeBindings(bs[1..])
  }

  function SizeAggregates(ags: seq<Aggregate>): (n: nat)
    ensures forall i :: 0 <= i < |ags| ==> SizeAll(ags[i].arguments) <= n
    decreases ags
  {
    if |ags| == 0 then 0 else SizeAll(ags[0].arguments) + SizeAggregates(ags[1..])
  }

  /** The expressions of sort clauses, in order. */
  function SortKeys(cs: seq<SortClause>): (es: seq<Expr>)
    ensures |es| == |cs| && forall i :: 0 <= i < |cs| ==> es[i] == cs[i].expression
  {
    if |cs| == 0 then [] else [cs[0].expression] + SortKeys(cs[1..])
  }

  /** The expressions of bindings, in order. */
  function BindingExpressions(bs: seq<Binding>): (es: seq<Expr>)
    ensures |es| == |bs| && forall i :: 0 <= i < |bs| ==> es[i] == bs[i].expression
  {
    if |bs| == 0 then [] else [bs[0].expression] + BindingExpressions(bs[1..])
  }

  /** The arguments of aggregates, one aggregate after the other. */
  function AggregateArguments(ags: seq<Aggregate>): seq<Expr> {
    if |ags| == 0 then [] else ags[0].arguments + AggregateArguments(ags[1..])
  }

  lemma {:induction false} SizeAllAppend(a: seq<Expr>, b: seq<Expr>)
    ensures SizeAll(a + b) == SizeAll(a) + SizeAll(b)
  {
    if |a| == 0 {
      assert a + b == b;
    } else {
      assert (a + b)[0] == a[0];
      assert (a + b)[1..] == a[1..] + b;
      SizeAllAppend(a[1..], b);
    }
  }

  /** The Boolean type the predicates of the tree have. */
  const BooleanType: TypeUsage := TypeUsage(PrimitiveType("Boolean", Boolean, []), map[])

  function CollectionOf(t: TypeUsage): TypeUsage {
    TypeUsage(CollectionType(t), map[])
  }

  /** The row type a join produces: one column per input variable. */
  function JoinRow(bs: seq<Binding>): (t: TypeUsage)
    ensures t.edmType.RowType? && |t.edmType.properties| == |bs|
  {
    TypeUsage(RowType(seq(|bs|, i requires 0 <= i < |bs| => EdmProperty(bs[i].variableName, bs[i].variableType))), map[])
  }

  /** A value of a modification: `property = value`. */
  datatype SetClause = SetClause(property: Expr, value: Expr)

  /** A parameter of a command tree: its name and type. */
  datatype TreeParameter = TreeParameter(name: string, typeUsage: TypeUsage)

  /** The command tree kinds: a query, a store function call, the three
      modifications (whose target binds a scan of the modified set), and any
      other kind. */
  datatype TreeBody =
    | QueryTree(query: Expr)
    | FunctionTree(edmFunction: EdmFunction)
    | InsertTree(target: Binding, setClauses: seq<SetClause>, returning: Option<Expr>)
    | UpdateTree(target: Binding, setClauses: seq<SetClause>, pred: Expr, returning: Option<Expr>)
    | DeleteTree(target: Binding, pred: Expr)
    | OtherTree

  datatype CommandTree = CommandTree(body: TreeBody, parameters: seq<TreeParameter>)

  /** An insert, update or delete tree. */
  predicate IsModification(t: TreeBody) {
    t.InsertTree? || t.UpdateTree? || t.DeleteTree?
  }
}
