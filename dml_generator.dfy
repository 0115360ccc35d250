// DmlSqlGenerator: the text of an INSERT, UPDATE or DELETE command tree.
// Every constant becomes a parameter named @p0, @p1, ... in the order the
// parameters are created, and a tree with a Returning expression is
// followed by a SELECT that reads the server-generated values back, keyed
// by the best predicate the bound key members allow.
module DmlGeneration {
  import opened Errors
  import opened Text
  import opened Edm
  import opened CommandTrees
  import SystemData
  import MetadataHelpers
  import SqlRules

  /** A parameter of the DML text: WMIParameter(name, value) with its
      DbType assigned afterwards. */
  datatype DmlParameter = DmlParameter(name: string, value: SystemData.Value, dbType: SystemData.DbType)

  /** The name of the parameter created when the counter is `n`. */
  function ParameterName(n: nat): (r: string)
    ensures |r| >= 3 && r[..2] == "@p" && r[2..] == NatToString(n)
  {
    "@p" + NatToString(n)
  }

  /** Different counters give different names. */
  lemma ParameterNamesDistinct(a: nat, b: nat)
    requires a != b
    ensures ParameterName(a) != ParameterName(b)
  {
    if ParameterName(a) == ParameterName(b) {
      NatToStringInjective(a, b);
    }
  }

  /** The CLR type a constant of a primitive kind is boxed as. */
  function ClrTypeOf(k: PrimitiveTypeKind): SystemData.ClrType {
    match k
    case Binary => SystemData.ArrayOf(SystemData.ByteType)
    case Boolean => SystemData.BoolType
    case Byte => SystemData.ByteType
    case DateTime => SystemData.DateTimeType
    case Decimal => SystemData.DecimalType
    case Double => SystemData.DoubleType
    case Single => SystemData.FloatType
    case Guid => SystemData.GuidType
    case Int16 => SystemData.ShortType
    case Int32 => SystemData.IntType
    case Int64 => SystemData.LongType
    case SByte => SystemData.SByteType
    case String => SystemData.StringType
    case _ => SystemData.ObjectType
  }

  // ---------------------------------------------------------------------
  // The translator as a function of its state

  /** The translator's state: the command text so far, the parameter
      counter, the parameters created and, when member values are kept,
      the parameter each member (by name) was last bound to. */
  datatype TState = TState(text: string, count: nat, parameters: seq<DmlParameter>,
                           members: Option<map<string, DmlParameter>>)

  /** StringBuilder.Append on the command text. */
  function Emit(s: TState, t: string): TState {
    s.(text := s.text + t)
  }

  /** CreateParameter(value, dbType): the parameter named after the
      counter is appended and the counter moves on. */
  function Created(s: TState, value: SystemData.Value, dbType: SystemData.DbType): TState {
    s.(count := s.count + 1, parameters := s.parameters + [DmlParameter(ParameterName(s.count), value, dbType)])
  }

  /** Visit(DbConstantExpression): a parameter of the constant's DbType
      (NotSupportedException for a non-primitive type,
      InvalidOperationException for a kind without a DbType), written by
      name. The boxed value's CLR type always has a DbType of its own, so
      WMIParameter's constructor does not throw; the DbType assigned next
      replaces the inferred one. */
  function ConstantParameter(s: TState, ty: TypeUsage, v: ConstantValue): Result<TState> {
    var k :- MetadataHelpers.GetPrimitiveTypeKind(ty);
    var dbType :- MetadataHelpers.GetDbType(k);
    Ok(Emit(Created(s, SystemData.Obj(ClrTypeOf(k), SqlRules.ValueToString(v)), dbType), ParameterName(s.count)))
  }

  /** RegisterMemberValue(property, value): with member values kept, the
      property (which must be a property access) is bound to the last
      parameter created, unless the value is null. */
  function Register(property: Expr, value: Expr, s: TState): (r: Result<TState>)
    ensures r.Ok? ==> r.value.text == s.text && r.value.count == s.count && r.value.parameters == s.parameters
    ensures s.members.None? ==> r == Ok(s)
    ensures s.members.Some? && !property.Property? ==> r == Fail(InvalidCast)
    ensures s.members.Some? && property.Property? && value.Leaf? && value.leaf.Null? ==> r == Ok(s)
    ensures s.members.Some? && property.Property? && !(value.Leaf? && value.leaf.Null?) ==>
              if |s.parameters| == 0 then r == Fail(ArgumentOutOfRange)
              else r.Ok? && r.value.members.Some? &&
                   r.value.members.value == s.members.value[property.propertyName := s.parameters[|s.parameters| - 1]]
  {
    if s.members.None? then Ok(s)
    else if !property.Property? then Fail(InvalidCast)
    else if value.Leaf? && value.leaf.Null? then Ok(s)
    else if |s.parameters| == 0 then Fail(ArgumentOutOfRange)
    else Ok(s.(members := Some(s.members.value[property.propertyName := s.parameters[|s.parameters| - 1]])))
  }

  /** The message of the NotSupportedException for a set with a defining
      query; `kind` names the missing function mapping. */
  function DefiningQueryMessage(extent: EntitySet, kind: string): string {
    "Unable to update the EntitySet '" + extent.name + "' because it has a DefiningQuery and no <" + kind +
    "> element exists in the <ModificationFunctionMapping> element to support the current operation."
  }

  predicate IsPredicateOperator(e: Expr) {
    e.Binary? && (e.binary.And? || e.binary.Or? || e.binary.Comparison?)
  }

  function OperatorText(e: Expr): string
    requires IsPredicateOperator(e)
  {
    if e.binary.And? then " AND " else if e.binary.Or? then " OR " else " = "
  }

  /** The aggregates' arguments are smaller than the aggregates. */
  lemma {:induction false} AggregateArgumentsBounded(ags: seq<Aggregate>)
    ensures forall i :: 0 <= i < |AggregateArguments(ags)| ==> Size(AggregateArguments(ags)[i]) <= SizeAggregates(ags)
  {
    if |ags| > 0 {
      AggregateArgumentsBounded(ags[1..]);
      var first := ags[0].arguments;
      var rest := AggregateArguments(ags[1..]);
      assert AggregateArguments(ags) == first + rest;
      forall i | 0 <= i < |first + rest|
        ensures Size((first + rest)[i]) <= SizeAggregates(ags)
      {
        if i < |first| {
          assert Size(first[i]) <= SizeAll(first);
        } else {
          assert (first + rest)[i] == rest[i - |first|];
        }
      }
    }
  }

  /** The sub-expressions the translator's generic overloads visit, in
      order: they append no text of their own. */
  function DmlChildren(e: Expr): (cs: seq<Expr>)
    ensures forall i :: 0 <= i < |cs| ==> Size(cs[i]) < Size(e)
  {
    if e.Leaf? || e.Property? then []
    else if e.Unary? then [e.argument]
    else if e.Binary? then [e.left, e.right]
    else if e.Nary? then e.arguments
    else if e.Case? then e.whens + e.thens
    else if e.Like? then [e.argument, e.pattern, e.escape]
    else if e.Quantifier? || e.Filter? then [e.input.expression, e.pred]
    else if e.Project? then [e.input.expression, e.projection]
    else if e.Sort? then [e.input.expression] + SortKeys(e.sortOrder)
    else if e.Skip? then [e.input.expression] + SortKeys(e.sortOrder) + [e.count]
    else if e.Limit? then [e.argument, e.limit]
    else if e.GroupBy? then
      AggregateArgumentsBounded(e.aggregates);
      [e.groupInput.expression] + e.keys + AggregateArguments(e.aggregates)
    else if e.Join? then [e.leftInput.expression, e.rightInput.expression, e.joinCondition]
    else if e.CrossJoin? then BindingExpressions(e.inputs)
    else [e.input.expression, e.applied.expression]
  }

  /** The translator's visit of an expression, from the state `s`; `kind`
      names the function mapping a defining query would need.
      - And, Or and comparisons: `(l op r)`, where every comparison is
        written ` = ` and then registers its left side's value;
      - IsNull: the argument and ` IS NULL`;
      - Not: the visit calls itself on the same node without end, which
        the model cuts short as a StackOverflow;
      - constants: a new parameter; null: `NULL`;
      - a scan: the target, unless it has a defining query;
      - a property: its member name (the instance is not visited);
      - a row constructor: its arguments separated by `, `;
      - a CASE without ELSE: ArgumentException after the WHENs and THENs;
      - anything else: its sub-expressions, with no text of its own. */
  function Translate(e: Expr, s: TState, kind: string): Result<TState>
    decreases Size(e), 1, 0
  {
    if IsPredicateOperator(e) then
      var s1 :- Translate(e.left, Emit(s, "("), kind);
      var s2 :- Translate(e.right, Emit(s1, OperatorText(e)), kind);
      if e.binary.Comparison? then Register(e.left, e.right, Emit(s2, ")")) else Ok(Emit(s2, ")"))
    else if e.Unary? && e.unary.IsNull? then
      var s1 :- Translate(e.argument, s, kind);
      Ok(Emit(s1, " IS NULL"))
    else if e.Unary? && e.unary.Not? then
      Fail(StackOverflow)
    else if e.Leaf? && e.leaf.Constant? then
      ConstantParameter(s, e.ty, e.leaf.value)
    else if e.Leaf? && e.leaf.Null? then
      Ok(Emit(s, "NULL"))
    else if e.Leaf? && e.leaf.Scan? then
      if e.leaf.target.definingQuery.Some? then Fail(NotSupported(DefiningQueryMessage(e.leaf.target, kind)))
      else Ok(Emit(s, SqlRules.GetTargetTSql(e.leaf.target)))
    else if e.Property? then
      Ok(Emit(s, SqlRules.QuoteIdentifier(e.propertyName)))
    else if e.Nary? && e.nary.NewInstance? then
      TranslateAll(e.arguments, s, kind, Size(e), ", ", true)
    else if e.Case? && e.elseExpr.None? then
      var s1 :- TranslateAll(DmlChildren(e), s, kind, Size(e), "", true);
      Fail(Argument("expression"))
    else if e.Case? then
      var s1 :- TranslateAll(DmlChildren(e), s, kind, Size(e), "", true);
      Translate(e.elseExpr.value, s1, kind)
    else
      TranslateAll(DmlChildren(e), s, kind, Size(e), "", true)
  }

  /** The visits of a list in order, `sep` written between consecutive
      ones; `first` says whether no element has been visited yet. */
  function TranslateAll(es: seq<Expr>, s: TState, kind: string, bound: nat, sep: string, first: bool): Result<TState>
    requires forall i :: 0 <= i < |es| ==> Size(es[i]) < bound
    decreases bound, 0, |es|
  {
    if |es| == 0 then Ok(s)
    else
      var s1 :- Translate(es[0], if first then s else Emit(s, sep), kind);
      TranslateAll(es[1..], s1, kind, bound, sep, false)
  }

  /** The number of constants the visit of an expression meets, each of
      which becomes a parameter. */
  function VisitedConstants(e: Expr): nat
    decreases Size(e), 1, 0
  {
    if IsPredicateOperator(e) then VisitedConstants(e.left) + VisitedConstants(e.right)
    else if e.Unary? && e.unary.IsNull? then VisitedConstants(e.argument)
    else if e.Unary? && e.unary.Not? then 0
    else if e.Leaf? then (if e.leaf.Constant? then 1 else 0)
    else if e.Property? then 0
    else if e.Case? && e.elseExpr.Some? then VisitedConstantsAll(DmlChildren(e), Size(e)) + VisitedConstants(e.elseExpr.value)
    else VisitedConstantsAll(if e.Nary? && e.nary.NewInstance? then e.arguments else DmlChildren(e), Size(e))
  }

  function VisitedConstantsAll(es: seq<Expr>, bound: nat): nat
    requires forall i :: 0 <= i < |es| ==> Size(es[i]) < bound
    decreases bound, 0, |es|
  {
    if |es| == 0 then 0 else VisitedConstants(es[0]) + VisitedConstantsAll(es[1..], bound)
  }

  // ---------------------------------------------------------------------
  // What every visit keeps

  /** The parameters are @p0, @p1, ... in order, and the counter is their
      number. */
  predicate Numbered(s: TState) {
    s.count == |s.parameters| && forall i :: 0 <= i < |s.parameters| ==> s.parameters[i].name == ParameterName(i)
  }

  /** `t` continues `s`: the text and the parameters only grow, the counter
      grows with the parameters, and member values stay kept or not kept. */
  predicate Extends(s: TState, t: TState) {
    s.text <= t.text && s.parameters <= t.parameters &&
    t.count == s.count + (|t.parameters| - |s.parameters|) && (s.members.None? <==> t.members.None?)
  }

  lemma ExtendsTrans(a: TState, b: TState, c: TState)
    requires Extends(a, b) && Extends(b, c)
    ensures Extends(a, c)
  {
  }

  lemma NumberedExtends(s: TState, t: TState)
    requires Numbered(s) && Extends(s, t)
    requires forall i :: |s.parameters| <= i < |t.parameters| ==> t.parameters[i].name == ParameterName(i)
    ensures Numbered(t)
  {
    forall i | 0 <= i < |t.parameters|
      ensures t.parameters[i].name == ParameterName(i)
    {
      if i < |s.parameters| {
        assert t.parameters[i] == s.parameters[i];
      }
    }
  }

  /** The parameters created after a numbered state are numbered on. */
  predicate NumberedFrom(s: TState, t: TState) {
    forall i :: |s.parameters| <= i < |t.parameters| ==> t.parameters[i].name == ParameterName(i)
  }

  /** A visit extends the state, creates one parameter per constant it
      meets, and keeps the parameters numbered. */
  lemma {:induction false} TranslateExtends(e: Expr, s: TState, kind: string)
    requires Numbered(s) && Translate(e, s, kind).Ok?
    ensures var t := Translate(e, s, kind).value;
            Extends(s, t) && Numbered(t) && |t.parameters| == |s.parameters| + VisitedConstants(e)
    decreases Size(e), 1, 0
  {
    if IsPredicateOperator(e) {
      PredicateExtends(e, s, kind);
    } else if e.Unary? && e.unary.IsNull? {
      IsNullExtends(e, s, kind);
    } else if e.Leaf? && e.leaf.Constant? {
      ConstantExtends(e, s, kind);
    } else if e.Leaf? || e.Property? {
    } else if e.Nary? && e.nary.NewInstance? {
      TranslateAllExtends(e.arguments, s, kind, Size(e), ", ", true);
    } else if e.Case? && e.elseExpr.Some? {
      TranslateAllExtends(DmlChildren(e), s, kind, Size(e), "", true);
      var s1 := TranslateAll(DmlChildren(e), s, kind, Size(e), "", true).value;
      TranslateExtends(e.elseExpr.value, s1, kind);
      ExtendsTrans(s, s1, Translate(e, s, kind).value);
    } else {
      TranslateAllExtends(DmlChildren(e), s, kind, Size(e), "", true);
    }
  }

  /** A predicate operator: `(`, the left operand, the operator, the right
      operand and `)`. */
  lemma {:induction false} PredicateExtends(e: Expr, s: TState, kind: string)
    requires IsPredicateOperator(e)
    requires Numbered(s) && Translate(e, s, kind).Ok?
    ensures var t := Translate(e, s, kind).value;
            Extends(s, t) && Numbered(t) && |t.parameters| == |s.parameters| + VisitedConstants(e)
    decreases Size(e), 0, 0
  {
    var s0 := Emit(s, "(");
    TranslateExtends(e.left, s0, kind);
    var s1 := Translate(e.left, s0, kind).value;
    var s1' := Emit(s1, OperatorText(e));
    TranslateExtends(e.right, s1', kind);
    var s2 := Translate(e.right, s1', kind).value;
    assert Extends(s, s1');
    ExtendsTrans(s, s1', s2);
    ExtendsTrans(s, s2, Emit(s2, ")"));
  }

  /** IS NULL: the argument, then ` IS NULL`. */
  lemma {:induction false} IsNullExtends(e: Expr, s: TState, kind: string)
    requires e.Unary? && e.unary.IsNull?
    requires Numbered(s) && Translate(e, s, kind).Ok?
    ensures var t := Translate(e, s, kind).value;
            Extends(s, t) && Numbered(t) && |t.parameters| == |s.parameters| + VisitedConstants(e)
    decreases Size(e), 0, 0
  {
    TranslateExtends(e.argument, s, kind);
    var s1 := Translate(e.argument, s, kind).value;
    ExtendsTrans(s, s1, Translate(e, s, kind).value);
  }

  /** A constant: one new parameter, named after the counter. */
  lemma ConstantExtends(e: Expr, s: TState, kind: string)
    requires e.Leaf? && e.leaf.Constant?
    requires Numbered(s) && Translate(e, s, kind).Ok?
    ensures var t := Translate(e, s, kind).value;
            Extends(s, t) && Numbered(t) && |t.parameters| == |s.parameters| + VisitedConstants(e)
  {
    var t := Translate(e, s, kind).value;
    assert t.parameters[|s.parameters|].name == ParameterName(s.count);
    NumberedExtends(s, t);
  }

  lemma {:induction false} TranslateAllExtends(es: seq<Expr>, s: TState, kind: string, bound: nat, sep: string, first: bool)
    requires forall i :: 0 <= i < |es| ==> Size(es[i]) < bound
    requires Numbered(s) && TranslateAll(es, s, kind, bound, sep, first).Ok?
    ensures var t := TranslateAll(es, s, kind, bound, sep, first).value;
            Extends(s, t) && Numbered(t) && |t.parameters| == |s.parameters| + VisitedConstantsAll(es, bound)
    decreases bound, 0, |es|
  {
    if |es| > 0 {
      var s0 := if first then s else Emit(s, sep);
      TranslateExtends(es[0], s0, kind);
      var s1 := Translate(es[0], s0, kind).value;
      TranslateAllExtends(es[1..], s1, kind, bound, sep, false);
      var t := TranslateAll(es[1..], s1, kind, bound, sep, false).value;
      ExtendsTrans(s, s1, t);
    }
  }

  // ---------------------------------------------------------------------
  // ExpressionTranslator

  /** A visit's outcome and the state after it agree with the visit's
      specification. */
  predicate Follows(o: Outcome, r: Result<TState>, now: TState) {
    match r
    case Ok(t) => o == Done && now == t
    case Fail(x) => o == Throw(x)
  }

  /** The visitor that writes a DML expression into the shared command
      text, creating the parameters and remembering member values. */
  class ExpressionTranslator {
    /** The command text, shared with the statement being generated. */
    var commandText: string
    var parameterNameCount: nat
    var parameters: seq<DmlParameter>
    /** MemberValues; None when member values are not kept. */
    var memberValues: Option<map<string, DmlParameter>>
    const kind: string

    function State(): TState
      reads this
    {
      TState(commandText, parameterNameCount, parameters, memberValues)
    }

    /** Member values are kept only when asked (for a tree with a
        Returning expression). */
    constructor (commandText: string, preserveMemberValues: bool, kind: string)
      ensures State() == TState(commandText, 0, [], if preserveMemberValues then Some(map[]) else None)
      ensures this.kind == kind
    {
      this.commandText := commandText;
      parameterNameCount := 0;
      parameters := [];
      memberValues := if preserveMemberValues then Some(map[]) else None;
      this.kind := kind;
    }

    method Append(t: string)
      modifies this
      ensures State() == Emit(old(State()), t)
    {
      commandText := commandText + t;
    }

    /** CreateParameter(value, dbType): named after the counter, which is
        then incremented, and appended to the parameters. */
    method CreateParameter(value: SystemData.Value, dbType: SystemData.DbType) returns (p: DmlParameter)
      modifies this
      ensures State() == Created(old(State()), value, dbType)
      ensures p == DmlParameter(ParameterName(old(parameterNameCount)), value, dbType)
    {
      p := DmlParameter(ParameterName(parameterNameCount), value, dbType);
      parameterNameCount := parameterNameCount + 1;
      parameters := parameters + [p];
    }

    /** CreateParameter(value, type) for a constant: the DbType of the
        type's primitive kind. */
    method CreateConstantParameter(ty: TypeUsage, v: ConstantValue) returns (r: Result<DmlParameter>)
      modifies this
      ensures r.Ok? ==> r.value.name == ParameterName(old(parameterNameCount))
      ensures match ConstantParameter(old(State()), ty, v)
              case Ok(t) => r.Ok? && State() == Emit(t, "").(text := old(commandText))
              case Fail(x) => r == Fail(x)
    {
      var k := MetadataHelpers.GetPrimitiveTypeKind(ty);
      if k.Fail? {
        return Fail(k.error);
      }
      var dbType := MetadataHelpers.GetDbType(k.value);
      if dbType.Fail? {
        return Fail(dbType.error);
      }
      var p := CreateParameter(SystemData.Obj(ClrTypeOf(k.value), SqlRules.ValueToString(v)), dbType.value);
      r := Ok(p);
    }

    /** RegisterMemberValue(property, value). */
    method RegisterMemberValue(property: Expr, value: Expr) returns (o: Outcome)
      modifies this
      ensures Follows(o, Register(property, value, old(State())), State())
    {
      o := Done;
      if memberValues.Some? {
        if !property.Property? {
          return Throw(InvalidCast);
        }
        if !(value.Leaf? && value.leaf.Null?) {
          if |parameters| == 0 {
            return Throw(ArgumentOutOfRange);
          }
          memberValues := Some(memberValues.value[property.propertyName := parameters[|parameters| - 1]]);
        }
      }
    }

    /** Accept: the visit of an expression, as Translate specifies it. */
    method Accept(e: Expr) returns (o: Outcome)
      modifies this
      ensures Follows(o, Translate(e, old(State()), kind), State())
      decreases Size(e), 1, 0
    {
      if IsPredicateOperator(e) {
        o := VisitBinary(e);
      } else if e.Unary? && e.unary.IsNull? {
        o := VisitIsNull(e);
      } else if e.Unary? && e.unary.Not? {
        o := Throw(StackOverflow);
      } else if e.Leaf? && e.leaf.Constant? {
        o := VisitConstant(e);
      } else if e.Leaf? || e.Property? {
        o := VisitLeaf(e);
      } else if e.Nary? && e.nary.NewInstance? {
        o := VisitList(e.arguments, Size(e), ", ");
      } else if e.Case? {
        o := VisitCase(e);
      } else {
        o := VisitList(DmlChildren(e), Size(e), "");
      }
    }

    /** Visit(DbIsNullExpression): the argument, then ` IS NULL`. */
    method VisitIsNull(e: Expr) returns (o: Outcome)
      requires e.Unary? && e.unary.IsNull?
      modifies this
      ensures Follows(o, Translate(e, old(State()), kind), State())
      decreases Size(e), 0, 2
    {
      o := Accept(e.argument);
      if o.Done? {
        Append(" IS NULL");
      }
    }

    /** Visit(DbConstantExpression): a new parameter, written by name. */
    method VisitConstant(e: Expr) returns (o: Outcome)
      requires e.Leaf? && e.leaf.Constant?
      modifies this
      ensures Follows(o, Translate(e, old(State()), kind), State())
      decreases Size(e), 0, 0
    {
      var p := CreateConstantParameter(e.ty, e.leaf.value);
      if p.Fail? {
        return Throw(p.error);
      }
      Append(p.value.name);
      o := Done;
    }

    /** The other leaves and property accesses: null is `NULL`, a scan is
        its target, a property its name; the remaining leaves write
        nothing. */
    method VisitLeaf(e: Expr) returns (o: Outcome)
      requires (e.Leaf? && !e.leaf.Constant?) || e.Property?
      modifies this
      ensures Follows(o, Translate(e, old(State()), kind), State())
      decreases Size(e), 0, 0
    {
      o := Done;
      if e.Leaf? && e.leaf.Null? {
        Append("NULL");
      } else if e.Leaf? && e.leaf.Scan? {
        if e.leaf.target.definingQuery.Some? {
          return Throw(NotSupported(DefiningQueryMessage(e.leaf.target, kind)));
        }
        Append(SqlRules.GetTargetTSql(e.leaf.target));
      } else if e.Property? {
        Append(SqlRules.QuoteIdentifier(e.propertyName));
      } else {
        assert DmlChildren(e) == [];
      }
    }

    /** A CASE: its children in order, then its else branch, which the
        translation requires. */
    method VisitCase(e: Expr) returns (o: Outcome)
      requires e.Case?
      modifies this
      ensures Follows(o, Translate(e, old(State()), kind), State())
      decreases Size(e), 0, 3
    {
      o := VisitList(DmlChildren(e), Size(e), "");
      if o.Done? {
        if e.elseExpr.None? {
          return Throw(Argument("expression"));
        }
        o := Accept(e.elseExpr.value);
      }
    }

    /** VisitBinary(e, separator): `(`, the left side, the operator, the
        right side and `)`; a comparison then registers its value. */
    method VisitBinary(e: Expr) returns (o: Outcome)
      requires IsPredicateOperator(e)
      modifies this
      ensures Follows(o, Translate(e, old(State()), kind), State())
      decreases Size(e), 0, 1
    {
      Append("(");
      o := Accept(e.left);
      if o.Throw? {
        return;
      }
      Append(OperatorText(e));
      o := Accept(e.right);
      if o.Throw? {
        return;
      }
      Append(")");
      if e.binary.Comparison? {
        o := RegisterMemberValue(e.left, e.right);
      }
    }

    /** The visits of a list in order, `sep` written between consecutive
        elements (the row constructor's loop and VisitExpressionList). */
    method VisitList(es: seq<Expr>, bound: nat, sep: string) returns (o: Outcome)
      requires forall i :: 0 <= i < |es| ==> Size(es[i]) < bound
      modifies this
      ensures Follows(o, TranslateAll(es, old(State()), kind, bound, sep, true), State())
      decreases bound, 0, 0
    {
      var i := 0;
      while i < |es|
        invariant 0 <= i <= |es|
        invariant TranslateAll(es, old(State()), kind, bound, sep, true) == TranslateAll(es[i..], State(), kind, bound, sep, i == 0)
      {
        assert es[i..][0] == es[i] && es[i..][1..] == es[i + 1..];
        if i > 0 {
          Append(sep);
        }
        o := Accept(es[i]);
        if o.Throw? {
          return;
        }
        i := i + 1;
      }
      o := Done;
    }
  }

  // ---------------------------------------------------------------------
  // The statements as functions of the tree

  /** A new translator over an empty command text. */
  function Start(preserveMemberValues: bool): TState {
    TState("", 0, [], if preserveMemberValues then Some(map[]) else None)
  }

  /** The SET list of an UPDATE: `property = value` per clause, `, `
      between clauses. No member value is registered here. */
  function SetList(cs: seq<SetClause>, s: TState, kind: string, first: bool): Result<TState>
    decreases |cs|
  {
    if |cs| == 0 then Ok(s)
    else
      var s1 :- Translate(cs[0].property, if first then s else Emit(s, ", "), kind);
      var s2 :- Translate(cs[0].value, Emit(s1, " = "), kind);
      SetList(cs[1..], s2, kind, false)
  }

  /** The clause an UPDATE without SET clauses gets, `@pN = 0`, so that
      the row is still locked and server-generated columns recomputed:
      the parameter is a boxed Int32 zero. */
  function NoSetClause(s: TState): TState {
    Emit(Emit(Created(s, SystemData.Obj(SystemData.IntType, "0"), SystemData.Int32), ParameterName(s.count)), " = 0")
  }

  /** The column list of an INSERT: the properties, `, ` between them. */
  function ColumnList(cs: seq<SetClause>, s: TState, kind: string, first: bool): Result<TState>
    decreases |cs|
  {
    if |cs| == 0 then Ok(s)
    else
      var s1 :- Translate(cs[0].property, if first then s else Emit(s, ", "), kind);
      ColumnList(cs[1..], s1, kind, false)
  }

  /** The VALUES list of an INSERT: the values, `, ` between them, each
      registered as its property's value. */
  function ValueList(cs: seq<SetClause>, s: TState, kind: string, first: bool): Result<TState>
    decreases |cs|
  {
    if |cs| == 0 then Ok(s)
    else
      var s1 :- Translate(cs[0].value, if first then s else Emit(s, ", "), kind);
      var s2 :- Register(cs[0].property, cs[0].value, s1);
      ValueList(cs[1..], s2, kind, false)
  }

  /** The key members of the modified table's element type. */
  function KeyMembers(table: EntitySet): seq<EdmProperty> {
    if table.elementType.EntityType? then table.elementType.keyMembers else []
  }

  /** IsIntegerPrimaryKey: a single key member whose type is the
      primitive Int64 (the table's rowid). */
  predicate IsIntegerPrimaryKey(keys: seq<EdmProperty>) {
    |keys| == 1 && MetadataHelpers.TryGetPrimitiveTypeKind(Some(keys[0].typeUsage)) == Some(Int64)
  }

  /** Every key member has a registered value. */
  predicate AllBound(keys: seq<EdmProperty>, members: map<string, DmlParameter>) {
    forall i :: 0 <= i < |keys| ==> keys[i].name in members
  }

  /** The position of the first key member without a value. */
  function FirstMissing(keys: seq<EdmProperty>, members: map<string, DmlParameter>): (i: nat)
    requires !AllBound(keys, members)
    ensures i < |keys| && keys[i].name !in members
    ensures forall j :: 0 <= j < i ==> keys[j].name in members
  {
    if keys[0].name !in members then 0
    else
      assert !AllBound(keys[1..], members) by {
        var k :| 0 <= k < |keys| && keys[k].name !in members;
        assert keys[1..][k - 1] == keys[k];
      }
      1 + FirstMissing(keys[1..], members)
  }

  /** ` AND key = @pN` for one key member bound to parameter @pN. */
  function KeyEquality(key: EdmProperty, members: map<string, DmlParameter>): string
    requires key.name in members
  {
    " AND " + SqlRules.QuoteIdentifier(key.name) + " = " + members[key.name].name
  }

  /** The equalities of all the key members, in key order. */
  function KeyEqualities(keys: seq<EdmProperty>, members: map<string, DmlParameter>): string
    requires AllBound(keys, members)
  {
    if |keys| == 0 then ""
    else KeyEqualities(keys[..|keys| - 1], members) + KeyEquality(keys[|keys| - 1], members)
  }

  /** The message for a key member the statement gave no value. */
  function MissingKeyMessage(statement: string, key: string, table: EntitySet): string {
    "Missing value for " + statement + " key member '" + key + "' in table '" + table.name + "'."
  }

  /** The predicate that selects the modified row after ` WHERE changes()
      > 0`:
      - an integer primary key: equal to its value, or on an INSERT
        without one, to last_insert_rowid();
      - otherwise, when every key member has a value, equal to those;
      - otherwise, on an INSERT, the rowid equal to last_insert_rowid();
      - otherwise NotSupportedException naming the first missing key.
      Without member values (a null MemberValues) the first lookup throws
      NullReferenceException. */
  function KeyPredicate(s: TState, table: EntitySet, wasInsert: bool): Result<TState> {
    var keys := KeyMembers(table);
    if IsIntegerPrimaryKey(keys) then
      var s1 := Emit(Emit(Emit(s, " AND "), SqlRules.QuoteIdentifier(keys[0].name)), " = ");
      if s.members.None? then Fail(NullReference)
      else if keys[0].name in s.members.value then Ok(Emit(s1, s.members.value[keys[0].name].name))
      else if wasInsert then Ok(Emit(s1, "last_insert_rowid()" + NewLine))
      else Fail(NotSupported(MissingKeyMessage("INSERT", keys[0].name, table)))
    else if |keys| == 0 then Ok(s)
    else if s.members.None? then Fail(NullReference)
    else if AllBound(keys, s.members.value) then Ok(Emit(s, KeyEqualities(keys, s.members.value)))
    else if wasInsert then
      Ok(Emit(Emit(Emit(Emit(s, " AND "), SqlRules.QuoteIdentifier("rowid")), " = "), "last_insert_rowid()" + NewLine))
    else Fail(NotSupported(MissingKeyMessage("UPDATE", keys[FirstMissing(keys, s.members.value)].name, table)))
  }

  /** The first lines of the returning SELECT: `SELECT returning`,
      `FROM target` and `WHERE changes() > 0`, so that no row is read
      back when none was modified. */
  function SelectFrom(s: TState, returning: Expr, target: Binding, kind: string): Result<TState> {
    var s1 :- Translate(returning, Emit(s, "SELECT "), kind);
    var s2 :- Translate(target.expression, Emit(Emit(s1, NewLine), "FROM "), kind);
    Ok(Emit(Emit(s2, NewLine), "WHERE changes() > 0"))
  }

  /** GenerateReturningSql: nothing without a Returning expression;
      otherwise the SELECT, the key predicate and `;`. The target must be a
      scan (InvalidCastException otherwise). */
  function ReturningSql(s: TState, target: Binding, returning: Option<Expr>, wasInsert: bool, kind: string): Result<TState> {
    if returning.None? then Ok(s)
    else
      var s1 :- SelectFrom(s, returning.value, target, kind);
      if !(target.expression.Leaf? && target.expression.leaf.Scan?) then Fail(InvalidCast)
      else
        var s2 :- KeyPredicate(s1, target.expression.leaf.target, wasInsert);
        Ok(Emit(s2, ";" + NewLine))
  }

  /** The SET line of an UPDATE; without clauses, the `@pN = 0` one. */
  function SetLine(s: TState, cs: seq<SetClause>, kind: string): Result<TState> {
    var s1 :- SetList(cs, Emit(Emit(s, NewLine), "SET "), kind, true);
    Ok(if |cs| == 0 then NoSetClause(s1) else s1)
  }

  /** The WHERE line of an UPDATE or a DELETE: `WHERE predicate;`. */
  function WhereLine(s: TState, pred: Expr, kind: string): Result<TState> {
    var s1 :- Translate(pred, Emit(Emit(s, NewLine), "WHERE "), kind);
    Ok(Emit(s1, ";" + NewLine))
  }

  /** GenerateUpdateSql: `UPDATE target`, the SET line, the WHERE line
      and the returning SELECT; member values are kept only with a
      Returning expression. */
  function UpdateSql(target: Binding, cs: seq<SetClause>, pred: Expr, returning: Option<Expr>): Result<TState> {
    var kind := "UpdateFunction";
    var s1 :- Translate(target.expression, Emit(Start(returning.Some?), "UPDATE "), kind);
    UpdateRest(s1, target, cs, pred, returning)
  }

  /** What an UPDATE writes after its target. */
  function UpdateRest(s1: TState, target: Binding, cs: seq<SetClause>, pred: Expr, returning: Option<Expr>): Result<TState> {
    var kind := "UpdateFunction";
    var s2 :- SetLine(s1, cs, kind);
    var s3 :- WhereLine(s2, pred, kind);
    ReturningSql(s3, target, returning, false, kind)
  }

  /** The `(columns) VALUES (values);` part of an INSERT with clauses. */
  function InsertRow(cs: seq<SetClause>, s: TState, kind: string): Result<TState> {
    var s1 :- ColumnList(cs, Emit(s, "("), kind, true);
    var s2 :- ValueList(cs, Emit(Emit(s1, ")" + NewLine), " VALUES ("), kind, true);
    Ok(Emit(s2, ");" + NewLine))
  }

  /** GenerateInsertSql: `INSERT INTO target`, then the row or ` DEFAULT
      VALUES;`, then the returning SELECT. */
  function InsertSql(target: Binding, cs: seq<SetClause>, returning: Option<Expr>): Result<TState> {
    var kind := "InsertFunction";
    var s1 :- Translate(target.expression, Emit(Start(returning.Some?), "INSERT INTO "), kind);
    InsertRest(s1, target, cs, returning)
  }

  /** What an INSERT writes after its target. */
  function InsertRest(s1: TState, target: Binding, cs: seq<SetClause>, returning: Option<Expr>): Result<TState> {
    var kind := "InsertFunction";
    var s2 :- if |cs| > 0 then InsertRow(cs, s1, kind) else Ok(Emit(s1, " DEFAULT VALUES;" + NewLine));
    ReturningSql(s2, target, returning, true, kind)
  }

  /** GenerateDeleteSql: `DELETE FROM target` and the WHERE line, never
      keeping member values. */
  function DeleteSql(target: Binding, pred: Expr): Result<TState> {
    var kind := "DeleteFunction";
    var s1 :- Translate(target.expression, Emit(Start(false), "DELETE FROM "), kind);
    WhereLine(s1, pred, kind)
  }

  /** The command text and the parameters of a statement. */
  function Generated(r: Result<TState>): Result<(string, seq<DmlParameter>)> {
    match r
    case Ok(t) => Ok((t.text, t.parameters))
    case Fail(x) => Fail(x)
  }

  // ---------------------------------------------------------------------
  // DmlSqlGenerator

  /** The SET clauses' loop of GenerateUpdateSql. */
  method VisitSetClauses(tr: ExpressionTranslator, cs: seq<SetClause>) returns (o: Outcome)
    modifies tr
    ensures Follows(o, SetList(cs, old(tr.State()), tr.kind, true), tr.State())
  {
    var i := 0;
    while i < |cs|
      invariant 0 <= i <= |cs|
      invariant SetList(cs, old(tr.State()), tr.kind, true) == SetList(cs[i..], tr.State(), tr.kind, i == 0)
    {
      assert cs[i..][0] == cs[i] && cs[i..][1..] == cs[i + 1..];
      if i > 0 {
        tr.Append(", ");
      }
      o := tr.Accept(cs[i].property);
      if o.Throw? {
        return;
      }
      tr.Append(" = ");
      o := tr.Accept(cs[i].value);
      if o.Throw? {
        return;
      }
      i := i + 1;
    }
    o := Done;
  }

  /** The column loop of GenerateInsertSql. */
  method VisitColumns(tr: ExpressionTranslator, cs: seq<SetClause>) returns (o: Outcome)
    modifies tr
    ensures Follows(o, ColumnList(cs, old(tr.State()), tr.kind, true), tr.State())
  {
    var i := 0;
    while i < |cs|
      invariant 0 <= i <= |cs|
      invariant ColumnList(cs, old(tr.State()), tr.kind, true) == ColumnList(cs[i..], tr.State(), tr.kind, i == 0)
    {
      assert cs[i..][0] == cs[i] && cs[i..][1..] == cs[i + 1..];
      if i > 0 {
        tr.Append(", ");
      }
      o := tr.Accept(cs[i].property);
      if o.Throw? {
        return;
      }
      i := i + 1;
    }
    o := Done;
  }

  /** The VALUES loop of GenerateInsertSql. */
  method VisitValues(tr: ExpressionTranslator, cs: seq<SetClause>) returns (o: Outcome)
    modifies tr
    ensures Follows(o, ValueList(cs, old(tr.State()), tr.kind, true), tr.State())
  {
    var i := 0;
    while i < |cs|
      invariant 0 <= i <= |cs|
      invariant ValueList(cs, old(tr.State()), tr.kind, true) == ValueList(cs[i..], tr.State(), tr.kind, i == 0)
    {
      assert cs[i..][0] == cs[i] && cs[i..][1..] == cs[i + 1..];
      if i > 0 {
        tr.Append(", ");
      }
      o := tr.Accept(cs[i].value);
      if o.Throw? {
        return;
      }
      o := tr.RegisterMemberValue(cs[i].property, cs[i].value);
      if o.Throw? {
        return;
      }
      i := i + 1;
    }
    o := Done;
  }

  /** DoAllKeyMembersHaveValues: Ok(None) when every key member has a
      value, otherwise the first that has none. */
  method DoAllKeyMembersHaveValues(memberValues: Option<map<string, DmlParameter>>, keys: seq<EdmProperty>)
    returns (r: Result<Option<EdmProperty>>)
    ensures memberValues.None? ==> r == if |keys| == 0 then Ok(None) else Fail(NullReference)
    ensures memberValues.Some? ==> r.Ok? && (r.value.None? <==> AllBound(keys, memberValues.value))
    ensures memberValues.Some? && r.Ok? && r.value.Some? ==>
              !AllBound(keys, memberValues.value) && r.value.value == keys[FirstMissing(keys, memberValues.value)]
  {
    for i := 0 to |keys|
      invariant memberValues.None? ==> i == 0
      invariant memberValues.Some? ==> forall j :: 0 <= j < i ==> keys[j].name in memberValues.value
    {
      if memberValues.None? {
        return Fail(NullReference);
      }
      if keys[i].name !in memberValues.value {
        return Ok(Some(keys[i]));
      }
    }
    return Ok(None);
  }

  /** The loop of GenerateReturningSql over the key members, all of which
      have values. */
  method AppendKeyEqualities(tr: ExpressionTranslator, keys: seq<EdmProperty>, members: map<string, DmlParameter>)
    requires tr.memberValues == Some(members) && AllBound(keys, members)
    modifies tr
    ensures tr.State() == Emit(old(tr.State()), KeyEqualities(keys, members))
  {
    for i := 0 to |keys|
      invariant tr.memberValues == Some(members) && tr.parameterNameCount == old(tr.parameterNameCount)
      invariant tr.parameters == old(tr.parameters)
      invariant AllBound(keys[..i], members)
      invariant tr.commandText == old(tr.commandText) + KeyEqualities(keys[..i], members)
    {
      assert keys[..i + 1][..i] == keys[..i];
      tr.Append(KeyEquality(keys[i], members));
    }
    assert keys[..|keys|] == keys;
  }

  /** The key predicate of GenerateReturningSql. */
  method AppendKeyPredicate(tr: ExpressionTranslator, table: EntitySet, wasInsert: bool) returns (o: Outcome)
    modifies tr
    ensures Follows(o, KeyPredicate(old(tr.State()), table, wasInsert), tr.State())
  {
    var keys := KeyMembers(table);
    o := Done;
    if IsIntegerPrimaryKey(keys) {
      tr.Append(" AND ");
      tr.Append(SqlRules.QuoteIdentifier(keys[0].name));
      tr.Append(" = ");
      if tr.memberValues.None? {
        return Throw(NullReference);
      }
      if keys[0].name in tr.memberValues.value {
        tr.Append(tr.memberValues.value[keys[0].name].name);
      } else if wasInsert {
        tr.Append("last_insert_rowid()" + NewLine);
      } else {
        return Throw(NotSupported(MissingKeyMessage("INSERT", keys[0].name, table)));
      }
    } else {
      var missing := DoAllKeyMembersHaveValues(tr.memberValues, keys);
      if missing.Fail? {
        return Throw(missing.error);
      }
      if missing.value.None? {
        if |keys| > 0 {
          AppendKeyEqualities(tr, keys, tr.memberValues.value);
        }
      } else if wasInsert {
        tr.Append(" AND ");
        tr.Append(SqlRules.QuoteIdentifier("rowid"));
        tr.Append(" = ");
        tr.Append("last_insert_rowid()" + NewLine);
      } else {
        return Throw(NotSupported(MissingKeyMessage("UPDATE", missing.value.value.name, table)));
      }
    }
  }

  /** The SELECT, FROM and WHERE lines of GenerateReturningSql. */
  method AppendSelectFrom(tr: ExpressionTranslator, returning: Expr, target: Binding) returns (o: Outcome)
    modifies tr
    ensures Follows(o, SelectFrom(old(tr.State()), returning, target, tr.kind), tr.State())
  {
    tr.Append("SELECT ");
    o := tr.Accept(returning);
    if o.Throw? {
      return;
    }
    tr.Append(NewLine);
    tr.Append("FROM ");
    o := tr.Accept(target.expression);
    if o.Throw? {
      return;
    }
    tr.Append(NewLine);
    tr.Append("WHERE changes() > 0");
  }

  /** GenerateReturningSql(commandText, tree, translator, returning, wasInsert). */
  method GenerateReturningSql(tr: ExpressionTranslator, target: Binding, returning: Option<Expr>, wasInsert: bool)
    returns (o: Outcome)
    modifies tr
    ensures Follows(o, ReturningSql(old(tr.State()), target, returning, wasInsert, tr.kind), tr.State())
  {
    o := Done;
    if returning.None? {
      return;
    }
    o := AppendSelectFrom(tr, returning.value, target);
    if o.Throw? {
      return;
    }
    if !(target.expression.Leaf? && target.expression.leaf.Scan?) {
      return Throw(InvalidCast);
    }
    o := AppendKeyPredicate(tr, target.expression.leaf.target, wasInsert);
    if o.Throw? {
      return;
    }
    tr.Append(";" + NewLine);
  }

  /** The SET line of GenerateUpdateSql. */
  method AppendSetLine(tr: ExpressionTranslator, cs: seq<SetClause>) returns (o: Outcome)
    modifies tr
    ensures Follows(o, SetLine(old(tr.State()), cs, tr.kind), tr.State())
  {
    tr.Append(NewLine);
    tr.Append("SET ");
    o := VisitSetClauses(tr, cs);
    if o.Throw? {
      return;
    }
    if |cs| == 0 {
      var p := tr.CreateParameter(SystemData.Obj(SystemData.IntType, "0"), SystemData.Int32);
      tr.Append(p.name);
      tr.Append(" = 0");
    }
  }

  /** The WHERE line of GenerateUpdateSql and GenerateDeleteSql. */
  method AppendWhereLine(tr: ExpressionTranslator, pred: Expr) returns (o: Outcome)
    modifies tr
    ensures Follows(o, WhereLine(old(tr.State()), pred, tr.kind), tr.State())
  {
    tr.Append(NewLine);
    tr.Append("WHERE ");
    o := tr.Accept(pred);
    if o.Throw? {
      return;
    }
    tr.Append(";" + NewLine);
  }

  /** GenerateUpdateSql(tree, out parameters). */
  method GenerateUpdateSql(target: Binding, cs: seq<SetClause>, pred: Expr, returning: Option<Expr>)
    returns (r: Result<(string, seq<DmlParameter>)>)
    ensures r == Generated(UpdateSql(target, cs, pred, returning))
  {
    var tr := new ExpressionTranslator("", returning.Some?, "UpdateFunction");
    tr.Append("UPDATE ");
    var o := tr.Accept(target.expression);
    if o.Throw? {
      return Fail(o.error);
    }
    o := AppendUpdateRest(tr, target, cs, pred, returning);
    if o.Throw? {
      return Fail(o.error);
    }
    r := Ok((tr.commandText, tr.parameters));
  }

  /** What GenerateUpdateSql writes after its target: the SET line, the
      WHERE line and the returning SELECT. */
  method AppendUpdateRest(tr: ExpressionTranslator, target: Binding, cs: seq<SetClause>, pred: Expr, returning: Option<Expr>)
    returns (o: Outcome)
    requires tr.kind == "UpdateFunction"
    modifies tr
    ensures Follows(o, UpdateRest(old(tr.State()), target, cs, pred, returning), tr.State())
  {
    o := AppendSetLine(tr, cs);
    if o.Throw? {
      return;
    }
    o := AppendWhereLine(tr, pred);
    if o.Throw? {
      return;
    }
    o := GenerateReturningSql(tr, target, returning, false);
  }

  /** GenerateDeleteSql(tree, out parameters). */
  method GenerateDeleteSql(target: Binding, pred: Expr) returns (r: Result<(string, seq<DmlParameter>)>)
    ensures r == Generated(DeleteSql(target, pred))
  {
    var tr := new ExpressionTranslator("", false, "DeleteFunction");
    tr.Append("DELETE FROM ");
    var o := tr.Accept(target.expression);
    if o.Throw? {
      return Fail(o.error);
    }
    o := AppendWhereLine(tr, pred);
    if o.Throw? {
      return Fail(o.error);
    }
    r := Ok((tr.commandText, tr.parameters));
  }

  /** The row of GenerateInsertSql: the columns and their values. */
  method AppendInsertRow(tr: ExpressionTranslator, cs: seq<SetClause>) returns (o: Outcome)
    modifies tr
    ensures Follows(o, InsertRow(cs, old(tr.State()), tr.kind), tr.State())
  {
    tr.Append("(");
    o := VisitColumns(tr, cs);
    if o.Throw? {
      return;
    }
    tr.Append(")" + NewLine);
    tr.Append(" VALUES (");
    o := VisitValues(tr, cs);
    if o.Throw? {
      return;
    }
    tr.Append(");" + NewLine);
  }

  /** GenerateInsertSql(tree, out parameters). */
  method GenerateInsertSql(target: Binding, cs: seq<SetClause>, returning: Option<Expr>)
    returns (r: Result<(string, seq<DmlParameter>)>)
    ensures r == Generated(InsertSql(target, cs, returning))
  {
    var tr := new ExpressionTranslator("", returning.Some?, "InsertFunction");
    tr.Append("INSERT INTO ");
    var o := tr.Accept(target.expression);
    if o.Throw? {
      return Fail(o.error);
    }
    if |cs| > 0 {
      o := AppendInsertRow(tr, cs);
      if o.Throw? {
        return Fail(o.error);
      }
    } else {
      tr.Append(" DEFAULT VALUES;" + NewLine);
    }
    o := GenerateReturningSql(tr, target, returning, true);
    if o.Throw? {
      return Fail(o.error);
    }
    r := Ok((tr.commandText, tr.parameters));
  }

  // ---------------------------------------------------------------------
  // What the statements keep

  predicate EndsWith(s: string, suffix: string) {
    |suffix| <= |s| && s[|s| - |suffix|..] == suffix
  }

  lemma {:induction false} SetListExtends(cs: seq<SetClause>, s: TState, kind: string, first: bool)
    requires Numbered(s) && SetList(cs, s, kind, first).Ok?
    ensures var t := SetList(cs, s, kind, first).value;
            Extends(s, t) && Numbered(t)
    decreases |cs|
  {
    if |cs| > 0 {
      var s0 := if first then s else Emit(s, ", ");
      TranslateExtends(cs[0].property, s0, kind);
      var s1 := Translate(cs[0].property, s0, kind).value;
      TranslateExtends(cs[0].value, Emit(s1, " = "), kind);
      var s2 := Translate(cs[0].value, Emit(s1, " = "), kind).value;
      SetListExtends(cs[1..], s2, kind, false);
    }
  }

  lemma {:induction false} ColumnListExtends(cs: seq<SetClause>, s: TState, kind: string, first: bool)
    requires Numbered(s) && ColumnList(cs, s, kind, first).Ok?
    ensures var t := ColumnList(cs, s, kind, first).value;
            Extends(s, t) && Numbered(t)
    decreases |cs|
  {
    if |cs| > 0 {
      var s0 := if first then s else Emit(s, ", ");
      TranslateExtends(cs[0].property, s0, kind);
      var s1 := Translate(cs[0].property, s0, kind).value;
      ColumnListExtends(cs[1..], s1, kind, false);
    }
  }

  lemma {:induction false} ValueListExtends(cs: seq<SetClause>, s: TState, kind: string, first: bool)
    requires Numbered(s) && ValueList(cs, s, kind, first).Ok?
    ensures var t := ValueList(cs, s, kind, first).value;
            Extends(s, t) && Numbered(t)
    decreases |cs|
  {
    if |cs| > 0 {
      var s0 := if first then s else Emit(s, ", ");
      TranslateExtends(cs[0].value, s0, kind);
      var s1 := Translate(cs[0].value, s0, kind).value;
      var s2 := Register(cs[0].property, cs[0].value, s1).value;
      ValueListExtends(cs[1..], s2, kind, false);
    }
  }

  /** The SET line extends the state and keeps it numbered. */
  lemma SetLineExtends(s: TState, cs: seq<SetClause>, kind: string)
    requires Numbered(s) && SetLine(s, cs, kind).Ok?
    ensures var t := SetLine(s, cs, kind).value;
            Extends(s, t) && Numbered(t)
  {
    var s0 := Emit(Emit(s, NewLine), "SET ");
    SetListExtends(cs, s0, kind, true);
    var s1 := SetList(cs, s0, kind, true).value;
    if |cs| == 0 {
      NumberedExtends(s1, NoSetClause(s1));
    }
  }

  /** Without SET clauses, the SET line is `SET @pN = 0`, @pN being the
      one new parameter, a boxed Int32 zero. */
  lemma NoSetClauseParameter(s: TState, kind: string)
    ensures SetLine(s, [], kind) ==
            Ok(TState(s.text + NewLine + "SET " + ParameterName(s.count) + " = 0", s.count + 1,
                      s.parameters + [DmlParameter(ParameterName(s.count), SystemData.Obj(SystemData.IntType, "0"), SystemData.Int32)],
                      s.members))
  {
    assert SetList([], Emit(Emit(s, NewLine), "SET "), kind, true) == Ok(Emit(Emit(s, NewLine), "SET "));
  }

  /** The WHERE line extends the state, keeps it numbered and ends the
      statement with `;`. */
  lemma WhereLineExtends(s: TState, pred: Expr, kind: string)
    requires Numbered(s) && WhereLine(s, pred, kind).Ok?
    ensures var t := WhereLine(s, pred, kind).value;
            Extends(s, t) && Numbered(t) && EndsWith(t.text, ";" + NewLine) &&
            |t.parameters| == |s.parameters| + VisitedConstants(pred)
  {
    TranslateExtends(pred, Emit(Emit(s, NewLine), "WHERE "), kind);
  }

  /** The row of an INSERT extends the state and keeps it numbered. */
  lemma InsertRowExtends(cs: seq<SetClause>, s: TState, kind: string)
    requires Numbered(s) && InsertRow(cs, s, kind).Ok?
    ensures var t := InsertRow(cs, s, kind).value;
            Extends(s, t) && Numbered(t) && EndsWith(t.text, ";" + NewLine)
  {
    ColumnListExtends(cs, Emit(s, "("), kind, true);
    var c := ColumnList(cs, Emit(s, "("), kind, true).value;
    ValueListExtends(cs, Emit(Emit(c, ")" + NewLine), " VALUES ("), kind, true);
  }

  /** The key predicate only writes text. */
  lemma KeyPredicateWrites(s: TState, table: EntitySet, wasInsert: bool)
    requires KeyPredicate(s, table, wasInsert).Ok?
    ensures var t := KeyPredicate(s, table, wasInsert).value;
            s.text <= t.text && t == s.(text := t.text)
  {
  }

  /** The SELECT lines extend the state, start with `SELECT ` and end with
      the `WHERE changes() > 0` filter. */
  lemma SelectFromExtends(s: TState, returning: Expr, target: Binding, kind: string)
    requires Numbered(s) && SelectFrom(s, returning, target, kind).Ok?
    ensures var t := SelectFrom(s, returning, target, kind).value;
            Extends(s, t) && Numbered(t) && s.text + "SELECT " <= t.text && EndsWith(t.text, "WHERE changes() > 0")
  {
    var s0 := Emit(s, "SELECT ");
    TranslateExtends(returning, s0, kind);
    var s1 := Translate(returning, s0, kind).value;
    TranslateExtends(target.expression, Emit(Emit(s1, NewLine), "FROM "), kind);
  }

  /** The returning SELECT extends the state; when there is one, it starts
      with `SELECT `, reads a scan, holds the `WHERE changes() > 0` filter
      and ends the command with `;`. */
  lemma ReturningExtends(s: TState, target: Binding, returning: Option<Expr>, wasInsert: bool, kind: string)
    requires Numbered(s) && ReturningSql(s, target, returning, wasInsert, kind).Ok?
    ensures var t := ReturningSql(s, target, returning, wasInsert, kind).value;
            Extends(s, t) && Numbered(t) &&
            (returning.None? ==> t == s) &&
            (returning.Some? ==> s.text + "SELECT " <= t.text && EndsWith(t.text, ";" + NewLine) &&
                                 target.expression.Leaf? && target.expression.leaf.Scan? &&
                                 exists k :: OccursAt(t.text, "WHERE changes() > 0", k))
  {
    if returning.Some? {
      SelectFromExtends(s, returning.value, target, kind);
      var s1 := SelectFrom(s, returning.value, target, kind).value;
      KeyPredicateWrites(s1, target.expression.leaf.target, wasInsert);
      var t := ReturningSql(s, target, returning, wasInsert, kind).value;
      OccursAtEnd(s1.text, "WHERE changes() > 0");
      OccursAtPrefix(s1.text, t.text, "WHERE changes() > 0", |s1.text| - 19);
    }
  }

  lemma OccursAtEnd(s: string, suffix: string)
    requires EndsWith(s, suffix)
    ensures OccursAt(s, suffix, |s| - |suffix|)
  {
  }

  /** An occurrence stays where it is when text is appended. */
  lemma OccursAtPrefix(s: string, t: string, sub: string, k: int)
    requires OccursAt(s, sub, k) && s <= t
    ensures OccursAt(t, sub, k)
  {
    assert t[k..k + |sub|] == s[k..k + |sub|];
  }

  /** `sub` occurs in `s` at position `k`. */
  predicate OccursAt(s: string, sub: string, k: int) {
    0 <= k && k + |sub| <= |s| && s[k..k + |sub|] == sub
  }

  /** An UPDATE names its parameters @p0, @p1, ... in creation order,
      keeps member values exactly when it has a Returning expression,
      starts with `UPDATE ` and ends with `;`. */
  lemma UpdateWellFormed(target: Binding, cs: seq<SetClause>, pred: Expr, returning: Option<Expr>)
    requires UpdateSql(target, cs, pred, returning).Ok?
    ensures var t := UpdateSql(target, cs, pred, returning).value;
            Numbered(t) && (t.members.Some? <==> returning.Some?) &&
            "UPDATE " <= t.text && EndsWith(t.text, ";" + NewLine)
  {
    var s0 := Emit(Start(returning.Some?), "UPDATE ");
    TranslateExtends(target.expression, s0, "UpdateFunction");
    var s1 := Translate(target.expression, s0, "UpdateFunction").value;
    UpdateRestExtends(s1, target, cs, pred, returning);
    SetLineExtends(s1, cs, "UpdateFunction");
  }

  /** An INSERT names its parameters @p0, @p1, ... in creation order,
      keeps member values exactly when it has a Returning expression,
      starts with `INSERT INTO ` and ends with `;`. */
  lemma InsertWellFormed(target: Binding, cs: seq<SetClause>, returning: Option<Expr>)
    requires InsertSql(target, cs, returning).Ok?
    ensures var t := InsertSql(target, cs, returning).value;
            Numbered(t) && (t.members.Some? <==> returning.Some?) &&
            "INSERT INTO " <= t.text && EndsWith(t.text, ";" + NewLine)
  {
    var s0 := Emit(Start(returning.Some?), "INSERT INTO ");
    TranslateExtends(target.expression, s0, "InsertFunction");
    var s1 := Translate(target.expression, s0, "InsertFunction").value;
    InsertRestExtends(s1, target, cs, returning);
  }

  /** What follows the target of an INSERT extends it and ends with `;`. */
  lemma InsertRestExtends(s1: TState, target: Binding, cs: seq<SetClause>, returning: Option<Expr>)
    requires Numbered(s1) && InsertRest(s1, target, cs, returning).Ok?
    ensures var t := InsertRest(s1, target, cs, returning).value;
            Extends(s1, t) && Numbered(t) && EndsWith(t.text, ";" + NewLine)
  {
    var kind := "InsertFunction";
    if |cs| > 0 {
      InsertRowExtends(cs, s1, kind);
      var s2 := InsertRow(cs, s1, kind).value;
      ReturningExtends(s2, target, returning, true, kind);
      ExtendsTrans(s1, s2, ReturningSql(s2, target, returning, true, kind).value);
    } else {
      var s2 := Emit(s1, " DEFAULT VALUES;" + NewLine);
      NumberedExtends(s1, s2);
      ReturningExtends(s2, target, returning, true, kind);
    }
  }

  /** A DELETE names its parameters @p0, @p1, ... in creation order, one
      per constant of the target and the predicate, never keeps member
      values, starts with `DELETE FROM ` and ends with `;`. */
  lemma DeleteWellFormed(target: Binding, pred: Expr)
    requires DeleteSql(target, pred).Ok?
    ensures var t := DeleteSql(target, pred).value;
            Numbered(t) && t.members.None? &&
            |t.parameters| == VisitedConstants(target.expression) + VisitedConstants(pred) &&
            "DELETE FROM " <= t.text && EndsWith(t.text, ";" + NewLine)
  {
    var kind := "DeleteFunction";
    var s0 := Emit(Start(false), "DELETE FROM ");
    TranslateExtends(target.expression, s0, kind);
    WhereLineExtends(Translate(target.expression, s0, kind).value, pred, kind);
  }

  /** The parameters of a statement have pairwise distinct names. */
  lemma NumberedDistinct(t: TState)
    requires Numbered(t)
    ensures forall i, j :: 0 <= i < j < |t.parameters| ==> t.parameters[i].name != t.parameters[j].name
  {
    forall i, j | 0 <= i < j < |t.parameters|
      ensures t.parameters[i].name != t.parameters[j].name
    {
      ParameterNamesDistinct(i, j);
    }
  }

  /** The visit of a scan: its target, or NotSupportedException for a
      set with a defining query. */
  lemma TranslateScan(e: Expr, s: TState, kind: string)
    requires e.Leaf? && e.leaf.Scan?
    ensures Translate(e, s, kind) ==
            if e.leaf.target.definingQuery.Some? then Fail(NotSupported(DefiningQueryMessage(e.leaf.target, kind)))
            else Ok(Emit(s, SqlRules.GetTargetTSql(e.leaf.target)))
  {
  }

  /** A modification of a set with a defining query is refused whatever
      else the tree holds, naming the function mapping it would need: an
      UPDATE, */
  lemma UpdateDefiningQueryRejected(target: Binding, cs: seq<SetClause>, pred: Expr, returning: Option<Expr>)
    requires target.expression.Leaf? && target.expression.leaf.Scan?
    requires target.expression.leaf.target.definingQuery.Some?
    ensures UpdateSql(target, cs, pred, returning) ==
            Fail(NotSupported(DefiningQueryMessage(target.expression.leaf.target, "UpdateFunction")))
  {
    TranslateScan(target.expression, Emit(Start(returning.Some?), "UPDATE "), "UpdateFunction");
  }

  /** an INSERT */
  lemma InsertDefiningQueryRejected(target: Binding, cs: seq<SetClause>, returning: Option<Expr>)
    requires target.expression.Leaf? && target.expression.leaf.Scan?
    requires target.expression.leaf.target.definingQuery.Some?
    ensures InsertSql(target, cs, returning) ==
            Fail(NotSupported(DefiningQueryMessage(target.expression.leaf.target, "InsertFunction")))
  {
    TranslateScan(target.expression, Emit(Start(returning.Some?), "INSERT INTO "), "InsertFunction");
  }

  /** and a DELETE. */
  lemma DeleteDefiningQueryRejected(target: Binding, pred: Expr)
    requires target.expression.Leaf? && target.expression.leaf.Scan?
    requires target.expression.leaf.target.definingQuery.Some?
    ensures DeleteSql(target, pred) == Fail(NotSupported(DefiningQueryMessage(target.expression.leaf.target, "DeleteFunction")))
  {
    TranslateScan(target.expression, Emit(Start(false), "DELETE FROM "), "DeleteFunction");
  }

  /** Whatever follows the SET line of an UPDATE only extends it. */
  lemma UpdateRestExtends(s1: TState, target: Binding, cs: seq<SetClause>, pred: Expr, returning: Option<Expr>)
    requires Numbered(s1) && UpdateRest(s1, target, cs, pred, returning).Ok?
    ensures var t := UpdateRest(s1, target, cs, pred, returning).value;
            SetLine(s1, cs, "UpdateFunction").Ok? && Extends(SetLine(s1, cs, "UpdateFunction").value, t) &&
            Numbered(t) && (t.members.None? <==> s1.members.None?) && EndsWith(t.text, ";" + NewLine)
  {
    var kind := "UpdateFunction";
    SetLineExtends(s1, cs, kind);
    var s2 := SetLine(s1, cs, kind).value;
    WhereLineExtends(s2, pred, kind);
    var s3 := WhereLine(s2, pred, kind).value;
    ReturningExtends(s3, target, returning, false, kind);
    ExtendsTrans(s2, s3, ReturningSql(s3, target, returning, false, kind).value);
  }

  /** The empty SET line right after `UPDATE <table>`. */
  lemma EmptySetLineAfterTarget(table: string, keep: bool, kind: string)
    ensures SetLine(Emit(Emit(Start(keep), "UPDATE "), table), [], kind) ==
            Ok(TState("UPDATE " + table + NewLine + "SET " + ParameterName(0) + " = 0", 1,
                      [DmlParameter(ParameterName(0), SystemData.Obj(SystemData.IntType, "0"), SystemData.Int32)],
                      Start(keep).members))
  {
    var s1 := Emit(Emit(Start(keep), "UPDATE "), table);
    NoSetClauseParameter(s1, kind);
    assert s1 == TState("UPDATE " + table, 0, [], Start(keep).members);
    assert s1.parameters + [DmlParameter(ParameterName(0), SystemData.Obj(SystemData.IntType, "0"), SystemData.Int32)] ==
           [DmlParameter(ParameterName(0), SystemData.Obj(SystemData.IntType, "0"), SystemData.Int32)];
    assert s1.text + NewLine + "SET " + ParameterName(0) + " = 0" ==
           "UPDATE " + table + NewLine + "SET " + ParameterName(0) + " = 0";
  }

  /** An UPDATE whose target visit succeeded goes on with UpdateRest. */
  lemma UpdateSqlAfterTarget(target: Binding, cs: seq<SetClause>, pred: Expr, returning: Option<Expr>, s1: TState)
    requires Translate(target.expression, Emit(Start(returning.Some?), "UPDATE "), "UpdateFunction") == Ok(s1)
    ensures UpdateSql(target, cs, pred, returning) == UpdateRest(s1, target, cs, pred, returning)
  {
  }

  /** An UPDATE of a scan without SET clauses writes `SET @p0 = 0`, @p0
      being a boxed Int32 zero. */
  lemma EmptyUpdateSetsParameter(target: Binding, pred: Expr, returning: Option<Expr>)
    requires target.expression.Leaf? && target.expression.leaf.Scan?
    requires UpdateSql(target, [], pred, returning).Ok?
    ensures var t := UpdateSql(target, [], pred, returning).value;
            "UPDATE " + SqlRules.GetTargetTSql(target.expression.leaf.target) + NewLine + "SET " + ParameterName(0) + " = 0" <= t.text &&
            |t.parameters| >= 1 && t.parameters[0] == DmlParameter(ParameterName(0), SystemData.Obj(SystemData.IntType, "0"), SystemData.Int32)
  {
    var kind := "UpdateFunction";
    var table := target.expression.leaf.target;
    if table.definingQuery.Some? {
      UpdateDefiningQueryRejected(target, [], pred, returning);
      assert false;
    }
    var s0 := Emit(Start(returning.Some?), "UPDATE ");
    TranslateScan(target.expression, s0, kind);
    var s1 := Emit(s0, SqlRules.GetTargetTSql(table));
    UpdateSqlAfterTarget(target, [], pred, returning, s1);
    EmptySetLineAfterTarget(SqlRules.GetTargetTSql(table), returning.Some?, kind);
    UpdateRestExtends(s1, target, [], pred, returning);
  }

  lemma PrefixTrans(a: string, b: string, c: string)
    requires a <= b && b <= c
    ensures a <= c
  {
  }

  /** An INSERT without SET clauses or Returning expression into a plain
      table inserts a row of default values, with no parameter. */
  lemma InsertDefaultValues(target: Binding)
    requires target.expression.Leaf? && target.expression.leaf.Scan?
    requires target.expression.leaf.target.definingQuery.None?
    ensures InsertSql(target, [], None) ==
            Ok(TState("INSERT INTO " + SqlRules.GetTargetTSql(target.expression.leaf.target) + " DEFAULT VALUES;" + NewLine, 0, [], None))
  {
    var s0 := Emit(Start(false), "INSERT INTO ");
    TranslateScan(target.expression, s0, "InsertFunction");
    var s1 := Emit(s0, SqlRules.GetTargetTSql(target.expression.leaf.target));
    assert Emit(s1, " DEFAULT VALUES;" + NewLine).text ==
           "INSERT INTO " + SqlRules.GetTargetTSql(target.expression.leaf.target) + " DEFAULT VALUES;" + NewLine;
  }

  /** A value registered right after its constant was visited is bound to
      the parameter created for that constant. */
  lemma ConstantRegistered(property: Expr, value: Expr, s: TState, kind: string)
    requires s.members.Some? && property.Property?
    requires value.Leaf? && value.leaf.Constant? && Translate(value, s, kind).Ok?
    ensures var t := Translate(value, s, kind).value;
            var m := Register(property, value, t);
            m.Ok? && m.value.members.Some? &&
            m.value.members.value[property.propertyName] == t.parameters[|t.parameters| - 1] &&
            t.parameters[|t.parameters| - 1].name == ParameterName(s.count)
  {
  }

  /** The key equalities name the keys in order: the first key's equality
      comes first. */
  lemma {:induction false} KeyEqualitiesFirst(keys: seq<EdmProperty>, members: map<string, DmlParameter>)
    requires |keys| > 0 && AllBound(keys, members)
    ensures AllBound(keys[1..], members)
    ensures KeyEqualities(keys, members) == KeyEquality(keys[0], members) + KeyEqualities(keys[1..], members)
    decreases |keys|
  {
    assert AllBound(keys[1..], members) by {
      forall i | 0 <= i < |keys[1..]|
        ensures keys[1..][i].name in members
      {
        assert keys[1..][i] == keys[i + 1];
      }
    }
    var init := keys[..|keys| - 1];
    assert AllBound(init, members) by {
      forall i | 0 <= i < |init|
        ensures init[i].name in members
      {
        assert init[i] == keys[i];
      }
    }
    if |keys| > 1 {
      KeyEqualitiesFirst(init, members);
      assert init[1..] == keys[1..][..|keys[1..]| - 1];
      assert init[0] == keys[0];
      assert keys[1..][|keys[1..]| - 1] == keys[|keys| - 1];
    } else {
      assert keys[1..] == [];
    }
  }

  /** The key predicate of a table whose key is an integer primary key:
      ` AND key = @pN` when the key is bound to parameter @pN; otherwise
      the last inserted rowid after an INSERT and NotSupportedException
      after an UPDATE. */
  lemma IntegerKeyPolicy(s: TState, table: EntitySet, wasInsert: bool, members: map<string, DmlParameter>)
    requires s.members == Some(members) && IsIntegerPrimaryKey(KeyMembers(table))
    ensures var key := KeyMembers(table)[0].name;
            KeyPredicate(s, table, wasInsert) ==
            if key in members then Ok(s.(text := s.text + " AND " + key + " = " + members[key].name))
            else if wasInsert then Ok(s.(text := s.text + " AND " + key + " = last_insert_rowid()" + NewLine))
            else Fail(NotSupported(MissingKeyMessage("INSERT", key, table)))
  {
    var key := KeyMembers(table)[0].name;
    var s1 := Emit(Emit(Emit(s, " AND "), SqlRules.QuoteIdentifier(key)), " = ");
    assert s1.text == s.text + " AND " + key + " = ";
    assert Emit(s1, "last_insert_rowid()" + NewLine).text == s.text + " AND " + key + " = last_insert_rowid()" + NewLine;
  }

  /** The key predicate of any other table whose key members are all
      bound: one equality per key member, in key order. */
  lemma BoundKeyPolicy(s: TState, table: EntitySet, wasInsert: bool, members: map<string, DmlParameter>)
    requires s.members == Some(members) && !IsIntegerPrimaryKey(KeyMembers(table))
    requires AllBound(KeyMembers(table), members)
    ensures var keys := KeyMembers(table);
            KeyPredicate(s, table, wasInsert) == Ok(s.(text := s.text + (if |keys| == 0 then "" else KeyEqualities(keys, members))))
  {
    if |KeyMembers(table)| == 0 {
      assert s.(text := s.text + "") == s;
    }
  }

  /** The key predicate of any other table with an unbound key member:
      the rowid of the last insert after an INSERT, NotSupportedException
      naming the first unbound key member after an UPDATE. */
  lemma UnboundKeyPolicy(s: TState, table: EntitySet, wasInsert: bool, members: map<string, DmlParameter>)
    requires s.members == Some(members) && !IsIntegerPrimaryKey(KeyMembers(table))
    requires !AllBound(KeyMembers(table), members)
    ensures var keys := KeyMembers(table);
            KeyPredicate(s, table, wasInsert) ==
            if wasInsert then Ok(s.(text := s.text + " AND rowid = last_insert_rowid()" + NewLine))
            else Fail(NotSupported(MissingKeyMessage("UPDATE", keys[FirstMissing(keys, members)].name, table)))
  {
    assert Emit(Emit(Emit(Emit(s, " AND "), SqlRules.QuoteIdentifier("rowid")), " = "), "last_insert_rowid()" + NewLine).text ==
           s.text + " AND rowid = last_insert_rowid()" + NewLine;
  }
}
