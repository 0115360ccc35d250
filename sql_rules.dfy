// The decisions of the query generator that depend on the tree and the
// statement under construction only: when a relational node may extend its
// input's statement, which operands are parenthesised, the OR to IN
// rewrite, literal encoding, the group-by inner query, and the texts of
// store functions and entity sets.
module SqlRules {
  import opened Errors
  import opened Text
  import opened Edm
  import opened MetadataHelpers
  import opened CommandTrees
  import opened SqlFragments
  import opened Symbols

  // ---------------------------------------------------------------------
  // Statement reuse

  /** The expression kinds IsCompatible is asked about; `OtherKind` stands
      for every kind it does not list. */
  datatype StatementKind =
    | DistinctKind | FilterKind | GroupByKind | LimitKind | ElementKind | ProjectKind | SkipKind | SortKind
    | OtherKind

  /** IsCompatible: whether a node of the given kind may add its clause to
      the statement produced for its input instead of wrapping it in a new
      statement. */
  function IsCompatible(st: SqlSelectStatement, kind: StatementKind): (r: Result<bool>)
    ensures r.Fail? <==> kind == OtherKind
    ensures r.Fail? ==> r.error == InvalidOperation("")
  {
    match kind
    case DistinctKind => Ok(st.top.None? && st.orderBy.IsEmpty())
    case FilterKind => Ok(st.select.IsEmpty() && st.where.IsEmpty() && st.groupBy.IsEmpty() && st.top.None?)
    case GroupByKind => Ok(st.select.IsEmpty() && st.groupBy.IsEmpty() && st.orderBy.IsEmpty() && st.top.None?)
    case LimitKind => Ok(st.top.None?)
    case ElementKind => Ok(st.top.None?)
    case ProjectKind => Ok(st.select.IsEmpty() && st.groupBy.IsEmpty())
    case SkipKind => Ok(st.select.IsEmpty() && st.groupBy.IsEmpty() && st.orderBy.IsEmpty() && !st.isDistinct)
    case SortKind => Ok(st.select.IsEmpty() && st.groupBy.IsEmpty() && st.orderBy.IsEmpty())
    case OtherKind => Fail(InvalidOperation(""))
  }

  predicate Reusable(st: SqlSelectStatement, kind: StatementKind) {
    IsCompatible(st, kind) == Ok(true)
  }

  /** A statement nothing has been added to may be extended by every node. */
  lemma NewStatementReusable(kind: StatementKind)
    requires kind != OtherKind
    ensures Reusable(NewStatement, kind)
  {
  }

  /** The reuse conditions are nested: Skip demands more than Sort, Sort
      and GroupBy more than Project, Filter more than Project, and GroupBy
      more than Limit. */
  lemma ReuseConditionsNest(st: SqlSelectStatement)
    ensures Reusable(st, SkipKind) ==> Reusable(st, SortKind)
    ensures Reusable(st, SortKind) ==> Reusable(st, ProjectKind)
    ensures Reusable(st, GroupByKind) ==> Reusable(st, SortKind) && Reusable(st, LimitKind)
    ensures Reusable(st, FilterKind) ==> Reusable(st, ProjectKind) && Reusable(st, LimitKind)
    ensures Reusable(st, LimitKind) <==> Reusable(st, ElementKind)
  {
  }

  /** Once a statement has a projection, only DISTINCT, a limit or an
      element access may extend it; once it has a row limit, only a
      projection, a skip or a sort may. */
  lemma ReuseAfterSelectOrTop(st: SqlSelectStatement, kind: StatementKind)
    ensures !st.select.IsEmpty() && Reusable(st, kind) ==> kind in {DistinctKind, LimitKind, ElementKind}
    ensures st.top.Some? && Reusable(st, kind) ==> kind in {ProjectKind, SkipKind, SortKind}
    ensures st.isDistinct && Reusable(st, kind) ==> kind != SkipKind
  {
  }

  // ---------------------------------------------------------------------
  // Parenthesisation

  /** IsComplexExpression: every operand except a constant, a parameter
      reference or a property access is put in parentheses. */
  predicate IsComplexExpression(e: Expr) {
    !(e.Property? || (e.Leaf? && (e.leaf.Constant? || e.leaf.ParameterReference?)))
  }

  /** An operand's text, in parentheses when the operand is complex. */
  function Parenthesized(e: Expr, f: Fragment): seq<Fragment> {
    if IsComplexExpression(e) then [Text("("), f, Text(")")] else [f]
  }

  /** VisitBinaryExpression: left operand, operator, right operand. */
  function BinaryLayout(op: string, left: Expr, lf: Fragment, right: Expr, rf: Fragment): seq<Fragment> {
    Parenthesized(left, lf) + [Text(op)] + Parenthesized(right, rf)
  }

  /** An operand is wrapped exactly when it is complex, and its text
      appears once, unchanged. */
  lemma ParenthesizedIffComplex(e: Expr, f: Fragment)
    ensures Parenthesized(e, f) == [Text("("), f, Text(")")] <==> IsComplexExpression(e)
    ensures !IsComplexExpression(e) <==> Parenthesized(e, f) == [f]
    ensures f in Parenthesized(e, f)
  {
  }

  /** The operator sits between the two operands' texts, and is the
      first fragment after the left operand's closing parenthesis. */
  lemma BinaryLayoutParts(op: string, left: Expr, lf: Fragment, right: Expr, rf: Fragment)
    ensures var n := |Parenthesized(left, lf)|;
            BinaryLayout(op, left, lf, right, rf)[n] == Text(op) &&
            BinaryLayout(op, left, lf, right, rf)[..n] == Parenthesized(left, lf) &&
            BinaryLayout(op, left, lf, right, rf)[n + 1..] == Parenthesized(right, rf)
    ensures |BinaryLayout(op, left, lf, right, rf)| ==
            3 + (if IsComplexExpression(left) then 2 else 0) + (if IsComplexExpression(right) then 2 else 0)
  {
  }

  function ComparisonOperator(k: ComparisonKind): string {
    match k
    case Equals => " = "
    case LessThan => " < "
    case LessThanOrEquals => " <= "
    case GreaterThan => " > "
    case GreaterThanOrEquals => " >= "
    case NotEquals => " <> "
  }

  /** The operator of the binary arithmetic kinds (UnaryMinus has none). */
  function ArithmeticOperator(k: ArithmeticKind): string
    requires k != UnaryMinus
  {
    match k
    case Divide => " / "
    case Minus => " - "
    case Modulo => " % "
    case Multiply => " * "
    case Plus => " + "
  }

  function JoinString(k: JoinKind): string {
    match k
    case FullOuterJoin => "FULL OUTER JOIN"
    case InnerJoin => "INNER JOIN"
    case LeftOuterJoin => "LEFT OUTER JOIN"
  }

  /** IsJoinExpression: an inner, outer or cross join. */
  predicate IsJoinExpression(e: Expr) {
    e.Join? || e.CrossJoin?
  }

  /** IsApplyExpression: a CROSS or OUTER APPLY. */
  predicate IsApplyExpression(e: Expr) {
    e.Apply?
  }

  /** The leftmost input of a join that is itself a join (or an apply)
      is visited as part of the parent's statement, whose FROM clause it
      extends. */
  predicate ReusesJoin(i: nat, e: Expr) {
    i == 0 && (IsJoinExpression(e) || IsApplyExpression(e))
  }

  /** The join flag a join input is visited with: set for an extent scan
      and for a reused leftmost join. */
  predicate NeedsJoinContext(i: nat, e: Expr) {
    (e.Leaf? && e.leaf.Scan?) || ReusesJoin(i, e)
  }

  /** The text before the i-th input of a join: a single space before the
      first, a new line and the join keyword before each other. */
  function JoinSeparator(i: nat, joinString: string): seq<Fragment> {
    var separator := if i == 0 then "" else joinString;
    (if separator != "" then [Text(NewLine)] else []) + [Text(separator + " ")]
  }

  /** The text of a join input that brings its own FROM item: a statement
      in parentheses (with its SELECT list completed), an extent as it is,
      anything else as WrapNonQueryExtent lays it out. */
  predicate JoinInputLaid(e: Expr, f: Fragment, body: seq<Fragment>) {
    if f.Statement? then
      |body| == 3 && body[0] == Text(" (") && body[2] == Text(" )") && body[1].Statement? &&
      body[1].st.(select := f.st.select) == f.st
    else if e.Leaf? && e.leaf.Scan? then body == [f]
    else body == WrapNonQueryExtent(e, f)
  }

  /** The join condition's text, after ` ON `, when there is one. */
  function OnClause(cond: Option<Fragment>): seq<Fragment> {
    if cond.Some? then [Text(" ON "), cond.value] else []
  }

  function SetOpString(k: SetOpKind): string {
    match k
    case UnionAll => "UNION ALL"
    case Except => "EXCEPT"
    case Intersect => "INTERSECT"
  }

  /** The comparison operators are pairwise different, so the operator
      written identifies the comparison. */
  lemma ComparisonOperatorInjective(a: ComparisonKind, b: ComparisonKind)
    requires ComparisonOperator(a) == ComparisonOperator(b)
    ensures a == b
  {
  }

  // ---------------------------------------------------------------------
  // Set operations

  /** One side of a set operation: wrapped in SELECT * FROM ( ... ) when
      it has an ORDER BY, a LIMIT or an OFFSET. */
  function SetOpSide(st: SqlSelectStatement): seq<Fragment> {
    if st.HaveOrderByLimitOrOffset() then [Text("SELECT * FROM ("), Statement(st), Text(") ")]
    else [Statement(st)]
  }

  /** VisitSetOpExpression: left side, the operator on a line of its own,
      right side. */
  function SetOpLayout(left: SqlSelectStatement, separator: string, right: SqlSelectStatement): seq<Fragment> {
    SetOpSide(left) + [Text(NewLine), Text(separator), Text(NewLine)] + SetOpSide(right)
  }

  /** A side is wrapped exactly when it has an ORDER BY, a LIMIT or an
      OFFSET, and the operator is on its own line between the sides. */
  lemma SetOpWrapping(left: SqlSelectStatement, separator: string, right: SqlSelectStatement)
    ensures var l := SetOpLayout(left, separator, right);
            var n := |SetOpSide(left)|;
            l[n..n + 3] == [Text(NewLine), Text(separator), Text(NewLine)] &&
            l[..n] == SetOpSide(left) && l[n + 3..] == SetOpSide(right)
    ensures |SetOpSide(left)| == 3 <==> left.HaveOrderByLimitOrOffset()
    ensures |SetOpSide(right)| == 3 <==> right.HaveOrderByLimitOrOffset()
    ensures Statement(left) in SetOpSide(left) && Statement(right) in SetOpSide(right)
  {
  }

  // ---------------------------------------------------------------------
  // OR to IN

  /** IsKeyForIn: a property, a variable or a parameter may be the key of
      an IN list. */
  predicate IsKeyForIn(e: Expr) {
    e.Property? || (e.Leaf? && (e.leaf.VariableReference? || e.leaf.ParameterReference?))
  }

  predicate IsEqualsNode(e: Expr) {
    e.Binary? && e.binary == Comparison(Equals)
  }

  predicate IsNullNode(e: Expr) {
    e.Unary? && e.unary == IsNull
  }

  predicate IsOrNode(e: Expr) {
    e.Binary? && e.binary == Or
  }

  /** KeyFieldExpressionComparer.Equals: casts to the same type of equal
      keys, parameters of the same name, the same variable, or the same
      property of equal instances. Any other kind is equal to nothing. */
  function KeyEquals(x: Expr, y: Expr): bool
    decreases x
  {
    if x.Unary? && x.unary == Cast then
      y.Unary? && y.unary == Cast && x.ty == y.ty && KeyEquals(x.argument, y.argument)
    else if x.Leaf? && x.leaf.ParameterReference? then
      y.Leaf? && y.leaf.ParameterReference? && x.leaf.parameterName == y.leaf.parameterName
    else if x.Leaf? && x.leaf.VariableReference? then
      y.Leaf? && y.leaf.VariableReference? && x.leaf.variableName == y.leaf.variableName
    else if x.Property? then
      y.Property? && x.propertyName == y.propertyName && KeyEquals(x.instance, y.instance)
    else false
  }

  lemma {:induction false} KeyEqualsSymmetric(x: Expr, y: Expr)
    ensures KeyEquals(x, y) == KeyEquals(y, x)
    decreases x
  {
    if x.Unary? && x.unary == Cast && y.Unary? && y.unary == Cast {
      KeyEqualsSymmetric(x.argument, y.argument);
    } else if x.Property? && y.Property? {
      KeyEqualsSymmetric(x.instance, y.instance);
    }
  }

  lemma {:induction false} KeyEqualsTransitive(x: Expr, y: Expr, z: Expr)
    requires KeyEquals(x, y) && KeyEquals(y, z)
    ensures KeyEquals(x, z)
    decreases x
  {
    if x.Unary? && x.unary == Cast {
      KeyEqualsTransitive(x.argument, y.argument, z.argument);
    } else if x.Property? {
      KeyEqualsTransitive(x.instance, y.instance, z.instance);
    }
  }

  /** A property of a variable, or a variable or parameter alone, equals
      itself; a constant equals nothing, not even itself. */
  lemma KeyEqualsReflexiveCases(e: Expr)
    ensures e.Leaf? && (e.leaf.VariableReference? || e.leaf.ParameterReference?) ==> KeyEquals(e, e)
    ensures e.Property? && e.instance.Leaf? && e.instance.leaf.VariableReference? ==> KeyEquals(e, e)
    ensures e.Leaf? && e.leaf.Constant? ==> !KeyEquals(e, e)
  {
  }

  /** A key of the IN map and the values found for it, in the order they
      were found. */
  datatype InGroup = InGroup(key: Expr, values: seq<Expr>)

  /** KeyToListMap.Add with the key comparer: the value joins the group of
      the first key equal to the given one, or starts a new group at the
      end. */
  function AddToGroups(groups: seq<InGroup>, key: Expr, value: Expr): (r: seq<InGroup>)
    ensures |r| == |groups| || |r| == |groups| + 1
    ensures |r| > 0
    decreases |groups|
  {
    if |groups| == 0 then [InGroup(key, [value])]
    else if KeyEquals(groups[0].key, key) then [groups[0].(values := groups[0].values + [value])] + groups[1..]
    else [groups[0]] + AddToGroups(groups[1..], key, value)
  }

  /** TryAddExpressionForIn: an equality with a key on the left, or else on
      the right, adds the other side under the key. */
  function TryAddForIn(e: Expr, groups: seq<InGroup>): Option<seq<InGroup>>
    requires IsEqualsNode(e)
  {
    if IsKeyForIn(e.left) then Some(AddToGroups(groups, e.left, e.right))
    else if IsKeyForIn(e.right) then Some(AddToGroups(groups, e.right, e.left))
    else None
  }

  /** HasBuiltMapForIn: adds every leaf of an OR tree to the map, stopping
      at the first leaf that is not a key equality or a key null test. A
      null test is stored under its key as the test itself. */
  function BuildInMap(e: Expr, groups: seq<InGroup>): Option<seq<InGroup>>
    decreases e
  {
    if IsEqualsNode(e) then TryAddForIn(e, groups)
    else if IsNullNode(e) then
      if IsKeyForIn(e.argument) then Some(AddToGroups(groups, e.argument, e)) else None
    else if IsOrNode(e) then
      var l := BuildInMap(e.left, groups);
      if l.None? then None else BuildInMap(e.right, l.value)
    else None
  }

  /** Every leaf of the OR tree is `key = v`, `v = key` or `key IS NULL`. */
  predicate AllKeyLeaves(e: Expr)
    decreases e
  {
    if IsEqualsNode(e) then IsKeyForIn(e.left) || IsKeyForIn(e.right)
    else if IsNullNode(e) then IsKeyForIn(e.argument)
    else if IsOrNode(e) then AllKeyLeaves(e.left) && AllKeyLeaves(e.right)
    else false
  }

  /** The number of leaves of an OR tree. */
  function LeafCount(e: Expr): nat
    decreases e
  {
    if IsOrNode(e) then LeafCount(e.left) + LeafCount(e.right) else 1
  }

  function ValueCount(groups: seq<InGroup>): nat {
    if |groups| == 0 then 0 else |groups[0].values| + ValueCount(groups[1..])
  }

  /** No two groups have equal keys. */
  predicate DistinctKeys(groups: seq<InGroup>) {
    forall i, j :: 0 <= i < j < |groups| ==> !KeyEquals(groups[i].key, groups[j].key)
  }

  lemma {:induction false} AddToGroupsCounts(groups: seq<InGroup>, key: Expr, value: Expr)
    ensures ValueCount(AddToGroups(groups, key, value)) == ValueCount(groups) + 1
    decreases |groups|
  {
    var r := AddToGroups(groups, key, value);
    if |groups| > 0 {
      if KeyEquals(groups[0].key, key) {
        assert r[1..] == groups[1..];
      } else {
        AddToGroupsCounts(groups[1..], key, value);
        assert r[1..] == AddToGroups(groups[1..], key, value);
      }
    }
  }

  /** The keys after an add are the keys before, plus the new key at the
      end when no key equal to it was there. */
  lemma {:induction false} AddToGroupsKeys(groups: seq<InGroup>, key: Expr, value: Expr)
    ensures var r := AddToGroups(groups, key, value);
            (forall i :: 0 <= i < |groups| ==> r[i].key == groups[i].key) &&
            (|r| == |groups| + 1 <==> forall i :: 0 <= i < |groups| ==> !KeyEquals(groups[i].key, key)) &&
            (|r| == |groups| + 1 ==> r[|groups|] == InGroup(key, [value]))
    decreases |groups|
  {
    if |groups| > 0 && !KeyEquals(groups[0].key, key) {
      AddToGroupsKeys(groups[1..], key, value);
    }
  }

  /** Adding keeps the keys pairwise different under the comparer. */
  lemma AddToGroupsDistinct(groups: seq<InGroup>, key: Expr, value: Expr)
    requires DistinctKeys(groups)
    ensures DistinctKeys(AddToGroups(groups, key, value))
  {
    var r := AddToGroups(groups, key, value);
    AddToGroupsKeys(groups, key, value);
    forall i, j | 0 <= i < j < |r|
      ensures !KeyEquals(r[i].key, r[j].key)
    {
      if j == |groups| {
        assert r[i].key == groups[i].key;
      }
    }
  }

  /** The rewrite applies exactly when every leaf of the OR tree is a key
      comparison; the map then holds one value per leaf, in at least one
      group, and no two groups have equal keys. */
  lemma {:induction false} BuildInMapMeaning(e: Expr, groups: seq<InGroup>)
    requires DistinctKeys(groups)
    ensures BuildInMap(e, groups).Some? <==> AllKeyLeaves(e)
    ensures BuildInMap(e, groups).Some? ==>
              var r := BuildInMap(e, groups).value;
              |r| > 0 && |r| >= |groups| && DistinctKeys(r) && ValueCount(r) == ValueCount(groups) + LeafCount(e)
    decreases e
  {
    if IsEqualsNode(e) {
      if IsKeyForIn(e.left) {
        AddToGroupsCounts(groups, e.left, e.right);
        AddToGroupsDistinct(groups, e.left, e.right);
      } else if IsKeyForIn(e.right) {
        AddToGroupsCounts(groups, e.right, e.left);
        AddToGroupsDistinct(groups, e.right, e.left);
      }
    } else if IsNullNode(e) {
      if IsKeyForIn(e.argument) {
        AddToGroupsCounts(groups, e.argument, e);
        AddToGroupsDistinct(groups, e.argument, e);
      }
    } else if IsOrNode(e) {
      BuildInMapMeaning(e.left, groups);
      var l := BuildInMap(e.left, groups);
      if l.Some? {
        BuildInMapMeaning(e.right, l.value);
      }
    }
  }

  /** The values of a group that are not null tests, in order. */
  function NonNullValues(vs: seq<Expr>): (r: seq<Expr>)
    ensures |r| <= |vs|
    ensures forall v :: v in r ==> v in vs && !IsNullNode(v)
  {
    if |vs| == 0 then []
    else if IsNullNode(vs[0]) then NonNullValues(vs[1..])
    else [vs[0]] + NonNullValues(vs[1..])
  }

  /** The first value of a group that is a null test. */
  function FirstNullTest(vs: seq<Expr>): (r: Option<Expr>)
    ensures r.Some? ==> r.value in vs && IsNullNode(r.value)
    ensures r.None? ==> forall v :: v in vs ==> !IsNullNode(v)
  {
    if |vs| == 0 then None
    else if IsNullNode(vs[0]) then Some(vs[0])
    else FirstNullTest(vs[1..])
  }

  /** The items with `sep` between consecutive ones. */
  function JoinFragments(items: seq<seq<Fragment>>, sep: Fragment): seq<Fragment> {
    if |items| == 0 then []
    else
      var n := |items| - 1;
      JoinFragments(items[..n], sep) + (if n == 0 then [] else [sep]) + items[n]
  }

  /** The text of one key of the IN rewrite, given the key's text, the
      texts of its non-null values and the text of its null test: `k = v`
      for one value, `k IN (v1,v2,...)` for several, then `OR k IS NULL`
      when a null test was found (without the OR when it stands alone). */
  function InGroupLayout(key: Expr, keyText: Fragment, valueTexts: seq<seq<Fragment>>, nullText: Option<Fragment>)
    : seq<Fragment>
  {
    (if |valueTexts| == 1 then Parenthesized(key, keyText) + [Text(" = ")] + valueTexts[0]
     else if |valueTexts| > 1 then
       Parenthesized(key, keyText) + [Text(" IN (")] + JoinFragments(valueTexts, Text(",")) + [Text(")")]
     else [])
    + (if nullText.None? then []
       else (if |valueTexts| > 0 then [Text(" OR ")] else []) + [nullText.value])
  }

  /** A group with one value and no null test is `k = v`; a group with a
      null test alone is just the null test. */
  lemma InGroupLayoutCases(key: Expr, keyText: Fragment, valueTexts: seq<seq<Fragment>>, nullText: Option<Fragment>)
    ensures |valueTexts| == 1 && nullText.None? ==>
              InGroupLayout(key, keyText, valueTexts, nullText) == Parenthesized(key, keyText) + [Text(" = ")] + valueTexts[0]
    ensures |valueTexts| == 0 && nullText.Some? ==> InGroupLayout(key, keyText, valueTexts, nullText) == [nullText.value]
    ensures |valueTexts| == 0 && nullText.None? ==> InGroupLayout(key, keyText, valueTexts, nullText) == []
    ensures |valueTexts| > 0 && nullText.Some? ==>
              var l := InGroupLayout(key, keyText, valueTexts, nullText);
              l[|l| - 2..] == [Text(" OR "), nullText.value]
  {
  }

  // ---------------------------------------------------------------------
  // Literals

  /** EscapeSingleQuote: the text in single quotes, every quote doubled. */
  function EscapeSingleQuote(s: string): (r: string)
    ensures |r| >= 2 && r[0] == '\'' && r[|r| - 1] == '\''
  {
    "'" + Replace(s, "'", "''") + "'"
  }

  /** Reading a string literal back: strip the quotes, undouble. */
  function UnescapeSingleQuote(r: string): string
    requires |r| >= 2
  {
    Replace(r[1..|r| - 1], "''", "'")
  }

  /** Escaping loses nothing: the literal reads back as the string, and
      holds exactly twice as many quotes inside as the string. */
  lemma EscapeSingleQuoteRoundTrip(s: string)
    ensures UnescapeSingleQuote(EscapeSingleQuote(s)) == s
    ensures |EscapeSingleQuote(s)| == |s| + Count(s, '\'') + 2
  {
    var inner := Replace(s, "'", "''");
    assert EscapeSingleQuote(s)[1..|EscapeSingleQuote(s)| - 1] == inner;
    assert "'" == ['\''] && "''" == ['\'', '\''];
    ReplaceDoubleUndouble(s, '\'');
    ReplaceCharLength(s, '\'', "''");
  }

  /** HexDigits: the upper-case hexadecimal digit of a nibble. */
  function HexDigit(n: bv8): (c: char)
    requires n < 16
    ensures c in "0123456789ABCDEF"
  {
    "0123456789ABCDEF"[n as int]
  }

  /** The value of an upper-case hexadecimal digit. */
  function HexValue(c: char): bv8 {
    if '0' <= c <= '9' then (c as int - '0' as int) as bv8
    else if 'A' <= c <= 'F' then (c as int - 'A' as int + 10) as bv8
    else 0
  }

  lemma HexDigitValue(n: bv8)
    requires n < 16
    ensures HexValue(HexDigit(n)) == n
  {
    assert "0123456789ABCDEF"[n as int] == (if n < 10 then ('0' as int + n as int) as char else ('A' as int + n as int - 10) as char);
  }

  function HighNibble(b: bv8): (n: bv8)
    ensures n < 16
  {
    (b & 0xF0) >> 4
  }

  function LowNibble(b: bv8): (n: bv8)
    ensures n < 16
  {
    b & 0x0F
  }

  lemma NibblesRecombine(b: bv8)
    ensures HighNibble(b) * 16 + LowNibble(b) == b
  {
  }

  /** The two digits of a byte, high nibble first. */
  function ByteDigits(b: bv8): seq<Fragment> {
    [Chr(HexDigit(HighNibble(b))), Chr(HexDigit(LowNibble(b)))]
  }

  /** The digits of the bytes, in order. */
  function HexFragments(bytes: seq<bv8>): (r: seq<Fragment>)
    ensures |r| == 2 * |bytes|
    ensures forall i :: 0 <= i < |r| ==> r[i].Chr?
  {
    if |bytes| == 0 then [] else HexFragments(bytes[..|bytes| - 1]) + ByteDigits(bytes[|bytes| - 1])
  }

  /** The fragments ToBlobLiteral appends: NULL for a missing array, the
      digits between ` X'` and `' ` otherwise. */
  function BlobFragments(bytes: Option<seq<bv8>>): seq<Fragment> {
    if bytes.None? then [Text("NULL")] else [Text(" X'")] + HexFragments(bytes.value) + [Text("' ")]
  }

  /** Reads bytes back from pairs of hexadecimal digit fragments. */
  function DecodeHex(fs: seq<Fragment>): seq<bv8>
    decreases |fs|
  {
    if |fs| < 2 then []
    else
      [PairValue(fs[0], fs[1])] + DecodeHex(fs[2..])
  }

  /** The byte two digit fragments stand for. */
  function PairValue(hi: Fragment, lo: Fragment): bv8 {
    (if hi.Chr? then HexValue(hi.c) else 0) * 16 + (if lo.Chr? then HexValue(lo.c) else 0)
  }

  lemma {:induction false} DecodeHexAppend(a: seq<Fragment>, b: seq<Fragment>)
    requires |a| % 2 == 0
    ensures DecodeHex(a + b) == DecodeHex(a) + DecodeHex(b)
    decreases |a|
  {
    if |a| >= 2 {
      var ab := a + b;
      assert ab[0] == a[0] && ab[1] == a[1];
      assert ab[2..] == a[2..] + b;
      DecodeHexAppend(a[2..], b);
      assert DecodeHex(ab) == [PairValue(a[0], a[1])] + DecodeHex(a[2..] + b);
    } else {
      assert a + b == b;
    }
  }

  lemma ByteDigitsDecode(b: bv8)
    ensures DecodeHex(ByteDigits(b)) == [b]
  {
    HexDigitValue(HighNibble(b));
    HexDigitValue(LowNibble(b));
    NibblesRecombine(b);
    assert ByteDigits(b)[2..] == [];
  }

  /** The blob literal's digits read back as the bytes. */
  lemma {:induction false} HexFragmentsRoundTrip(bytes: seq<bv8>)
    ensures DecodeHex(HexFragments(bytes)) == bytes
    decreases |bytes|
  {
    if |bytes| > 0 {
      var init := bytes[..|bytes| - 1];
      HexFragmentsRoundTrip(init);
      DecodeHexAppend(HexFragments(init), ByteDigits(bytes[|bytes| - 1]));
      ByteDigitsDecode(bytes[|bytes| - 1]);
      assert init + [bytes[|bytes| - 1]] == bytes;
    }
  }

  lemma HexFragmentsSnoc(bs: seq<bv8>, index: nat)
    requires index < |bs|
    ensures HexFragments(bs[..index + 1]) == HexFragments(bs[..index]) + ByteDigits(bs[index])
  {
    assert bs[..index + 1][..index] == bs[..index];
  }

  /** One step of ToBlobLiteral: the two digits of a byte. */
  method AppendByteDigits(builder: SqlBuilder, b: bv8) returns (r: SqlBuilder)
    ensures r.fragments == builder.fragments + ByteDigits(b)
  {
    r := builder.Append(Chr(HexDigit(HighNibble(b))));
    r := r.Append(Chr(HexDigit(LowNibble(b))));
  }

  /** The digit loop of ToBlobLiteral. */
  method AppendHexDigits(builder: SqlBuilder, bs: seq<bv8>) returns (r: SqlBuilder)
    ensures r.fragments == builder.fragments + HexFragments(bs)
  {
    r := builder;
    var index := 0;
    while index < |bs|
      invariant 0 <= index <= |bs|
      invariant r.fragments == builder.fragments + HexFragments(bs[..index])
    {
      r := AppendByteDigits(r, bs[index]);
      HexFragmentsSnoc(bs, index);
      index := index + 1;
    }
    assert bs[..index] == bs;
  }

  /** ToBlobLiteral: appends the blob literal of the bytes to the builder,
      one pair of digits per byte. */
  method ToBlobLiteral(bytes: Option<seq<bv8>>, builder: SqlBuilder) returns (r: SqlBuilder)
    ensures r.fragments == builder.fragments + BlobFragments(bytes)
  {
    if bytes.None? {
      r := builder.Append(Text("NULL"));
    } else {
      r := builder.Append(Text(" X'"));
      r := AppendHexDigits(r, bytes.value);
      r := r.Append(Text("' "));
    }
  }

  /** Object.ToString of a constant's value. */
  function ValueToString(v: ConstantValue): string {
    match v
    case IntegerValue(i) => IntToString(i)
    case BooleanValue(b) => if b then "True" else "False"
    case BytesValue(_) => "System.Byte[]"
    case GuidValue(_, text) => text
    case StringValue(s) => s
    case FormattedValue(text) => text
  }

  /** Visit(DbConstantExpression): the literal for a constant of the given
      type; the error a cast of the value or an unsupported kind raises. */
  function ConstantSql(ty: TypeUsage, v: ConstantValue): Result<seq<Fragment>> {
    var kind := TryGetPrimitiveTypeKind(Some(ty));
    if kind.None? then Fail(NotSupported(""))
    else
      match kind.value
      case Int32 => Ok([Text(ValueToString(v))])
      case Byte => Ok([Text(ValueToString(v))])
      case Int16 => Ok([Text(ValueToString(v))])
      case Int64 => Ok([Text(ValueToString(v))])
      case Binary => if v.BytesValue? then Ok(BlobFragments(Some(v.bytes))) else Fail(InvalidCast)
      case Boolean => if v.BooleanValue? then Ok([Text(if v.b then "1" else "0")]) else Fail(InvalidCast)
      case DateTime => if v.FormattedValue? then Ok([Text(v.text)]) else Fail(InvalidCast)
      case Decimal => if v.FormattedValue? then Ok([Text(v.text)]) else Fail(InvalidCast)
      case Double => if v.FormattedValue? then Ok([Text(v.text)]) else Fail(InvalidCast)
      case Single => if v.FormattedValue? then Ok([Text(v.text)]) else Fail(InvalidCast)
      case Guid =>
        if v.GuidValue? then Ok(BlobFragments(Some(v.guidBytes)))
        else Ok([Text(EscapeSingleQuote(ValueToString(v)))])
      case String => if v.StringValue? then Ok([Text(EscapeSingleQuote(v.s))]) else Fail(NullReference)
      case DateTimeOffset => Fail(NotSupported("datetimeoffset"))
      case Time => Fail(NotSupported("time"))
      case _ => Fail(NotSupported(""))
  }

  /** The literal encodings: integers in decimal, booleans as 1 and 0,
      strings quoted with their quotes doubled, byte arrays and Guids as
      hexadecimal blobs; offsets, times and non-primitive types are not
      supported. */
  lemma ConstantEncodings(ty: TypeUsage, v: ConstantValue)
    ensures IsPrimitiveTypeOfKind(ty, Int32) && v.IntegerValue? ==> ConstantSql(ty, v) == Ok([Text(IntToString(v.i))])
    ensures IsPrimitiveTypeOfKind(ty, Boolean) && v.BooleanValue? ==>
              ConstantSql(ty, v) == Ok([Text(if v.b then "1" else "0")])
    ensures IsPrimitiveTypeOfKind(ty, String) && v.StringValue? ==>
              ConstantSql(ty, v).Ok? && |ConstantSql(ty, v).value| == 1 &&
              UnescapeSingleQuote(ConstantSql(ty, v).value[0].s) == v.s
    ensures IsPrimitiveTypeOfKind(ty, PrimitiveTypeKind.Binary) && v.BytesValue? ==>
              ConstantSql(ty, v).Ok? && DecodeHex(ConstantSql(ty, v).value[1..|ConstantSql(ty, v).value| - 1]) == v.bytes
    ensures IsPrimitiveTypeOfKind(ty, DateTimeOffset) ==> ConstantSql(ty, v) == Fail(NotSupported("datetimeoffset"))
    ensures IsPrimitiveTypeOfKind(ty, Time) ==> ConstantSql(ty, v) == Fail(NotSupported("time"))
    ensures !IsPrimitiveType(ty) ==> ConstantSql(ty, v).Fail? && ConstantSql(ty, v).error.NotSupported?
  {
    if IsPrimitiveTypeOfKind(ty, String) && v.StringValue? {
      EscapeSingleQuoteRoundTrip(v.s);
    }
    if IsPrimitiveTypeOfKind(ty, PrimitiveTypeKind.Binary) && v.BytesValue? {
      var fs := BlobFragments(Some(v.bytes));
      assert fs[1..|fs| - 1] == HexFragments(v.bytes);
      HexFragmentsRoundTrip(v.bytes);
    }
  }

  /** Visit(DbConstantExpression), appending the literal to a new builder. */
  method VisitConstant(ty: TypeUsage, v: ConstantValue) returns (r: Result<SqlBuilder>)
    ensures ConstantSql(ty, v).Ok? ==> r == Ok(SqlBuilder(ConstantSql(ty, v).value))
    ensures ConstantSql(ty, v).Fail? ==> r == Fail(ConstantSql(ty, v).error)
  {
    var kind := TryGetPrimitiveTypeKind(Some(ty));
    if kind.None? {
      return Fail(NotSupported(""));
    }
    var k := kind.value;
    if k == PrimitiveTypeKind.Binary {
      if !v.BytesValue? {
        return Fail(InvalidCast);
      }
      var b := ToBlobLiteral(Some(v.bytes), EmptyBuilder);
      assert b.fragments == BlobFragments(Some(v.bytes));
      return Ok(b);
    } else if k == Guid && v.GuidValue? {
      var b := ToBlobLiteral(Some(v.guidBytes), EmptyBuilder);
      assert b.fragments == BlobFragments(Some(v.guidBytes));
      return Ok(b);
    }
    var c := ConstantSql(ty, v);
    r := if c.Ok? then Ok(SqlBuilder(c.value)) else Fail(c.error);
  }

  // ---------------------------------------------------------------------
  // Group by

  /** IsPropertyOverVarRef: a property access on a variable. */
  predicate IsPropertyOverVarRef(e: Expr) {
    e.Property? && e.instance.Leaf? && e.instance.leaf.VariableReference?
  }

  /** NeedsInnerQuery: whether some aggregate's first argument is not a
      property of a variable, looked for in order; reading the first
      argument of an aggregate without arguments fails. */
  method NeedsInnerQuery(aggregates: seq<Aggregate>) returns (r: Result<bool>)
    ensures r == Ok(true) <==>
              exists i :: 0 <= i < |aggregates| && |aggregates[i].arguments| > 0 &&
                          !IsPropertyOverVarRef(aggregates[i].arguments[0]) &&
                          forall j :: 0 <= j < i ==> |aggregates[j].arguments| > 0
    ensures r == Ok(false) <==>
              forall i :: 0 <= i < |aggregates| ==>
                          |aggregates[i].arguments| > 0 && IsPropertyOverVarRef(aggregates[i].arguments[0])
    ensures r.Fail? ==> r.error == ArgumentOutOfRange
  {
    var k := 0;
    while k < |aggregates|
      invariant 0 <= k <= |aggregates|
      invariant forall j :: 0 <= j < k ==>
                  |aggregates[j].arguments| > 0 && IsPropertyOverVarRef(aggregates[j].arguments[0])
    {
      if |aggregates[k].arguments| == 0 {
        return Fail(ArgumentOutOfRange);
      }
      if !IsPropertyOverVarRef(aggregates[k].arguments[0]) {
        return Ok(true);
      }
      k := k + 1;
    }
    return Ok(false);
  }

  // ---------------------------------------------------------------------
  // Store names

  /** QuoteIdentifier of the generator: names are used as they are. */
  function QuoteIdentifier(name: string): string {
    name
  }

  /** Whether an optional metadata string is null or empty. */
  predicate IsNullOrEmpty(s: Option<string>) {
    s.None? || s.value == ""
  }

  /** GetTargetTSql: a defining query in parentheses, or else the store
      table name, or else the entity set's name. */
  function GetTargetTSql(extent: EntitySet): (r: string)
    ensures !IsNullOrEmpty(extent.definingQuery) ==> r == "(" + extent.definingQuery.value + ")"
    ensures IsNullOrEmpty(extent.definingQuery) && !IsNullOrEmpty(extent.table) ==> r == extent.table.value
    ensures IsNullOrEmpty(extent.definingQuery) && IsNullOrEmpty(extent.table) ==> r == extent.name
  {
    if !IsNullOrEmpty(extent.definingQuery) then "(" + extent.definingQuery.value + ")"
    else if !IsNullOrEmpty(extent.table) then QuoteIdentifier(extent.table.value)
    else QuoteIdentifier(extent.name)
  }

  /** System.Data.CommandType, as far as function command trees use it. */
  datatype CommandType = TextCommand | StoredProcedure

  /** GenerateFunctionSql: the function's command text, as text, when it
      has one; otherwise a stored-procedure call of its store name, or of
      its name when no store name is given. */
  function GenerateFunctionSql(f: EdmFunction): (r: (string, CommandType))
    ensures r.1 == StoredProcedure <==> IsNullOrEmpty(f.commandText)
    ensures r.1 == TextCommand ==> r.0 == f.commandText.value
    ensures r.1 == StoredProcedure ==> r.0 == (if IsNullOrEmpty(f.storeFunctionName) then f.name else f.storeFunctionName.value)
  {
    if IsNullOrEmpty(f.commandText) then
      (QuoteIdentifier(if IsNullOrEmpty(f.storeFunctionName) then f.name else f.storeFunctionName.value), StoredProcedure)
    else (f.commandText.value, TextCommand)
  }

  /** WriteFunctionName: the store function name, or the function's name
      when none is given; built-in or not, it is written unquoted. */
  function FunctionName(f: EdmFunction): (r: string)
    ensures IsNullOrEmpty(f.storeFunctionName) ==> r == f.name
    ensures !IsNullOrEmpty(f.storeFunctionName) ==> r == f.storeFunctionName.value
  {
    var n := if IsNullOrEmpty(f.storeFunctionName) then f.name else f.storeFunctionName.value;
    if f.builtIn then n else QuoteIdentifier(n)
  }

  /** WrapNonQueryExtent: a table-valued function goes into FROM as it is,
      anything else in parentheses. */
  function WrapNonQueryExtent(input: Expr, f: Fragment): seq<Fragment> {
    if input.Nary? && input.nary.Function? then [f] else [Text(" ("), f, Text(")")]
  }

  /** The fragments AddSortKeys appends, given the texts of the keys: per
      clause the separator (empty before the first, a comma after), the
      key, its collation when one is given, and its direction. */
  function SortLayout(cs: seq<SortClause>, keyTexts: seq<Fragment>): seq<Fragment>
    requires |keyTexts| == |cs|
  {
    if |cs| == 0 then []
    else
      var n := |cs| - 1;
      SortLayout(cs[..n], keyTexts[..n]) + [Text(if n == 0 then "" else ", "), keyTexts[n]]
      + (if cs[n].collation == "" then [] else [Text(" COLLATE "), Text(cs[n].collation)])
      + [Text(if cs[n].ascending then " ASC" else " DESC")]
  }

  // ---------------------------------------------------------------------
  // Layouts of the scalar visits, given the texts of their operands

  /** The separator written before the i-th item of a list: nothing (an
      empty text) before the first, `sep` before the others. */
  function Separator(i: nat, sep: string): Fragment {
    Text(if i == 0 then "" else sep)
  }

  /** VisitIsNullExpression: the operand, then IS NULL or IS NOT NULL. */
  function IsNullLayout(arg: Fragment, negate: bool): seq<Fragment> {
    [arg, Text(if negate then " IS NOT NULL" else " IS NULL")]
  }

  /** VisitIsEmptyExpression: NOT EXISTS over the operand's statement, or
      EXISTS when the test is negated. */
  function IsEmptyLayout(st: SqlSelectStatement, negate: bool): seq<Fragment> {
    (if negate then [] else [Text(" NOT")]) + [Text(" EXISTS ("), Statement(st), Text(NewLine), Text(")")]
  }

  /** The general NOT: the operand in parentheses. */
  function NotLayout(arg: Fragment): seq<Fragment> {
    [Text(" NOT ("), arg, Text(")")]
  }

  /** A wrapped operand is a proper part of its NOT (...), never the whole. */
  lemma NotLayoutWraps(arg: Fragment)
    ensures Builder(SqlBuilder(NotLayout(arg))) != arg
  {
    assert NotLayout(arg)[1] == arg;
  }

  /** The five ways Visit(DbNotExpression) renders, by the kind of its
      operand: NOT NOT x is x, NOT IS EMPTY is EXISTS, NOT IS NULL is IS NOT
      NULL, NOT (a = b) is a <> b, and anything else is wrapped. */
  datatype NotRendering = Flattened | NegatedIsEmpty | NegatedIsNull | NotEqual | Wrapped

  function NotRenderingOf(arg: Expr): (r: NotRendering)
    ensures r == Flattened <==> arg.Unary? && arg.unary == Not
    ensures r == NotEqual <==> IsEqualsNode(arg)
    ensures r == Wrapped <==> !(arg.Unary? && arg.unary in {Not, IsEmpty, IsNull}) && !IsEqualsNode(arg)
  {
    if arg.Unary? && arg.unary == Not then Flattened
    else if arg.Unary? && arg.unary == IsEmpty then NegatedIsEmpty
    else if arg.Unary? && arg.unary == IsNull then NegatedIsNull
    else if IsEqualsNode(arg) then NotEqual
    else Wrapped
  }

  /** Negation inverts the tests: a negated IS EMPTY drops exactly the
      leading NOT, a negated IS NULL differs only in its last word, and the
      negated equality is written as the not-equals comparison. */
  lemma NegatedLayouts(st: SqlSelectStatement, f: Fragment, left: Expr, lf: Fragment, right: Expr, rf: Fragment)
    ensures IsEmptyLayout(st, false) == [Text(" NOT")] + IsEmptyLayout(st, true)
    ensures IsNullLayout(f, true)[..1] == IsNullLayout(f, false)[..1] && IsNullLayout(f, true) != IsNullLayout(f, false)
    ensures BinaryLayout(" <> ", left, lf, right, rf) == BinaryLayout(ComparisonOperator(NotEquals), left, lf, right, rf)
  {
  }

  /** Visit(DbQuantifierExpression): ANY is EXISTS over the filter, ALL is
      NOT EXISTS over the filter with its predicate negated. */
  function QuantifierLayout(q: QuantifierKind, filter: SqlSelectStatement): seq<Fragment> {
    [Text(if q == Any then "EXISTS (" else "NOT EXISTS ("), Statement(filter), Text(")")]
  }

  /** The WHERE text VisitFilterExpression appends for a predicate. */
  function FilterPredicate(pred: Fragment, negate: bool): seq<Fragment> {
    if negate then [Text("NOT ("), pred, Text(")")] else [pred]
  }

  /** An ALL quantifier holds when no row fails its predicate: the layout
      is NOT EXISTS over a filter on NOT (predicate); ANY is EXISTS over a
      filter on the predicate itself. */
  lemma QuantifierDuality(q: QuantifierKind, filter: SqlSelectStatement, pred: Fragment)
    ensures q == All ==> QuantifierLayout(q, filter)[0] == Text("NOT EXISTS (") &&
                         FilterPredicate(pred, q == All) == [Text("NOT (")] + FilterPredicate(pred, false) + [Text(")")]
    ensures q == Any ==> QuantifierLayout(q, filter)[0] == Text("EXISTS (") && FilterPredicate(pred, q == All) == [pred]
    ensures QuantifierLayout(q, filter)[1] == Statement(filter)
  {
  }

  /** The WHEN ... THEN ... pairs of a CASE, in order. */
  function CaseBranches(whenTexts: seq<Fragment>, thenTexts: seq<Fragment>): (r: seq<Fragment>)
    requires |whenTexts| == |thenTexts|
    ensures |r| == 4 * |whenTexts|
  {
    if |whenTexts| == 0 then []
    else
      var n := |whenTexts| - 1;
      CaseBranches(whenTexts[..n], thenTexts[..n]) + [Text(" WHEN ("), whenTexts[n], Text(") THEN "), thenTexts[n]]
  }

  /** Visit(DbCaseExpression). */
  function CaseLayout(whenTexts: seq<Fragment>, thenTexts: seq<Fragment>, elseText: Option<Fragment>): seq<Fragment>
    requires |whenTexts| == |thenTexts|
  {
    [Text("CASE")] + CaseBranches(whenTexts, thenTexts)
    + (if elseText.Some? then [Text(" ELSE "), elseText.value] else []) + [Text(" END")]
  }

  /** The ELSE branch is written unless it is absent or the null literal. */
  predicate WritesElse(elseExpr: Option<Expr>) {
    elseExpr.Some? && !(elseExpr.value.Leaf? && elseExpr.value.leaf.Null?)
  }

  /** Branch i of a CASE sits at 1 + 4i: its WHEN text, then its THEN
      text, each after its keyword. */
  lemma {:induction false} CaseBranchesAt(whenTexts: seq<Fragment>, thenTexts: seq<Fragment>, i: nat)
    requires |whenTexts| == |thenTexts| && i < |whenTexts|
    ensures var b := CaseBranches(whenTexts, thenTexts);
            b[4 * i..4 * i + 4] == [Text(" WHEN ("), whenTexts[i], Text(") THEN "), thenTexts[i]]
    decreases |whenTexts|
  {
    var n := |whenTexts| - 1;
    if i < n {
      CaseBranchesAt(whenTexts[..n], thenTexts[..n], i);
      var p := CaseBranches(whenTexts[..n], thenTexts[..n]);
      assert CaseBranches(whenTexts, thenTexts)[..4 * n] == p;
    }
  }

  /** Visit(DbLikeExpression): the ESCAPE part only when an escape other
      than the null literal is given. */
  function LikeLayout(arg: Fragment, pattern: Fragment, escape: Option<Fragment>): seq<Fragment> {
    [arg, Text(" LIKE "), pattern] + (if escape.Some? then [Text(" ESCAPE "), escape.value] else [])
  }

  /** The arguments of a function call: separator and text per argument. */
  function ArgumentsLayout(texts: seq<Fragment>): (r: seq<Fragment>)
    ensures |r| == 2 * |texts|
  {
    if |texts| == 0 then []
    else
      var n := |texts| - 1;
      ArgumentsLayout(texts[..n]) + [Separator(n, ", "), texts[n]]
  }

  /** HandleFunctionDefault: the function's name, then its arguments in
      parentheses unless it is niladic. */
  function FunctionLayout(f: EdmFunction, texts: seq<Fragment>): seq<Fragment> {
    [Text(FunctionName(f))] + (if f.niladic then [] else [Text("(")] + ArgumentsLayout(texts) + [Text(")")])
  }

  /** Argument i of a call is at 2i + 1, after a comma unless it is the
      first. */
  lemma {:induction false} ArgumentsLayoutAt(texts: seq<Fragment>, i: nat)
    requires i < |texts|
    ensures ArgumentsLayout(texts)[2 * i..2 * i + 2] == [Separator(i, ", "), texts[i]]
    decreases |texts|
  {
    var n := |texts| - 1;
    if i < n {
      ArgumentsLayoutAt(texts[..n], i);
      assert ArgumentsLayout(texts)[..2 * n] == ArgumentsLayout(texts[..n]);
    }
  }

  /** VisitCollectionConstructor without an element argument: a UNION ALL
      ladder of one SELECT per argument (aliased X when the elements are
      scalar), or a query of no rows when there is no argument. */
  function UnionLadder(texts: seq<Fragment>, isScalar: bool): (r: seq<Fragment>)
    ensures |texts| > 0 && isScalar ==> |r| == 4 * |texts|
    ensures |texts| > 0 && !isScalar ==> |r| == 3 * |texts|
  {
    if |texts| == 0 then [Text(" SELECT NULL"), Text(" AS X FROM (SELECT 1) AS Y WHERE 1=0")]
    else
      var n := |texts| - 1;
      (if n == 0 then [] else UnionLadder(texts[..n], isScalar))
      + [Separator(n, " UNION ALL "), Text(" SELECT "), texts[n]] + (if isScalar then [Text(" AS X ")] else [])
  }

  /** The ladder of all arguments but the last starts the ladder. */
  lemma UnionLadderPrefix(texts: seq<Fragment>, isScalar: bool)
    requires |texts| > 1
    ensures var n := |texts| - 1;
            UnionLadder(texts, isScalar)[..|UnionLadder(texts[..n], isScalar)|] == UnionLadder(texts[..n], isScalar)
  {
  }

  /** The last rung of the ladder holds the last argument. */
  lemma UnionLadderLast(texts: seq<Fragment>, isScalar: bool)
    requires |texts| > 0
    ensures var n := |texts| - 1;
            var ladder := UnionLadder(texts, isScalar);
            var w := if isScalar then 4 else 3;
            |ladder| == w * |texts| &&
            ladder[w * n..] == [Separator(n, " UNION ALL "), Text(" SELECT "), texts[n]] + (if isScalar then [Text(" AS X ")] else [])
  {
  }

  /** Rung i of the ladder holds argument i, after UNION ALL unless it is
      the first: four fragments a rung for scalar elements, */
  lemma {:induction false} ScalarUnionLadderAt(texts: seq<Fragment>, i: nat)
    requires i < |texts|
    ensures UnionLadder(texts, true)[4 * i..4 * i + 4] == [Separator(i, " UNION ALL "), Text(" SELECT "), texts[i], Text(" AS X ")]
    decreases |texts|
  {
    var n := |texts| - 1;
    if i == n {
      UnionLadderLast(texts, true);
    } else {
      ScalarUnionLadderAt(texts[..n], i);
      UnionLadderPrefix(texts, true);
      var ladder, prefix := UnionLadder(texts, true), UnionLadder(texts[..n], true);
      assert |prefix| == 4 * n && 4 * i + 4 <= 4 * n;
      assert ladder[4 * i..4 * i + 4] == prefix[4 * i..4 * i + 4];
    }
  }

  /** three for rows. */
  lemma {:induction false} RowUnionLadderAt(texts: seq<Fragment>, i: nat)
    requires i < |texts|
    ensures UnionLadder(texts, false)[3 * i..3 * i + 3] == [Separator(i, " UNION ALL "), Text(" SELECT "), texts[i]]
    decreases |texts|
  {
    var n := |texts| - 1;
    if i == n {
      UnionLadderLast(texts, false);
    } else {
      RowUnionLadderAt(texts[..n], i);
      UnionLadderPrefix(texts, false);
      var ladder, prefix := UnionLadder(texts, false), UnionLadder(texts[..n], false);
      assert |prefix| == 3 * n && 3 * i + 3 <= 3 * n;
      assert ladder[3 * i..3 * i + 3] == prefix[3 * i..3 * i + 3];
    }
  }

  /** VisitNewInstanceExpression over a row: the columns' texts, each on
      a line of its own after a comma unless it is the first. */
  function RowLayout(texts: seq<Fragment>): (r: seq<Fragment>)
    ensures |r| == 3 * |texts|
  {
    if |texts| == 0 then []
    else
      var n := |texts| - 1;
      RowLayout(texts[..n]) + [Separator(n, ", "), Text(NewLine), texts[n]]
  }

  // ---------------------------------------------------------------------
  // Group by layouts

  /** A SELECT item of a GROUP BY: `text AS alias` on a line of its own. */
  function AliasedItem(separator: string, f: Fragment, alias: string): seq<Fragment> {
    [Text(separator), Text(NewLine), f, Text(" AS "), Text(alias)]
  }

  /** A reference to a column of the inner query: `source.alias`. */
  function AliasReference(source: Symbol, alias: string): seq<Fragment> {
    [SymbolRef(source), Text("."), Text(alias)]
  }

  /** VisitAggregate of a function aggregate over its argument's text. */
  function AggregateLayout(a: Aggregate, arg: Fragment): seq<Fragment>
    requires a.FunctionAggregate?
  {
    [Text(FunctionName(a.aggregateFunction)), Text("(")] + (if a.distinct then [Text("DISTINCT ")] else []) + [arg, Text(")")]
  }

  /** The names of a GROUP BY result's members: the result is cast to a
      collection and its element to a row, and either cast failing is an
      invalid cast. */
  function GroupRowNames(t: TypeUsage): (r: Result<seq<string>>)
    ensures r.Ok? <==> IsCollectionType(t) && IsRowType(t.edmType.elementType)
    ensures r.Fail? ==> r.error == InvalidCast
    ensures r.Ok? ==> var props := t.edmType.elementType.edmType.properties;
                      |r.value| == |props| && forall i :: 0 <= i < |props| ==> r.value[i] == props[i].name
  {
    if !IsCollectionType(t) || !IsRowType(t.edmType.elementType) then Fail(InvalidCast)
    else
      var props := t.edmType.elementType.edmType.properties;
      Ok(seq(|props|, i requires 0 <= i < |props| => QuoteIdentifier(props[i].name)))
  }

  /** The separator before the m-th item of a GROUP BY's lists: nothing
      before the first, a comma before every other. */
  function ItemSeparator(m: nat): string {
    if m == 0 then "" else ", "
  }

  /** An outer SELECT item over a column of the inner query:
      `source.alias AS alias` on a line of its own. */
  function ReferenceItem(separator: string, source: Symbol, alias: string): seq<Fragment> {
    [Text(separator), Text(NewLine)] + AliasReference(source, alias) + [Text(" AS "), Text(alias)]
  }

  /** The items of a list, one after the other. */
  function ConcatItems(items: seq<seq<Fragment>>): seq<Fragment> {
    if |items| == 0 then [] else ConcatItems(items[..|items| - 1]) + items[|items| - 1]
  }

  /** The SELECT items of the grouping keys: the m-th key's text, or with
      an inner query the reference to that query's column, under the name
      of the m-th member of the result row. */
  function KeyItems(names: seq<string>, texts: seq<Fragment>, inner: Option<Symbol>): (r: seq<seq<Fragment>>)
    requires |texts| <= |names|
    ensures |r| == |texts|
    ensures forall m :: 0 <= m < |r| ==> |r[m]| == if inner.None? then 5 else 7
  {
    if |texts| == 0 then []
    else
      var n := |texts| - 1;
      KeyItems(names, texts[..n], inner) +
        [if inner.None? then AliasedItem(ItemSeparator(n), texts[n], names[n])
         else ReferenceItem(ItemSeparator(n), inner.value, names[n])]
  }

  /** The GROUP BY items: each key's text, or with an inner query the
      alias of its column there. */
  function KeyGroupItems(names: seq<string>, texts: seq<Fragment>, inner: Option<Symbol>): (r: seq<seq<Fragment>>)
    requires |texts| <= |names|
    ensures |r| == |texts|
  {
    if |texts| == 0 then []
    else
      var n := |texts| - 1;
      KeyGroupItems(names, texts[..n], inner) +
        [[Text(ItemSeparator(n)), if inner.None? then texts[n] else Text(names[n])]]
  }

  /** The argument an aggregate is applied to: the argument's own text, or
      with an inner query the reference to that query's column. */
  function AggregateArgument(text: Fragment, alias: string, inner: Option<Symbol>): Fragment {
    if inner.None? then text else Builder(SqlBuilder(AliasReference(inner.value, alias)))
  }

  /** The SELECT items of the aggregates, which follow the `base` keys:
      the j-th aggregate applied to its argument, under the name of the
      row member at position base + j. */
  function AggregateItems(names: seq<string>, base: nat, aggs: seq<Aggregate>, texts: seq<Fragment>,
                          inner: Option<Symbol>): (r: seq<seq<Fragment>>)
    requires base + |texts| <= |names| && |texts| <= |aggs|
    requires forall j :: 0 <= j < |texts| ==> aggs[j].FunctionAggregate?
    ensures |r| == |texts|
  {
    if |texts| == 0 then []
    else
      var n := |texts| - 1;
      var alias := names[base + n];
      AggregateItems(names, base, aggs, texts[..n], inner) +
        [AliasedItem(ItemSeparator(base + n),
                     Builder(SqlBuilder(AggregateLayout(aggs[n], AggregateArgument(texts[n], alias, inner)))), alias)]
  }

  /** The SELECT items of an inner query: the texts, from position `base`
      on, each under the name of the row member at its position. */
  function ColumnItems(names: seq<string>, base: nat, texts: seq<Fragment>): (r: seq<seq<Fragment>>)
    requires base + |texts| <= |names|
    ensures |r| == |texts|
  {
    if |texts| == 0 then []
    else
      var n := |texts| - 1;
      ColumnItems(names, base, texts[..n]) + [AliasedItem(ItemSeparator(base + n), texts[n], names[base + n])]
  }

  /** The alias an item ends with (`... AS alias`), if it ends with one. */
  function ItemAlias(item: seq<Fragment>): Option<string> {
    if |item| >= 2 && item[|item| - 2] == Text(" AS ") && item[|item| - 1].Text? then Some(item[|item| - 1].s)
    else None
  }

  /** A list of items in which the m-th item is opened by the m-th
      separator (counted from `base`) and aliased as the m-th name. */
  ghost predicate AliasedInOrder(items: seq<seq<Fragment>>, names: seq<string>, base: nat) {
    base + |items| <= |names| &&
    forall m :: 0 <= m < |items| ==>
      |items[m]| > 0 && items[m][0] == Text(ItemSeparator(base + m)) && ItemAlias(items[m]) == Some(names[base + m])
  }

  /** The keys' SELECT items are aliased as the row's members in order. */
  lemma {:induction false} KeyItemsAliased(names: seq<string>, texts: seq<Fragment>, inner: Option<Symbol>)
    requires |texts| <= |names|
    ensures AliasedInOrder(KeyItems(names, texts, inner), names, 0)
  {
    if |texts| > 0 {
      KeyItemsAliased(names, texts[..|texts| - 1], inner);
    }
  }

  /** The aggregates' SELECT items are aliased as the row's members in
      order, after the keys. */
  lemma {:induction false} AggregateItemsAliased(names: seq<string>, base: nat, aggs: seq<Aggregate>,
                                                 texts: seq<Fragment>, inner: Option<Symbol>)
    requires base + |texts| <= |names| && |texts| <= |aggs|
    requires forall j :: 0 <= j < |texts| ==> aggs[j].FunctionAggregate?
    ensures AliasedInOrder(AggregateItems(names, base, aggs, texts, inner), names, base)
  {
    if |texts| > 0 {
      AggregateItemsAliased(names, base, aggs, texts[..|texts| - 1], inner);
    }
  }

  /** An inner query's SELECT items are aliased as the row's members in
      order. */
  lemma {:induction false} ColumnItemsAliased(names: seq<string>, base: nat, texts: seq<Fragment>)
    requires base + |texts| <= |names|
    ensures AliasedInOrder(ColumnItems(names, base, texts), names, base)
  {
    if |texts| > 0 {
      ColumnItemsAliased(names, base, texts[..|texts| - 1]);
    }
  }

  /** Two lists aliased in order, the second right after the first, make
      one list aliased in order. */
  lemma AliasedInOrderAppend(a: seq<seq<Fragment>>, b: seq<seq<Fragment>>, names: seq<string>, base: nat)
    requires AliasedInOrder(a, names, base) && AliasedInOrder(b, names, base + |a|)
    ensures AliasedInOrder(a + b, names, base)
  {
    forall m | 0 <= m < |a + b|
      ensures |(a + b)[m]| > 0 && (a + b)[m][0] == Text(ItemSeparator(base + m)) &&
              ItemAlias((a + b)[m]) == Some(names[base + m])
    {
      if m >= |a| {
        assert (a + b)[m] == b[m - |a|];
      }
    }
  }

  /** Concatenating items distributes over joining item lists. */
  lemma {:induction false} ConcatItemsAppend(a: seq<seq<Fragment>>, b: seq<seq<Fragment>>)
    ensures ConcatItems(a + b) == ConcatItems(a) + ConcatItems(b)
  {
    if |b| > 0 {
      var n := |b| - 1;
      assert (a + b)[..|a + b| - 1] == a + b[..n];
      ConcatItemsAppend(a, b[..n]);
    } else {
      assert a + b == a;
    }
  }

  /** The whole SELECT list of a GROUP BY, keys then aggregates, names
      the row's members in order, comma-separated; with an inner query
      the inner query names the same columns in the same order, and the
      outer query's keys read exactly those columns of the inner query's
      symbol. */
  lemma {:induction false} GroupBySelectAliased(names: seq<string>, keyTexts: seq<Fragment>, aggs: seq<Aggregate>,
                                                argTexts: seq<Fragment>, inner: Option<Symbol>)
    requires |keyTexts| + |argTexts| <= |names| && |argTexts| <= |aggs|
    requires forall j :: 0 <= j < |argTexts| ==> aggs[j].FunctionAggregate?
    ensures AliasedInOrder(KeyItems(names, keyTexts, inner) +
                           AggregateItems(names, |keyTexts|, aggs, argTexts, inner), names, 0)
    ensures AliasedInOrder(ColumnItems(names, 0, keyTexts) + ColumnItems(names, |keyTexts|, argTexts), names, 0)
    ensures inner.Some? ==> forall m :: 0 <= m < |keyTexts| ==>
              KeyItems(names, keyTexts, inner)[m][2..5] == AliasReference(inner.value, names[m])
  {
    KeyItemsAliased(names, keyTexts, inner);
    AggregateItemsAliased(names, |keyTexts|, aggs, argTexts, inner);
    AliasedInOrderAppend(KeyItems(names, keyTexts, inner), AggregateItems(names, |keyTexts|, aggs, argTexts, inner),
                         names, 0);
    ColumnItemsAliased(names, 0, keyTexts);
    ColumnItemsAliased(names, |keyTexts|, argTexts);
    AliasedInOrderAppend(ColumnItems(names, 0, keyTexts), ColumnItems(names, |keyTexts|, argTexts), names, 0);
    if inner.Some? {
      KeyItemsReference(names, keyTexts, inner.value);
    }
  }

  /** With an inner query the m-th key item reads the inner query's
      column named after the m-th member. */
  lemma {:induction false} KeyItemsReference(names: seq<string>, texts: seq<Fragment>, source: Symbol)
    requires |texts| <= |names|
    ensures forall m :: 0 <= m < |texts| ==>
              KeyItems(names, texts, Some(source))[m][2..5] == AliasReference(source, names[m])
  {
    if |texts| > 0 {
      KeyItemsReference(names, texts[..|texts| - 1], source);
    }
  }
}
