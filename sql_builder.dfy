// The SQL fragments the query generator builds: append-only builders,
// the TOP (LIMIT) and SKIP (OFFSET) clauses, and the SELECT statement
// accumulator with its five clauses.
module SqlFragments {
  import opened Errors
  import opened Text
  import opened Symbols

  /** An object appended to a SqlBuilder: a string, a char, one of the
      fragment kinds (a builder, a statement, a symbol, a symbol pair), or
      any other object. */
  datatype Fragment =
    | Text(s: string)
    | Chr(c: char)
    | Builder(b: SqlBuilder)
    | Statement(st: SqlSelectStatement)
    | SymbolRef(sym: Symbol)
    | Pair(source: Symbol, column: Symbol)
    | Other

  /** SqlBuilder: the fragments appended so far, in order. */
  datatype SqlBuilder = SqlBuilder(fragments: seq<Fragment>) {
    /** IsEmpty: nothing has been appended. */
    predicate IsEmpty() {
      |fragments| == 0
    }

    /** Append: the fragment goes at the end; nothing before it changes. */
    function Append(f: Fragment): (r: SqlBuilder)
      ensures |r.fragments| == |fragments| + 1 && r.fragments[..|fragments|] == fragments
      ensures r.fragments[|fragments|] == f && !r.IsEmpty()
    {
      SqlBuilder(fragments + [f])
    }

    /** AppendLine: appends exactly the newline string. */
    function AppendLine(): (r: SqlBuilder)
      ensures |r.fragments| == |fragments| + 1 && r.fragments[..|fragments|] == fragments
      ensures r.fragments[|fragments|] == Text(NewLine)
    {
      Append(Text(NewLine))
    }
  }

  const EmptyBuilder: SqlBuilder := SqlBuilder([])

  /** A builder holding the given fragments. */
  function BuilderOf(fs: seq<Fragment>): (r: SqlBuilder)
    ensures r.fragments == fs
  {
    SqlBuilder(fs)
  }

  /** TopClause: the row limit (a fragment) and whether ties are kept;
      both are fixed at construction. */
  datatype TopClause = TopClause(topCount: Fragment, withTies: bool)

  /** TopClause(int, bool): the count as an invariant decimal string. */
  function TopClauseOfCount(topCount: int, withTies: bool): (r: TopClause)
    ensures r.withTies == withTies && r.topCount.Builder?
    ensures r.topCount.b.fragments == [Text(IntToString(topCount))]
  {
    TopClause(Builder(SqlBuilder([Text(IntToString(topCount))])), withTies)
  }

  /** SkipClause: the number of rows skipped (a fragment), fixed at
      construction. */
  datatype SkipClause = SkipClause(skipCount: Fragment)

  /** SkipClause(int): the count as an invariant decimal string. */
  function SkipClauseOfCount(skipCount: int): (r: SkipClause)
    ensures r.skipCount.Builder? && r.skipCount.b.fragments == [Text(IntToString(skipCount))]
  {
    SkipClause(Builder(SqlBuilder([Text(IntToString(skipCount))])))
  }

  /** SqlSelectStatement: the clauses of one SELECT, the extents of its FROM
      clause, and the extents of enclosing statements it refers to (the keys
      of OuterExtents, in the order they were added). */
  datatype SqlSelectStatement = SqlSelectStatement(
    isDistinct: bool,
    isTopMost: bool,
    allJoinExtents: Option<seq<Symbol>>,
    fromExtents: seq<Symbol>,
    outerExtents: seq<Symbol>,
    top: Option<TopClause>,
    skip: Option<SkipClause>,
    select: SqlBuilder,
    from: SqlBuilder,
    where: SqlBuilder,
    groupBy: SqlBuilder,
    orderBy: SqlBuilder)
  {
    /** HaveOrderByLimitOrOffset: an ORDER BY, a LIMIT or an OFFSET is set. */
    predicate HaveOrderByLimitOrOffset() {
      !orderBy.IsEmpty() || top.Some? || skip.Some?
    }

    /** The Top setter; setting it twice violates the setter's assertion. */
    function WithTop(t: TopClause): (r: SqlSelectStatement)
      requires top.None?
      ensures r.top == Some(t) && r.HaveOrderByLimitOrOffset()
      ensures r == this.(top := Some(t))
    {
      this.(top := Some(t))
    }

    /** The Skip setter; setting it twice violates the setter's assertion. */
    function WithSkip(s: SkipClause): (r: SqlSelectStatement)
      requires skip.None?
      ensures r.skip == Some(s) && r.HaveOrderByLimitOrOffset()
      ensures r == this.(skip := Some(s))
    {
      this.(skip := Some(s))
    }

    /** The extents whose aliases the write pass checks: AllJoinExtents when
        set, the FromExtents otherwise. */
    function ExtentList(): (r: seq<Symbol>)
      ensures allJoinExtents.None? ==> r == fromExtents
      ensures allJoinExtents.Some? ==> r == allJoinExtents.value
    {
      if allJoinExtents.Some? then allJoinExtents.value else fromExtents
    }

    /** Records an outer extent (OuterExtents[symbol] = true): a key added
        again keeps its place. */
    function WithOuterExtent(s: Symbol): (r: SqlSelectStatement)
      ensures s in r.outerExtents
      ensures forall t :: t in outerExtents ==> t in r.outerExtents
      ensures s in outerExtents ==> r == this
      ensures s !in outerExtents ==> r == this.(outerExtents := outerExtents + [s])
    {
      if s in outerExtents then this else this.(outerExtents := outerExtents + [s])
    }
  }

  /** A new statement: every clause empty, no extents, no TOP or SKIP. */
  const NewStatement: SqlSelectStatement :=
    SqlSelectStatement(false, false, None, [], [], None, None,
                       EmptyBuilder, EmptyBuilder, EmptyBuilder, EmptyBuilder, EmptyBuilder)

  /** HaveOrderByLimitOrOffset holds exactly when one of the three clauses
      was set, and a fresh statement has none of them. */
  lemma HaveOrderByLimitOrOffsetCases(st: SqlSelectStatement, t: TopClause, s: SkipClause, f: Fragment)
    ensures !NewStatement.HaveOrderByLimitOrOffset()
    ensures st.top.None? ==> st.WithTop(t).HaveOrderByLimitOrOffset()
    ensures st.HaveOrderByLimitOrOffset() ==> st.(orderBy := st.orderBy.Append(f)).HaveOrderByLimitOrOffset()
    ensures !st.HaveOrderByLimitOrOffset() <==> st.orderBy.IsEmpty() && st.top.None? && st.skip.None?
  {
  }

  /** The symbols a fragment refers to, at any depth: symbols written as
      names, symbol pairs, and the extents of nested statements. */
  function FragmentSymbols(f: Fragment): set<Symbol>
    decreases f
  {
    match f
    case Text(_) => {}
    case Chr(_) => {}
    case Other => {}
    case SymbolRef(sym) => {sym}
    case Pair(source, column) => {source, column}
    case Builder(b) => BuilderSymbols(b)
    case Statement(st) => StatementSymbols(st)
  }

  function BuilderSymbols(b: SqlBuilder): (r: set<Symbol>)
    ensures forall i :: 0 <= i < |b.fragments| ==> FragmentSymbols(b.fragments[i]) <= r
    decreases b
  {
    set i, s | 0 <= i < |b.fragments| && s in FragmentSymbols(b.fragments[i]) :: s
  }

  function StatementSymbols(st: SqlSelectStatement): (r: set<Symbol>)
    ensures BuilderSymbols(st.select) <= r && BuilderSymbols(st.from) <= r && BuilderSymbols(st.where) <= r
    ensures BuilderSymbols(st.groupBy) <= r && BuilderSymbols(st.orderBy) <= r
    ensures st.top.Some? ==> FragmentSymbols(st.top.value.topCount) <= r
    ensures st.skip.Some? ==> FragmentSymbols(st.skip.value.skipCount) <= r
    ensures forall s :: s in st.ExtentList() ==> s in r
    ensures forall s :: s in st.fromExtents ==> s in r
    decreases st
  {
    BuilderSymbols(st.select) + BuilderSymbols(st.from) + BuilderSymbols(st.where)
    + BuilderSymbols(st.groupBy) + BuilderSymbols(st.orderBy)
    + (if st.top.Some? then FragmentSymbols(st.top.value.topCount) else {})
    + (if st.skip.Some? then FragmentSymbols(st.skip.value.skipCount) else {})
    + (set s | s in st.fromExtents) + (if st.allJoinExtents.Some? then set s | s in st.allJoinExtents.value else {})
  }
}
