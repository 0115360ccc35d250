// SqlChecker: does a query tree contain a SKIP? A visitor that folds every
// node to a Boolean, or-ing the results of all the children it visits, and
// that rejects APPLY.
module SqlChecking {
  import opened Errors
  import opened CommandTrees

  const ApplyNotSupported: Exception := NotSupported("apply expression")

  /** Two visits made one after the other: both run, the first exception
      propagates, and otherwise the results are or-ed. */
  function Both(a: Result<bool>, b: Result<bool>): (r: Result<bool>)
    ensures r.Fail? <==> a.Fail? || b.Fail?
    ensures a.Fail? ==> r == a
    ensures r.Ok? ==> r.value == (a.value || b.value)
  {
    if a.Fail? then a else if b.Fail? then b else Ok(a.value || b.value)
  }

  lemma BothAlgebra(a: Result<bool>, b: Result<bool>, c: Result<bool>)
    ensures Both(a, Both(b, c)) == Both(Both(a, b), c)
    ensures Both(a, Ok(false)) == a
  {
  }

  /** The checker's visit of one node. */
  function Check(e: Expr): Result<bool>
    decreases e
  {
    match e
    case Apply(_, _, _, _) => Fail(ApplyNotSupported)
    case Leaf(_, _) => Ok(false)
    case Property(_, i, _) => Check(i)
    case Unary(_, _, a) => Check(a)
    case Binary(_, _, l, r) => Both(Check(l), Check(r))
    case Nary(_, _, args) => CheckList(args)
    case Case(_, ws, ts, el) => Both(Both(CheckList(ws), CheckList(ts)), CheckOptional(el))
    case Like(_, a, p, esc) => Both(Both(Check(a), Check(p)), Check(esc))
    case Quantifier(_, _, b, p) => Both(Check(b.expression), Check(p))
    case Filter(_, b, p) => Both(Check(b.expression), Check(p))
    case Project(_, b, p) => Both(Check(b.expression), Check(p))
    case Sort(_, b, cs) => Both(Check(b.expression), CheckSorts(cs))
    case Skip(_, b, cs, c) =>
      var visited := Both(Both(Check(b.expression), CheckSorts(cs)), Check(c));
      if visited.Fail? then visited else Ok(true)
    case Limit(_, a, _, _) => Check(a)
    case GroupBy(_, g, ks, ags) => Both(Both(Check(g.expression), CheckList(ks)), CheckAggregates(ags))
    case Join(_, _, l, r, c) => Both(Both(Check(l.expression), Check(r.expression)), Check(c))
    case CrossJoin(_, bs) => CheckBindings(bs)
  }

  /** An optional sub-expression: a missing one counts as false. */
  function CheckOptional(e: Option<Expr>): Result<bool>
    decreases e
  {
    if e.None? then Ok(false) else Check(e.value)
  }

  /** VisitList: visits every element in order, or-ing the results. */
  function CheckList(es: seq<Expr>): Result<bool>
    decreases es
  {
    if |es| == 0 then Ok(false) else Both(Check(es[0]), CheckList(es[1..]))
  }

  function CheckSorts(cs: seq<SortClause>): Result<bool>
    decreases cs
  {
    if |cs| == 0 then Ok(false) else Both(Check(cs[0].expression), CheckSorts(cs[1..]))
  }

  function CheckBindings(bs: seq<Binding>): Result<bool>
    decreases bs
  {
    if |bs| == 0 then Ok(false) else Both(Check(bs[0].expression), CheckBindings(bs[1..]))
  }

  function CheckAggregates(ags: seq<Aggregate>): Result<bool>
    decreases ags
  {
    if |ags| == 0 then Ok(false) else Both(CheckList(ags[0].arguments), CheckAggregates(ags[1..]))
  }

  /** The children the checker visits, in the order it visits them; APPLY
      visits none, LIMIT only its argument. */
  function Children(e: Expr): (cs: seq<Expr>)
    ensures forall i :: 0 <= i < |cs| ==> Size(cs[i]) < Size(e)
  {
    if e.Leaf? || e.Apply? then []
    else if e.Property? then [e.instance]
    else if e.Unary? || e.Limit? then [e.argument]
    else if e.Binary? then [e.left, e.right]
    else if e.Nary? then e.arguments
    else if e.Case? then e.whens + e.thens + (if e.elseExpr.Some? then [e.elseExpr.value] else [])
    else if e.Like? then [e.argument, e.pattern, e.escape]
    else if e.Quantifier? || e.Filter? then [e.input.expression, e.pred]
    else if e.Project? then [e.input.expression, e.projection]
    else if e.Sort? then [e.input.expression] + SortKeys(e.sortOrder)
    else if e.Skip? then [e.input.expression] + SortKeys(e.sortOrder) + [e.count]
    else if e.Join? then [e.leftInput.expression, e.rightInput.expression, e.joinCondition]
    else if e.CrossJoin? then BindingExpressions(e.inputs)
    else
      AggregateArgumentsSize(e.aggregates);
      [e.groupInput.expression] + e.keys + AggregateArguments(e.aggregates)
  }

  lemma {:induction false} AggregateArgumentsSize(ags: seq<Aggregate>)
    ensures forall i :: 0 <= i < |AggregateArguments(ags)| ==> Size(AggregateArguments(ags)[i]) <= SizeAggregates(ags)
  {
    if |ags| > 0 {
      AggregateArgumentsSize(ags[1..]);
      var a := ags[0].arguments;
      var rest := AggregateArguments(ags[1..]);
      assert AggregateArguments(ags) == a + rest;
      forall i | 0 <= i < |a + rest|
        ensures Size((a + rest)[i]) <= SizeAggregates(ags)
      {
        if i >= |a| {
          assert (a + rest)[i] == rest[i - |a|];
        }
      }
    }
  }

  /** Some node the checker visits is an APPLY. */
  predicate ReachesApply(e: Expr)
    decreases Size(e)
  {
    e.Apply? || exists i :: 0 <= i < |Children(e)| && ReachesApply(Children(e)[i])
  }

  /** Some node the checker visits is a SKIP. */
  predicate ReachesSkip(e: Expr)
    decreases Size(e)
  {
    e.Skip? || exists i :: 0 <= i < |Children(e)| && ReachesSkip(Children(e)[i])
  }

  /** Visiting a list of children one after the other. */
  lemma {:induction false} CheckListAppend(a: seq<Expr>, b: seq<Expr>)
    ensures CheckList(a + b) == Both(CheckList(a), CheckList(b))
  {
    if |a| == 0 {
      assert a + b == b;
    } else {
      assert (a + b)[0] == a[0];
      assert (a + b)[1..] == a[1..] + b;
      CheckListAppend(a[1..], b);
      BothAlgebra(Check(a[0]), CheckList(a[1..]), CheckList(b));
    }
  }

  lemma {:induction false} CheckSortsAsList(cs: seq<SortClause>)
    ensures CheckSorts(cs) == CheckList(SortKeys(cs))
  {
    if |cs| > 0 {
      CheckSortsAsList(cs[1..]);
      assert SortKeys(cs)[1..] == SortKeys(cs[1..]);
    }
  }

  lemma {:induction false} CheckBindingsAsList(bs: seq<Binding>)
    ensures CheckBindings(bs) == CheckList(BindingExpressions(bs))
  {
    if |bs| > 0 {
      CheckBindingsAsList(bs[1..]);
      assert BindingExpressions(bs)[1..] == BindingExpressions(bs[1..]);
    }
  }

  lemma {:induction false} CheckAggregatesAsList(ags: seq<Aggregate>)
    ensures CheckAggregates(ags) == CheckList(AggregateArguments(ags))
  {
    if |ags| > 0 {
      CheckAggregatesAsList(ags[1..]);
      CheckListAppend(ags[0].arguments, AggregateArguments(ags[1..]));
    }
  }

  /** Every visit is the fold of its children's visits: APPLY throws, SKIP
      answers true once its children are visited without an exception,
      and every other node or-s its children's results. */
  lemma CheckIsFold(e: Expr)
    ensures e.Apply? ==> Check(e) == Fail(ApplyNotSupported)
    ensures e.Skip? ==> Check(e) == (if CheckList(Children(e)).Fail? then CheckList(Children(e)) else Ok(true))
    ensures !e.Apply? && !e.Skip? ==> Check(e) == CheckList(Children(e))
  {
    if e.Property? {
      Single(e.instance);
    } else if e.Unary? || e.Limit? {
      Single(e.argument);
    } else if e.Binary? {
      Pair(e.left, e.right);
    } else if e.Quantifier? || e.Filter? {
      Pair(e.input.expression, e.pred);
    } else if e.Project? {
      Pair(e.input.expression, e.projection);
    } else if e.Like? {
      Triple(e.argument, e.pattern, e.escape);
    } else if e.Join? {
      Triple(e.leftInput.expression, e.rightInput.expression, e.joinCondition);
    } else if e.Case? {
      CaseFold(e);
    } else if e.Sort? || e.Skip? {
      SortFold(e);
    } else if e.GroupBy? {
      GroupByFold(e);
    } else if e.CrossJoin? {
      CheckBindingsAsList(e.inputs);
    }
  }

  lemma CaseFold(e: Expr)
    requires e.Case?
    ensures Check(e) == CheckList(Children(e))
  {
    var ws, ts, el := e.whens, e.thens, e.elseExpr;
    var tail: seq<Expr> := if el.Some? then [el.value] else [];
    CheckListAppend(ws + ts, tail);
    CheckListAppend(ws, ts);
    if el.Some? {
      Single(el.value);
    } else {
      BothAlgebra(Both(CheckList(ws), CheckList(ts)), Ok(false), Ok(false));
    }
  }

  lemma SortFold(e: Expr)
    requires e.Sort? || e.Skip?
    ensures e.Sort? ==> Check(e) == CheckList(Children(e))
    ensures e.Skip? ==> Check(e) == (if CheckList(Children(e)).Fail? then CheckList(Children(e)) else Ok(true))
  {
    var b, cs := e.input.expression, e.sortOrder;
    CheckSortsAsList(cs);
    CheckListAppend([b], SortKeys(cs));
    Single(b);
    if e.Skip? {
      CheckListAppend([b] + SortKeys(cs), [e.count]);
      Single(e.count);
    }
  }

  lemma GroupByFold(e: Expr)
    requires e.GroupBy?
    ensures Check(e) == CheckList(Children(e))
  {
    var g, ks, ags := e.groupInput.expression, e.keys, e.aggregates;
    CheckAggregatesAsList(ags);
    CheckListAppend([g] + ks, AggregateArguments(ags));
    CheckListAppend([g], ks);
    Single(g);
  }

  lemma Single(a: Expr)
    ensures CheckList([a]) == Check(a)
  {
    assert [a][1..] == [];
    BothAlgebra(Check(a), Ok(false), Ok(false));
  }

  lemma Pair(a: Expr, b: Expr)
    ensures CheckList([a, b]) == Both(Check(a), Check(b))
  {
    assert [a, b][1..] == [b];
    Single(b);
  }

  lemma Triple(a: Expr, b: Expr, c: Expr)
    ensures CheckList([a, b, c]) == Both(Both(Check(a), Check(b)), Check(c))
  {
    assert [a, b, c][1..] == [b, c];
    Pair(b, c);
    BothAlgebra(Check(a), Check(b), Check(c));
  }

  /** What the checker computes: it throws exactly when it meets an APPLY
      (always with the same message), and otherwise answers whether it met
      a SKIP. */
  lemma {:induction false} CheckMeaning(e: Expr)
    ensures Check(e).Fail? <==> ReachesApply(e)
    ensures Check(e).Fail? ==> Check(e).error == ApplyNotSupported
    ensures Check(e).Ok? ==> (Check(e).value <==> ReachesSkip(e))
  {
    CheckFailsOnApply(e);
    CheckFindsSkip(e);
  }

  lemma {:induction false} CheckFailsOnApply(e: Expr)
    ensures Check(e).Fail? <==> ReachesApply(e)
    ensures Check(e).Fail? ==> Check(e).error == ApplyNotSupported
    decreases Size(e), 1
  {
    CheckIsFold(e);
    var cs := Children(e);
    assert ReachesApply(e) <==> e.Apply? || exists i :: 0 <= i < |cs| && ReachesApply(cs[i]);
    if !e.Apply? {
      CheckListFailsOnApply(cs, Size(e));
    }
  }

  lemma {:induction false} CheckListFailsOnApply(es: seq<Expr>, bound: nat)
    requires forall i :: 0 <= i < |es| ==> Size(es[i]) < bound
    ensures CheckList(es).Fail? <==> exists i :: 0 <= i < |es| && ReachesApply(es[i])
    ensures CheckList(es).Fail? ==> CheckList(es).error == ApplyNotSupported
    decreases bound, 0, |es|
  {
    if |es| > 0 {
      CheckFailsOnApply(es[0]);
      CheckListFailsOnApply(es[1..], bound);
      assert forall i :: 1 <= i < |es| ==> es[1..][i - 1] == es[i];
    }
  }

  lemma {:induction false} CheckFindsSkip(e: Expr)
    ensures Check(e).Ok? ==> (Check(e).value <==> ReachesSkip(e))
    decreases Size(e), 1
  {
    CheckIsFold(e);
    var cs := Children(e);
    assert ReachesSkip(e) <==> e.Skip? || exists i :: 0 <= i < |cs| && ReachesSkip(cs[i]);
    if !e.Apply? {
      CheckListFindsSkip(cs, Size(e));
    }
  }

  lemma {:induction false} CheckListFindsSkip(es: seq<Expr>, bound: nat)
    requires forall i :: 0 <= i < |es| ==> Size(es[i]) < bound
    ensures CheckList(es).Ok? ==> (CheckList(es).value <==> exists i :: 0 <= i < |es| && ReachesSkip(es[i]))
    decreases bound, 0, |es|
  {
    if |es| > 0 {
      CheckFindsSkip(es[0]);
      CheckListFindsSkip(es[1..], bound);
      assert forall i :: 1 <= i < |es| ==> es[1..][i - 1] == es[i];
    }
  }

  /** The leaves answer false and a SKIP answers true whatever it holds,
      unless an APPLY below it throws. */
  lemma LeafAndSkipAnswers(e: Expr)
    ensures e.Leaf? ==> Check(e) == Ok(false)
    ensures e.Skip? && !ReachesApply(e) ==> Check(e) == Ok(true)
  {
    CheckMeaning(e);
  }
}
