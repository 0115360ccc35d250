// SqlGenerator: the visitor that turns a query expression tree into nested
// SELECT statements. It keeps a stack of the statements being built, a
// stack of "is the parent a join" flags, a symbol table of the variables in
// scope, and the registries of extent and column names the write pass
// renames against.
module SqlGeneration {
  import opened Errors
  import opened Text
  import opened Edm
  import opened MetadataHelpers
  import opened CommandTrees
  import opened Symbols
  import opened SymbolTables
  import opened SqlFragments
  import opened SqlRules
  import opened SqlWriters
  import opened SqlWriting

  /** The five clauses of a statement. */
  datatype Clause = SelectClause | FromClause | WhereClause | GroupByClause | OrderByClause

  function ClauseOf(st: SqlSelectStatement, c: Clause): SqlBuilder {
    if c == SelectClause then st.select
    else if c == FromClause then st.from
    else if c == WhereClause then st.where
    else if c == GroupByClause then st.groupBy
    else st.orderBy
  }

  /** The statement with the fragments appended to one clause. */
  function AppendClause(st: SqlSelectStatement, c: Clause, fs: seq<Fragment>): (r: SqlSelectStatement)
    ensures ClauseOf(r, c).fragments == ClauseOf(st, c).fragments + fs
    ensures c != SelectClause ==> r.select == st.select
    ensures c != FromClause ==> r.from == st.from
    ensures c != WhereClause ==> r.where == st.where
    ensures c != GroupByClause ==> r.groupBy == st.groupBy
    ensures c != OrderByClause ==> r.orderBy == st.orderBy
    ensures r.fromExtents == st.fromExtents && r.allJoinExtents == st.allJoinExtents
    ensures r.outerExtents == st.outerExtents && r.top == st.top && r.skip == st.skip
    ensures r.isDistinct == st.isDistinct && r.isTopMost == st.isTopMost
  {
    var b := SqlBuilder(ClauseOf(st, c).fragments + fs);
    if c == SelectClause then st.(select := b)
    else if c == FromClause then st.(from := b)
    else if c == WhereClause then st.(where := b)
    else if c == GroupByClause then st.(groupBy := b)
    else st.(orderBy := b)
  }

  /** Appending to one clause leaves every other clause as it was. */
  lemma AppendClauseKeepsOthers(st: SqlSelectStatement, c: Clause, fs: seq<Fragment>, d: Clause)
    requires d != c
    ensures ClauseOf(AppendClause(st, c, fs), d) == ClauseOf(st, d)
  {
  }

  /** What a visit may change in the statement it does not own: its FROM
      clause and extents (a join input that shares its parent's statement
      adds to them) and its outer extents (a variable reference adds to
      them). Everything else stays. */
  predicate SameClauses(a: SqlSelectStatement, b: SqlSelectStatement) {
    a.isDistinct == b.isDistinct && a.isTopMost == b.isTopMost && a.top == b.top && a.skip == b.skip &&
    a.select == b.select && a.where == b.where && a.groupBy == b.groupBy && a.orderBy == b.orderBy
  }

  /** One column taken from an extent: `source.name AS column`. */
  function PropertyItem(separator: string, source: Symbol, name: string, column: Symbol): seq<Fragment> {
    [Text(separator), SymbolRef(source), Text("."), Text(QuoteIdentifier(name)), Text(" AS "), SymbolRef(column)]
  }

  /** The columns of an extent's properties, `first` before the first and
      a comma before each other. */
  function PropertyItems(first: string, source: Symbol, props: seq<EdmProperty>, cols: seq<Symbol>): (r: seq<Fragment>)
    requires |props| == |cols|
    ensures |r| == 6 * |props|
  {
    if |props| == 0 then []
    else
      var n := |props| - 1;
      PropertyItems(first, source, props[..n], cols[..n])
      + PropertyItem(if n == 0 then first else ", ", source, props[n].name, cols[n])
  }

  /** The i-th column of an extent is written `source.name_i AS column_i`
      after its separator. */
  lemma {:induction false} PropertyItemsAt(first: string, source: Symbol, props: seq<EdmProperty>, cols: seq<Symbol>, i: nat)
    requires |props| == |cols| && i < |props|
    ensures PropertyItems(first, source, props, cols)[6 * i..6 * i + 6] ==
            PropertyItem(if i == 0 then first else ", ", source, props[i].name, cols[i])
  {
    var n := |props| - 1;
    var prefix := PropertyItems(first, source, props[..n], cols[..n]);
    var last := PropertyItem(if n == 0 then first else ", ", source, props[n].name, cols[n]);
    var all := PropertyItems(first, source, props, cols);
    assert all == prefix + last;
    assert |prefix| == 6 * n;
    if i < n {
      PropertyItemsAt(first, source, props[..n], cols[..n], i);
      SliceOfLeft(prefix, last, 6 * i, 6 * i + 6);
    } else {
      assert all[6 * n..] == last;
    }
  }

  /** A slice inside the left operand of a concatenation. */
  lemma SliceOfLeft<T>(a: seq<T>, b: seq<T>, lo: nat, hi: nat)
    requires lo <= hi <= |a|
    ensures (a + b)[lo..hi] == a[lo..hi]
  {
  }

  /** One column of a nested join: `join.column`. */
  function JoinColumnItem(separator: string, source: Symbol, column: Symbol): seq<Fragment> {
    [Text(separator), SymbolRef(source), Text("."), SymbolRef(column)]
  }

  function JoinColumnItems(first: string, source: Symbol, cols: seq<Symbol>): (r: seq<Fragment>)
    ensures |r| == 4 * |cols|
  {
    if |cols| == 0 then []
    else
      var n := |cols| - 1;
      JoinColumnItems(first, source, cols[..n]) + JoinColumnItem(if n == 0 then first else ", ", source, cols[n])
  }

  /** The i-th column of a nested join is written `join.column_i` after its
      separator. */
  lemma {:induction false} JoinColumnItemsAt(first: string, source: Symbol, cols: seq<Symbol>, i: nat)
    requires i < |cols|
    ensures JoinColumnItems(first, source, cols)[4 * i..4 * i + 4] ==
            JoinColumnItem(if i == 0 then first else ", ", source, cols[i])
  {
    var n := |cols| - 1;
    var prefix := JoinColumnItems(first, source, cols[..n]);
    var last := JoinColumnItem(if n == 0 then first else ", ", source, cols[n]);
    var all := JoinColumnItems(first, source, cols);
    assert all == prefix + last;
    assert |prefix| == 4 * n;
    if i < n {
      JoinColumnItemsAt(first, source, cols[..n], i);
      SliceOfLeft(prefix, last, 4 * i, 4 * i + 4);
    } else {
      assert all[4 * n..] == last;
    }
  }


  lemma PropertyItemsSnoc(first: string, source: Symbol, props: seq<EdmProperty>, cols: seq<Symbol>,
                          p: EdmProperty, c: Symbol)
    requires |props| == |cols|
    ensures PropertyItems(first, source, props + [p], cols + [c]) ==
            PropertyItems(first, source, props, cols) + PropertyItem(if |props| == 0 then first else ", ", source, p.name, c)
  {
    assert (props + [p])[..|props|] == props && (cols + [c])[..|cols|] == cols;
  }

  lemma JoinColumnItemsSnoc(first: string, source: Symbol, cols: seq<Symbol>, c: Symbol)
    ensures JoinColumnItems(first, source, cols + [c]) ==
            JoinColumnItems(first, source, cols) + JoinColumnItem(if |cols| == 0 then first else ", ", source, c)
  {
    assert (cols + [c])[..|cols|] == cols;
  }

  /** The column list and SELECT items after k + 1 join columns are those
      after k followed by the k-th. */
  lemma JoinColumnsGrow(cs: ColumnState, sym: Symbol, cols: seq<Symbol>, k: nat, r: ColumnState, r': ColumnState)
    requires k < |cols|
    requires r.columnList == cs.columnList + cols[..k] && r'.columnList == r.columnList + [cols[k]]
    requires r.select == cs.select + JoinColumnItems(cs.separator, sym, cols[..k])
    requires r'.select == r.select + JoinColumnItem(r.separator, sym, cols[k])
    requires r.separator == if k == 0 then cs.separator else ", "
    ensures r'.columnList == cs.columnList + cols[..k + 1]
    ensures r'.select == cs.select + JoinColumnItems(cs.separator, sym, cols[..k + 1])
  {
    assert cols[..k + 1] == cols[..k] + [cols[k]];
    JoinColumnItemsSnoc(cs.separator, sym, cols[..k], cols[k]);
  }

  /** After k rounds of AddPropertyColumns: the columns of the first k
      properties follow those there before, each written after its separator. */
  ghost predicate PropertyProgress(cs: ColumnState, sym: Symbol, props: seq<EdmProperty>, k: nat,
                                   added: seq<Symbol>, r: ColumnState) {
    k <= |props| && |added| == k && Extends(cs, r) &&
    r.columnList == cs.columnList + added &&
    r.select == cs.select + PropertyItems(cs.separator, sym, props[..k], added) &&
    r.separator == if k == 0 then cs.separator else ", "
  }

  /** One more round adds the k-th property's column. */
  lemma PropertyColumnsGrow(cs: ColumnState, sym: Symbol, props: seq<EdmProperty>, k: nat, added: seq<Symbol>,
                            c: Symbol, r: ColumnState, r': ColumnState)
    requires k < |props| && PropertyProgress(cs, sym, props, k, added, r) && Extends(r, r')
    requires r'.columnList == r.columnList + [c]
    requires r'.select == r.select + PropertyItem(r.separator, sym, props[k].name, c) && r'.separator == ", "
    ensures PropertyProgress(cs, sym, props, k + 1, added + [c], r')
  {
    ExtendsTrans(cs, r, r');
    assert props[..k + 1] == props[..k] + [props[k]];
    PropertyItemsSnoc(cs.separator, sym, props[..k], added, props[k], c);
  }

  /** After a round per property, the columns added are exactly `added`. */
  lemma PropertyProgressDone(cs: ColumnState, sym: Symbol, props: seq<EdmProperty>, added: seq<Symbol>, r: ColumnState)
    requires PropertyProgress(cs, sym, props, |props|, added, r)
    ensures Extends(cs, r) && |r.columnList| == |cs.columnList| + |props|
    ensures r.columnList[|cs.columnList|..] == added && props[..|props|] == props
    ensures r.select == cs.select + PropertyItems(cs.separator, sym, props, added)
    ensures r.separator == if |props| == 0 then cs.separator else ", "
  {
    assert props[..|props|] == props;
    assert r.columnList[|cs.columnList|..] == added;
  }

  /** The folded names of the properties, the keys their columns are filed
      under. */
  function FoldNames(props: seq<EdmProperty>): (keys: seq<string>)
    ensures |keys| == |props|
  {
    if |props| == 0 then [] else FoldNames(props[..|props| - 1]) + [Fold(props[|props| - 1].name)]
  }

  lemma FoldNamesSnoc(props: seq<EdmProperty>, k: nat)
    requires k < |props|
    ensures FoldNames(props[..k + 1]) == FoldNames(props[..k]) + [Fold(props[k].name)]
  {
    assert props[..k + 1][..k] == props[..k];
  }

  /** AllColumnNames after each name of `keys` has been set to 0 in turn. */
  function RegisterAll(names: map<string, int>, keys: seq<string>): map<string, int> {
    if |keys| == 0 then names else RegisterAll(names, keys[..|keys| - 1])[keys[|keys| - 1] := 0]
  }

  /** Registering names puts each of them in use with suffix 0 and leaves
      every other name as it was. */
  lemma {:induction false} RegisterAllMeans(names: map<string, int>, keys: seq<string>)
    ensures forall k :: k in RegisterAll(names, keys) <==> k in names || k in keys
    ensures forall k :: k in keys ==> RegisterAll(names, keys)[k] == 0
    ensures forall k :: k in names && k !in keys ==> RegisterAll(names, keys)[k] == names[k]
  {
    if |keys| > 0 {
      var n := |keys| - 1;
      RegisterAllMeans(names, keys[..n]);
      assert keys == keys[..n] + [keys[n]];
      forall k | k in keys
        ensures k == keys[n] || k in keys[..n]
      {
        var i :| 0 <= i < |keys| && keys[i] == k;
        if i < n {
          assert keys[..n][i] == k;
        }
      }
    }
  }

  /** The registry after one more property of a list is registered. */
  lemma RegisterNext(names: map<string, int>, props: seq<EdmProperty>, k: nat)
    requires k < |props|
    ensures RegisterAll(names, FoldNames(props[..k + 1])) == RegisterAll(names, FoldNames(props[..k]))[Fold(props[k].name) := 0]
  {
    FoldNamesSnoc(props, k);
    assert (FoldNames(props[..k]) + [Fold(props[k].name)])[..k] == FoldNames(props[..k]);
  }

  /** After k rounds of AddPropertyColumns: the keys of the first k
      properties follow those there before, and each is registered. */
  ghost predicate Registration(cs: ColumnState, props: seq<EdmProperty>, k: nat, r: ColumnState,
                               names: map<string, int>, current: map<string, int>) {
    k <= |props| && r.keys == cs.keys + FoldNames(props[..k]) && current == RegisterAll(names, FoldNames(props[..k]))
  }

  lemma RegistrationStart(cs: ColumnState, props: seq<EdmProperty>, names: map<string, int>)
    ensures Registration(cs, props, 0, cs, names, names)
  {
    assert props[..0] == [];
  }

  lemma RegistrationNext(cs: ColumnState, props: seq<EdmProperty>, k: nat, r: ColumnState, r': ColumnState,
                         names: map<string, int>, before: map<string, int>, after: map<string, int>)
    requires k < |props| && Registration(cs, props, k, r, names, before)
    requires r'.keys == r.keys + [Fold(props[k].name)] && after == before[Fold(props[k].name) := 0]
    ensures Registration(cs, props, k + 1, r', names, after)
  {
    FoldNamesSnoc(props, k);
    RegisterNext(names, props, k);
  }

  lemma RegistrationDone(cs: ColumnState, props: seq<EdmProperty>, r: ColumnState,
                         names: map<string, int>, current: map<string, int>)
    requires Registration(cs, props, |props|, r, names, current)
    ensures r.keys == cs.keys + FoldNames(props) && current == RegisterAll(names, FoldNames(props))
  {
    assert props[..|props|] == props;
  }

  /** The invariant of AddPropertyColumns after k rounds: the progress
      over the properties, the columns filed under their names, the columns
      filed before, and the registered names. */
  ghost predicate PropertyLoop(cs: ColumnState, sym: Symbol, props: seq<EdmProperty>, k: nat, added: seq<Symbol>,
                               r: ColumnState, original: map<string, Symbol>, columns: map<string, Symbol>,
                               names: map<string, int>, current: map<string, int>) {
    PropertyProgress(cs, sym, props, k, added, r) &&
    ColumnsFiled(columns, FoldNames(props[..k]), added) && KeepsColumns(original, columns) &&
    Registration(cs, props, k, r, names, current)
  }

  lemma PropertyLoopStart(cs: ColumnState, sym: Symbol, props: seq<EdmProperty>,
                          columns: map<string, Symbol>, names: map<string, int>)
    ensures PropertyLoop(cs, sym, props, 0, [], cs, columns, columns, names, names)
  {
    RegistrationStart(cs, props, names);
    assert props[..0] == [];
    assert cs.columnList + [] == cs.columnList;
    assert cs.select + [] == cs.select;
  }

  lemma PropertyLoopDone(cs: ColumnState, sym: Symbol, props: seq<EdmProperty>, added: seq<Symbol>, r: ColumnState,
                         original: map<string, Symbol>, columns: map<string, Symbol>,
                         names: map<string, int>, current: map<string, int>)
    requires PropertyLoop(cs, sym, props, |props|, added, r, original, columns, names, current)
    ensures Extends(cs, r) && |r.columnList| == |cs.columnList| + |props|
    ensures r.select == cs.select + PropertyItems(cs.separator, sym, props, r.columnList[|cs.columnList|..])
    ensures ColumnsFiled(columns, FoldNames(props), r.columnList[|cs.columnList|..])
    ensures KeepsColumns(original, columns)
    ensures r.separator == if |props| == 0 then cs.separator else ", "
    ensures r.keys == cs.keys + FoldNames(props) && current == RegisterAll(names, FoldNames(props))
  {
    PropertyProgressDone(cs, sym, props, added, r);
    RegistrationDone(cs, props, r, names, current);
  }

  /** `after` is `before` with some of the names of `added` set to 0: no
      name leaves the registry and only those names come in or change. */
  ghost predicate RegistryGrown(before: map<string, int>, after: map<string, int>, added: seq<string>) {
    (forall k :: k in before ==> k in after) &&
    (forall k :: k in after ==> (k in before && after[k] == before[k]) || (k in added && after[k] == 0))
  }

  lemma RegisterAllGrown(cs: ColumnState, r: ColumnState, names: map<string, int>, keys: seq<string>)
    requires r.keys == cs.keys + keys
    ensures RegistryGrown(names, RegisterAll(names, keys), r.keys[|cs.keys|..])
  {
    assert r.keys[|cs.keys|..] == keys;
    RegisterAllMeans(names, keys);
  }

  lemma RegistryKept(names: map<string, int>, added: seq<string>)
    ensures RegistryGrown(names, names, added)
  {
  }

  /** Growth over two column states that extend each other composes. */
  lemma RegistryGrownTrans(cs: ColumnState, r1: ColumnState, r2: ColumnState,
                           a: map<string, int>, b: map<string, int>, c: map<string, int>)
    requires Extends(cs, r1) && Extends(r1, r2)
    requires RegistryGrown(a, b, r1.keys[|cs.keys|..]) && RegistryGrown(b, c, r2.keys[|r1.keys|..])
    ensures RegistryGrown(a, c, r2.keys[|cs.keys|..])
  {
    var all := r2.keys[|cs.keys|..];
    forall k | k in r1.keys[|cs.keys|..]
      ensures k in all
    {
      var i :| |cs.keys| <= i < |r1.keys| && r1.keys[i] == k;
      assert r2.keys[..|r1.keys|][i] == k;
      assert all[i - |cs.keys|] == k;
    }
    forall k | k in r2.keys[|r1.keys|..]
      ensures k in all
    {
      var i :| |r1.keys| <= i < |r2.keys| && r2.keys[i] == k;
      assert all[i - |cs.keys|] == k;
    }
  }

  /** The separator a column state puts before its next column: nothing on
      an empty SELECT list, a comma otherwise. */
  predicate SeparatorFollows(cs: ColumnState) {
    cs.separator == if |cs.select| == 0 then "" else ", "
  }

  /** The separator before the j-th extent of a SELECT * expansion whose
      list held `prefix` before it. */
  function SeparatorAt(prefix: seq<Fragment>, parts: seq<seq<Fragment>>, j: nat): string
    requires j <= |parts|
  {
    if |prefix| + |Concat(parts[..j])| == 0 then "" else ", "
  }

  /** What SELECT * reads of an extent symbol: its type, whether it is a
      nested join, and the column list of a nested join. */
  datatype ExtentShape = ExtentShape(typeUsage: Option<TypeUsage>, isNestedJoin: bool, columnList: seq<Symbol>)

  function ShapeOf(s: Symbol): ExtentShape
    reads s`typeUsage, s`isNestedJoin, s`columnList
  {
    ExtentShape(s.typeUsage, s.isNestedJoin, s.columnList)
  }

  function ShapesOf(exts: seq<Symbol>): (r: seq<ExtentShape>)
    reads (set s | s in exts)`typeUsage, (set s | s in exts)`isNestedJoin, (set s | s in exts)`columnList
    ensures |r| == |exts|
    ensures forall j :: 0 <= j < |exts| ==> r[j] == ShapeOf(exts[j])
  {
    if |exts| == 0 then [] else ShapesOf(exts[..|exts| - 1]) + [ShapeOf(exts[|exts| - 1])]
  }

  /** What SELECT * appends for one extent of shape `sh`, after `sep`: for
      an extent, each of its properties as `extent.name AS column`, every
      name then registered at 0; for a nested join, its column list as
      `join.column`. For any other join it is not stated. */
  ghost predicate ExtentExpanded(s: Symbol, sh: ExtentShape, sep: string, part: seq<Fragment>, cols: seq<Symbol>,
                                 names: map<string, int>)
  {
    if !s.isJoin then
      sh.typeUsage.Some? &&
      (var props := GetProperties(sh.typeUsage.value.edmType);
       |cols| == |props| && part == PropertyItems(sep, s, props, cols) &&
       forall n :: n in FoldNames(props) ==> n in names && names[n] == 0)
    else if sh.isNestedJoin then
      cols == sh.columnList && part == JoinColumnItems(sep, s, sh.columnList)
    else
      true
  }

  /** The first |parts| extents of `exts`, of shapes `shapes`, expanded as
      `parts`, with the columns `cols`, each after the separator its
      position calls for. */
  ghost predicate Expanded(exts: seq<Symbol>, shapes: seq<ExtentShape>, prefix: seq<Fragment>,
                           parts: seq<seq<Fragment>>, cols: seq<seq<Symbol>>, names: map<string, int>)
  {
    |shapes| == |exts| && |parts| <= |exts| && |cols| == |parts| &&
    forall j :: 0 <= j < |parts| ==>
      ExtentExpanded(exts[j], shapes[j], SeparatorAt(prefix, parts, j), parts[j], cols[j], names)
  }

  /** A name registered at 0 stays so while the registry grows. */
  lemma ExpandedKept(s: Symbol, sh: ExtentShape, sep: string, part: seq<Fragment>, cols: seq<Symbol>,
                     before: map<string, int>, after: map<string, int>, added: seq<string>)
    requires ExtentExpanded(s, sh, sep, part, cols, before) && RegistryGrown(before, after, added)
    ensures ExtentExpanded(s, sh, sep, part, cols, after)
  {
  }

  lemma ExpandedSnoc(exts: seq<Symbol>, shapes: seq<ExtentShape>, prefix: seq<Fragment>, parts: seq<seq<Fragment>>,
                     cols: seq<seq<Symbol>>, before: map<string, int>, after: map<string, int>, added: seq<string>,
                     part: seq<Fragment>, c: seq<Symbol>)
    requires Expanded(exts, shapes, prefix, parts, cols, before) && |parts| < |exts|
    requires RegistryGrown(before, after, added)
    requires ExtentExpanded(exts[|parts|], shapes[|parts|], SeparatorAt(prefix, parts, |parts|), part, c, after)
    ensures Expanded(exts, shapes, prefix, parts + [part], cols + [c], after)
  {
    var parts', cols' := parts + [part], cols + [c];
    forall j | 0 <= j < |parts'|
      ensures ExtentExpanded(exts[j], shapes[j], SeparatorAt(prefix, parts', j), parts'[j], cols'[j], after)
    {
      assert parts'[..j] == parts[..j];
      if j < |parts| {
        ExpandedKept(exts[j], shapes[j], SeparatorAt(prefix, parts, j), parts[j], cols[j], before, after, added);
      }
    }
  }

  /** What AddColumns states about the columns it appended for one
      extent, taken apart as an expansion of that extent. */
  lemma ExtentExpandedBy(cs: ColumnState, next: ColumnState, s: Symbol, sh: ExtentShape,
                         before: map<string, int>, after: map<string, int>)
    requires Extends(cs, next)
    requires !s.isJoin ==>
               sh.typeUsage.Some? &&
               var props := GetProperties(sh.typeUsage.value.edmType);
               |next.columnList| == |cs.columnList| + |props| &&
               next.select == cs.select + PropertyItems(cs.separator, s, props, next.columnList[|cs.columnList|..]) &&
               after == RegisterAll(before, FoldNames(props))
    requires s.isJoin && sh.isNestedJoin ==>
               next.columnList == cs.columnList + sh.columnList &&
               next.select == cs.select + JoinColumnItems(cs.separator, s, sh.columnList)
    ensures next.select == cs.select + next.select[|cs.select|..]
    ensures next.columnList == cs.columnList + next.columnList[|cs.columnList|..]
    ensures ExtentExpanded(s, sh, cs.separator, next.select[|cs.select|..], next.columnList[|cs.columnList|..], after)
  {
    if !s.isJoin {
      RegisterAllMeans(before, FoldNames(GetProperties(sh.typeUsage.value.edmType)));
    }
  }

  /** The column state of AddDefaultColumns after |parts| extents: it
      continues `cs0`, its SELECT list is the prefix followed by the parts
      and its columns those of the parts, and the registry has only grown
      from `base`. */
  ghost predicate Expansion(prefix: seq<Fragment>, cs0: ColumnState, cs: ColumnState,
                            parts: seq<seq<Fragment>>, cols: seq<seq<Symbol>>,
                            base: map<string, int>, names: map<string, int>)
  {
    cs0.select == prefix && cs0.columnList == [] && Extends(cs0, cs) &&
    cs.select == prefix + Concat(parts) && cs.columnList == Concat(cols) &&
    RegistryGrown(base, names, cs.keys[|cs0.keys|..])
  }

  lemma ExpansionStart(prefix: seq<Fragment>, cs0: ColumnState, names: map<string, int>)
    requires cs0.select == prefix && cs0.columnList == []
    ensures Expansion(prefix, cs0, cs0, [], [], names, names)
  {
    RegistryKept(names, cs0.keys[|cs0.keys|..]);
  }

  lemma ExpansionSnoc(prefix: seq<Fragment>, cs0: ColumnState, cs: ColumnState, next: ColumnState,
                      parts: seq<seq<Fragment>>, cols: seq<seq<Symbol>>, base: map<string, int>,
                      names: map<string, int>, names': map<string, int>, part: seq<Fragment>, c: seq<Symbol>)
    requires Expansion(prefix, cs0, cs, parts, cols, base, names) && Extends(cs, next)
    requires next.select == cs.select + part && next.columnList == cs.columnList + c
    requires RegistryGrown(names, names', next.keys[|cs.keys|..])
    ensures Expansion(prefix, cs0, next, parts + [part], cols + [c], base, names')
  {
    ExtendsTrans(cs0, cs, next);
    RegistryGrownTrans(cs0, cs, next, base, names, names');
    ConcatSnoc(parts, part);
    ConcatSnoc(cols, c);
  }

  /** The separator of a column state in an expansion is the one the next
      extent's position calls for. */
  lemma ExpansionSeparator(prefix: seq<Fragment>, cs0: ColumnState, cs: ColumnState,
                           parts: seq<seq<Fragment>>, cols: seq<seq<Symbol>>,
                           base: map<string, int>, names: map<string, int>)
    requires Expansion(prefix, cs0, cs, parts, cols, base, names) && SeparatorFollows(cs)
    ensures cs.separator == SeparatorAt(prefix, parts, |parts|)
  {
    assert parts[..|parts|] == parts;
  }

  /** The i-th column is the one filed under the i-th key. */
  ghost predicate ColumnsFiled(columns: map<string, Symbol>, keys: seq<string>, cols: seq<Symbol>) {
    |keys| == |cols| && forall i :: 0 <= i < |keys| ==> keys[i] in columns && columns[keys[i]] == cols[i]
  }

  /** Every column filed before is still filed, under the same key. */
  ghost predicate KeepsColumns(before: map<string, Symbol>, after: map<string, Symbol>) {
    forall key :: key in before ==> key in after && after[key] == before[key]
  }

  lemma KeepsColumnsTrans(a: map<string, Symbol>, b: map<string, Symbol>, c: map<string, Symbol>)
    requires KeepsColumns(a, b) && KeepsColumns(b, c)
    ensures KeepsColumns(a, c)
  {
  }

  lemma ColumnsFiledGrow(m: map<string, Symbol>, m': map<string, Symbol>, keys: seq<string>, cols: seq<Symbol>,
                         key: string, c: Symbol)
    requires ColumnsFiled(m, keys, cols) && KeepsColumns(m, m') && key in m' && m'[key] == c
    ensures ColumnsFiled(m', keys + [key], cols + [c])
  {
  }

  /** Everything one round of AddPropertyColumns keeps: the progress over
      the properties, the columns filed under their names, and the columns
      filed before. */
  lemma PropertyRound(cs: ColumnState, sym: Symbol, props: seq<EdmProperty>, k: nat, added: seq<Symbol>,
                      r: ColumnState, r': ColumnState, c: Symbol,
                      original: map<string, Symbol>, before: map<string, Symbol>, after: map<string, Symbol>)
    requires k < |props| && PropertyProgress(cs, sym, props, k, added, r)
    requires ColumnsFiled(before, FoldNames(props[..k]), added) && KeepsColumns(original, before)
    requires Extends(r, r') && r'.columnList == r.columnList + [c] && r'.separator == ", "
    requires r'.select == r.select + PropertyItem(r.separator, sym, props[k].name, c)
    requires Fold(props[k].name) in after && after[Fold(props[k].name)] == c
    requires Fold(props[k].name) in before ==> after == before
    requires Fold(props[k].name) !in before ==> after == before[Fold(props[k].name) := c]
    ensures PropertyProgress(cs, sym, props, k + 1, added + [c], r')
    ensures ColumnsFiled(after, FoldNames(props[..k + 1]), added + [c]) && KeepsColumns(original, after)
  {
    PropertyColumnsGrow(cs, sym, props, k, added, c, r, r');
    assert KeepsColumns(before, after);
    ColumnsFiledGrow(before, after, FoldNames(props[..k]), added, Fold(props[k].name), c);
    FoldNamesSnoc(props, k);
    KeepsColumnsTrans(original, before, after);
  }

  /** A statement whose FROM extents each stand on a finite tree of joins. */
  ghost predicate Grounded(st: SqlSelectStatement) {
    forall s :: s in st.fromExtents ==> s.WellFounded()
  }

  /** A fragment that is a statement is grounded. */
  ghost predicate FragmentGrounded(f: Fragment) {
    f.Statement? ==> Grounded(f.st)
  }

  // ---------------------------------------------------------------------
  // SELECT * expansion

  /** The state AddColumns threads through its calls: the SELECT list so
      far, the columns added, the first column of each name (ignoring
      case), the separator to write next, and (as a ghost) the folded name
      each column was filed under. */
  datatype ColumnState = ColumnState(select: seq<Fragment>, columnList: seq<Symbol>,
                                     dictionary: map<string, Symbol>, separator: string,
                                     ghost keys: seq<string>)

  /** The dictionary AddColumns builds: under each name, the first column
      filed under it. */
  function FirstFiled(keys: seq<string>, list: seq<Symbol>): (d: map<string, Symbol>)
    requires |keys| == |list|
    ensures forall k :: k in d <==> k in keys
  {
    if |keys| == 0 then map[]
    else
      var n := |keys| - 1;
      var d := FirstFiled(keys[..n], list[..n]);
      assert forall k :: k in keys <==> k in keys[..n] || k == keys[n] by {
        assert keys == keys[..n] + [keys[n]];
      }
      if keys[n] in d then d else d[keys[n] := list[n]]
  }

  /** The dictionary's column of a name is a column filed under it. */
  lemma {:induction false} FirstFiledAt(keys: seq<string>, list: seq<Symbol>, k: string)
    requires |keys| == |list| && k in FirstFiled(keys, list)
    ensures exists i :: 0 <= i < |keys| && keys[i] == k && list[i] == FirstFiled(keys, list)[k]
  {
    var n := |keys| - 1;
    var d := FirstFiled(keys[..n], list[..n]);
    if k in d {
      FirstFiledAt(keys[..n], list[..n], k);
      var i :| 0 <= i < n && keys[..n][i] == k && list[..n][i] == d[k];
      assert keys[i] == k && list[i] == d[k];
    } else {
      assert keys[n] == k;
    }
  }

  lemma FirstFiledSnoc(keys: seq<string>, list: seq<Symbol>, k: string, c: Symbol)
    requires |keys| == |list|
    ensures FirstFiled(keys + [k], list + [c]) ==
            if k in FirstFiled(keys, list) then FirstFiled(keys, list) else FirstFiled(keys, list)[k := c]
  {
    assert (keys + [k])[..|keys|] == keys && (list + [c])[..|list|] == list;
  }

  ghost predicate DictionaryMatches(cs: ColumnState) {
    |cs.keys| == |cs.columnList| && cs.dictionary == FirstFiled(cs.keys, cs.columnList)
  }

  /** Another column of the list was filed under the same name as the
      j-th. */
  ghost predicate Collides(keys: seq<string>, j: int)
    requires 0 <= j < |keys|
  {
    exists i :: 0 <= i < |keys| && i != j && keys[i] == keys[j]
  }

  /** The columns of the list that share their name with another one. */
  ghost function Colliding(list: seq<Symbol>, keys: seq<string>): set<Symbol> {
    set j | 0 <= j < |list| && j < |keys| && Collides(keys, j) :: list[j]
  }

  /** Every symbol of the set is flagged for renaming. */
  ghost predicate AllFlagged(symbols: set<Symbol>)
    reads symbols`needsRenaming
  {
    forall c :: c in symbols ==> c.needsRenaming
  }

  /** The column list, its keys and its dictionary agree, and every column
      whose name collides with another's is flagged for renaming. */
  ghost predicate ColumnsReady(cs: ColumnState)
    reads Colliding(cs.columnList, cs.keys)`needsRenaming
  {
    DictionaryMatches(cs) && AllFlagged(Colliding(cs.columnList, cs.keys))
  }

  /** `r` continues `cs`: the SELECT list, the columns and their names only
      grow at the end. */
  ghost predicate Extends(cs: ColumnState, r: ColumnState) {
    |cs.select| <= |r.select| && r.select[..|cs.select|] == cs.select &&
    |cs.columnList| <= |r.columnList| && r.columnList[..|cs.columnList|] == cs.columnList &&
    |cs.keys| <= |r.keys| && r.keys[..|cs.keys|] == cs.keys
  }

  lemma ExtendsTrans(a: ColumnState, b: ColumnState, c: ColumnState)
    requires Extends(a, b) && Extends(b, c)
    ensures Extends(a, c)
  {
    assert c.select[..|a.select|] == c.select[..|b.select|][..|a.select|];
    assert c.columnList[..|a.columnList|] == c.columnList[..|b.columnList|][..|a.columnList|];
    assert c.keys[..|a.keys|] == c.keys[..|b.keys|][..|a.keys|];
  }

  /** Adding a column under a new name adds no collision; adding one under
      the name of the dictionary's column `d` adds at most itself and `d`. */
  lemma {:induction false} CollidingAdd(list: seq<Symbol>, keys: seq<string>, c: Symbol, key: string, d: Symbol)
    requires |list| == |keys|
    requires key !in keys || exists i :: 0 <= i < |keys| && keys[i] == key && list[i] == d
    ensures key !in keys ==> Colliding(list + [c], keys + [key]) <= Colliding(list, keys)
    ensures Colliding(list + [c], keys + [key]) <= Colliding(list, keys) + {c, d}
  {
    var l := list + [c];
    var ks := keys + [key];
    forall j | 0 <= j < |l| && j < |ks| && Collides(ks, j)
      ensures l[j] in Colliding(list, keys) + (if key in keys then {c, d} else {})
    {
      var i :| 0 <= i < |ks| && i != j && ks[i] == ks[j];
      if j < |list| {
        assert l[j] == list[j] && ks[j] == keys[j];
        if i < |list| {
          assert keys[i] == keys[j] && Collides(keys, j);
        } else if list[j] != d {
          var k :| 0 <= k < |keys| && keys[k] == key && list[k] == d;
          assert k != j && keys[k] == keys[j] && Collides(keys, j);
        }
      } else {
        assert keys[i] == key;
      }
    }
  }

  /** A new statement built over an input and the symbol of that input. */
  datatype Input = Input(statement: SqlSelectStatement, fromSymbol: Symbol)

  /** A statement whose SELECT list was expanded, and the final column
      state (its columnList is the list AddDefaultColumns returns). */
  datatype WithColumns = WithColumns(statement: SqlSelectStatement, columns: ColumnState)

  /** The FROM clause of a statement over a nested one: `( inner ) `. */
  function NestedFrom(inner: SqlSelectStatement): seq<Fragment> {
    [Text("( "), Statement(inner), Text(NewLine), Text(") ")]
  }

  /** A new statement whose FROM clause is the nested statement. */
  function NestedStatement(inner: SqlSelectStatement): SqlSelectStatement {
    NewStatement.(from := SqlBuilder(NestedFrom(inner)))
  }

  /** A visit leaves the stack of statements as long as it found it, the
      statements below the current one unchanged, and the current one
      changed only as Grown allows. */
  ghost predicate StackKept(a: seq<SqlSelectStatement>, b: seq<SqlSelectStatement>, joined: bool) {
    |a| == |b| && (|a| > 0 ==> a[..|a| - 1] == b[..|b| - 1] && Grown(a[|a| - 1], b[|b| - 1], joined))
  }

  /** b is a with the same clauses; the FROM text and extents are the same
      too, except inside a join (`joined`), where a join that reuses the
      statement appends to them. */
  ghost predicate Grown(a: SqlSelectStatement, b: SqlSelectStatement, joined: bool) {
    SameClauses(a, b) &&
    if joined then a.from.fragments <= b.from.fragments && a.fromExtents <= b.fromExtents
    else a.from == b.from && a.fromExtents == b.fromExtents
  }

  /** StackKept is transitive. */
  lemma StackKeptTrans(a: seq<SqlSelectStatement>, b: seq<SqlSelectStatement>, c: seq<SqlSelectStatement>, joined: bool)
    requires StackKept(a, b, joined) && StackKept(b, c, joined)
    ensures StackKept(a, c, joined)
  {
  }

  /** The clauses a relational node's statement starts with: those of the
      input's statement when the node is compatible with it, none when the
      node needs a new statement over the input's. */
  function StartOf(visited: SqlSelectStatement, kind: StatementKind): SqlSelectStatement {
    if Reusable(visited, kind) then visited else NewStatement
  }

  /** The sort keys' layout as the ORDER BY clause of a statement that
      had none. */
  lemma SortedOver(base: SqlSelectStatement, current: SqlSelectStatement, top: SqlSelectStatement,
                   cs: seq<SortClause>, keys: seq<Fragment>)
    requires SameClauses(base, current) && SameClauses(current, top) && current.orderBy.IsEmpty()
    requires |keys| == |cs|
    ensures var r := AppendClause(top, OrderByClause, SortLayout(cs, keys));
            r.orderBy.fragments == SortLayout(cs, keys) && SameClauses(base.(orderBy := r.orderBy), r)
  {
    assert top.orderBy.fragments == [];
  }

  /** A clause appended to a statement whose other clauses are those of
      `base`: the result is `base` with that clause replaced. */
  lemma AppendedOver(base: SqlSelectStatement, current: SqlSelectStatement, top: SqlSelectStatement,
                     c: Clause, fs: seq<Fragment>)
    requires SameClauses(base, current) && SameClauses(current, top) && c != FromClause
    ensures var r := AppendClause(top, c, fs);
            (c == SelectClause ==> SameClauses(base.(select := r.select), r)) &&
            (c == WhereClause ==> SameClauses(base.(where := r.where), r)) &&
            (c == GroupByClause ==> SameClauses(base.(groupBy := r.groupBy), r)) &&
            (c == OrderByClause ==> SameClauses(base.(orderBy := r.orderBy), r))
  {
  }

  /** What a GROUP BY over the input's statement `base` yields as `st`,
      given the texts of its keys and of its aggregates' arguments: the
      result is a collection of rows with a member for every key and
      every aggregate, each aggregate a function aggregate with an
      argument; the SELECT list holds the keys, then the aggregates,
      aliased as the row's members; the GROUP BY list holds the keys.
      There is an inner query exactly when some aggregate's argument is
      not a property of a variable: then `st` is a new statement whose one
      FROM extent is the inner query's symbol and whose FROM clause is the
      inner query, which is `base` with the keys' and the arguments' texts
      as its SELECT list, and the outer lists read the inner query's
      columns; without one, `st` is `base` with the two lists. */
  ghost predicate GroupedAs(e: Expr, base: SqlSelectStatement, st: SqlSelectStatement, keyTexts: seq<Fragment>,
                            argTexts: seq<Fragment>, inner: Option<Symbol>, innerQuery: SqlSelectStatement)
    requires e.GroupBy?
  {
    var names := GroupRowNames(e.ty);
    names.Ok? && |keyTexts| == |e.keys| && |argTexts| == |e.aggregates| && |e.keys| + |e.aggregates| <= |names.value| &&
    (forall j :: 0 <= j < |e.aggregates| ==> e.aggregates[j].FunctionAggregate? && |e.aggregates[j].arguments| > 0) &&
    (inner.Some? <==> exists j :: 0 <= j < |e.aggregates| && !IsPropertyOverVarRef(e.aggregates[j].arguments[0])) &&
    st.select.fragments ==
      ConcatItems(KeyItems(names.value, keyTexts, inner)) +
      ConcatItems(AggregateItems(names.value, |keyTexts|, e.aggregates, argTexts, inner)) &&
    st.groupBy.fragments == ConcatItems(KeyGroupItems(names.value, keyTexts, inner)) &&
    (inner.None? ==> SameClauses(base.(select := st.select, groupBy := st.groupBy), st)) &&
    (inner.Some? ==>
       st.fromExtents == [inner.value] && st.from.fragments == NestedFrom(innerQuery) &&
       SameClauses(NewStatement.(select := st.select, groupBy := st.groupBy), st) &&
       innerQuery.select.fragments ==
         ConcatItems(ColumnItems(names.value, 0, keyTexts)) + ConcatItems(ColumnItems(names.value, |keyTexts|, argTexts)) &&
       SameClauses(base.(select := innerQuery.select), innerQuery))
  }

  /** The columns of a GROUP BY: the SELECT list is the keys' items then
      the aggregates' items, one for each, each aliased as the result row's
      member at its position and opened by its separator; with an inner
      query, its SELECT list names the same members in the same order, and
      each outer key reads the inner query's column of its name. */
  lemma GroupByColumnsNamed(e: Expr, base: SqlSelectStatement, st: SqlSelectStatement, keyTexts: seq<Fragment>,
                            argTexts: seq<Fragment>, inner: Option<Symbol>, innerQuery: SqlSelectStatement)
    requires e.GroupBy? && GroupedAs(e, base, st, keyTexts, argTexts, inner, innerQuery)
    ensures var names := GroupRowNames(e.ty).value;
            var items := KeyItems(names, keyTexts, inner) + AggregateItems(names, |keyTexts|, e.aggregates, argTexts, inner);
            |items| == |e.keys| + |e.aggregates| && st.select.fragments == ConcatItems(items) &&
            AliasedInOrder(items, names, 0)
    ensures var names := GroupRowNames(e.ty).value;
            inner.Some? ==>
              var columns := ColumnItems(names, 0, keyTexts) + ColumnItems(names, |keyTexts|, argTexts);
              innerQuery.select.fragments == ConcatItems(columns) && AliasedInOrder(columns, names, 0) &&
              forall m :: 0 <= m < |e.keys| ==>
                KeyItems(names, keyTexts, inner)[m][2..5] == AliasReference(inner.value, names[m])
  {
    var names := GroupRowNames(e.ty).value;
    GroupBySelectAliased(names, keyTexts, e.aggregates, argTexts, inner);
    ConcatItemsAppend(KeyItems(names, keyTexts, inner), AggregateItems(names, |keyTexts|, e.aggregates, argTexts, inner));
    ConcatItemsAppend(ColumnItems(names, 0, keyTexts), ColumnItems(names, |keyTexts|, argTexts));
  }

  /** The statement a GROUP BY yields from its input's statement `top`
      once the keys' and the aggregates' arguments' texts are known.
      Without an inner query the SELECT and GROUP BY lists go into `top`
      itself. With one, `top` is the inner query and gets the columns,
      and `outer`, the new statement over it, gets the SELECT and GROUP BY
      lists; `outer`'s FROM clause holds the inner query as it is once
      complete, since the generator shares one statement object between
      the two. */
  method GroupedStatement(e: Expr, top: SqlSelectStatement, outer: SqlSelectStatement,
                          keyTexts: seq<Fragment>, argTexts: seq<Fragment>, inner: Option<Symbol>)
    returns (st: SqlSelectStatement, innerQuery: SqlSelectStatement)
    requires e.GroupBy? && GroupRowNames(e.ty).Ok?
    requires |keyTexts| == |e.keys| && |argTexts| == |e.aggregates| &&
             |e.keys| + |e.aggregates| <= |GroupRowNames(e.ty).value|
    requires forall j :: 0 <= j < |e.aggregates| ==>
               e.aggregates[j].FunctionAggregate? && |e.aggregates[j].arguments| > 0
    requires inner.Some? <==>
               exists j :: 0 <= j < |e.aggregates| && !IsPropertyOverVarRef(e.aggregates[j].arguments[0])
    requires top.select.IsEmpty() && top.groupBy.IsEmpty()
    requires inner.Some? ==> SameClauses(NewStatement, outer) && outer.fromExtents == [inner.value]
    ensures GroupedAs(e, top, st, keyTexts, argTexts, inner, innerQuery)
    ensures st.fromExtents == if inner.None? then top.fromExtents else [inner.value]
  {
    var names := GroupRowNames(e.ty).value;
    var sel := ConcatItems(KeyItems(names, keyTexts, inner)) +
               ConcatItems(AggregateItems(names, |keyTexts|, e.aggregates, argTexts, inner));
    var grp := ConcatItems(KeyGroupItems(names, keyTexts, inner));
    innerQuery := top;
    var base := top;
    if inner.Some? {
      innerQuery := AppendClause(top, SelectClause,
                                 ConcatItems(ColumnItems(names, 0, keyTexts)) +
                                 ConcatItems(ColumnItems(names, |keyTexts|, argTexts)));
      base := outer.(from := SqlBuilder(NestedFrom(innerQuery)));
    }
    st := AppendClause(AppendClause(base, SelectClause, sel), GroupByClause, grp);
  }

  /** GroupedAs depends on its base statement only through the clauses
      SameClauses compares. */
  lemma GroupedAsBase(e: Expr, a: SqlSelectStatement, b: SqlSelectStatement, st: SqlSelectStatement,
                      keyTexts: seq<Fragment>, argTexts: seq<Fragment>, inner: Option<Symbol>,
                      innerQuery: SqlSelectStatement)
    requires e.GroupBy? && SameClauses(a, b) && GroupedAs(e, b, st, keyTexts, argTexts, inner, innerQuery)
    ensures GroupedAs(e, a, st, keyTexts, argTexts, inner, innerQuery)
  {
  }

  // ---------------------------------------------------------------------
  // Joins

  /** The statement a join that is not itself inside a join starts. */
  function JoinStatement(): SqlSelectStatement {
    NewStatement.(allJoinExtents := Some([]))
  }

  /** Segments one after another: the parts of a FROM text, or of a
      SELECT * expansion. */
  function Concat<T>(ss: seq<seq<T>>): seq<T> {
    if |ss| == 0 then [] else Concat(ss[..|ss| - 1]) + ss[|ss| - 1]
  }

  lemma ConcatSnoc<T>(ss: seq<seq<T>>, s: seq<T>)
    ensures Concat(ss + [s]) == Concat(ss) + s
  {
    assert (ss + [s])[..|ss|] == ss;
  }

  /** Where the i-th segment starts in the concatenated text. */
  function Offset(ss: seq<seq<Fragment>>, i: nat): nat
    requires i <= |ss|
  {
    |Concat(ss[..i])|
  }

  /** Each segment sits in the concatenated text at its offset. */
  lemma {:induction false} ConcatAt(ss: seq<seq<Fragment>>, i: nat)
    requires i < |ss|
    ensures Offset(ss, i) + |ss[i]| <= |Concat(ss)|
    ensures Concat(ss)[Offset(ss, i)..Offset(ss, i) + |ss[i]|] == ss[i]
    decreases |ss|
  {
    var n := |ss| - 1;
    assert ss[..n + 1] == ss;
    if i < n {
      ConcatAt(ss[..n], i);
      assert ss[..n][..i] == ss[..i];
      assert Concat(ss) == Concat(ss[..n]) + ss[n];
    } else {
      assert Concat(ss) == Concat(ss[..i]) + ss[i];
    }
  }

  /** The i-th segment of a join's FROM text starts with its separator;
      for an input that brings its own FROM item it continues with that
      item's text, and a reused leftmost join is represented by a join
      symbol. */
  ghost predicate InputLaid(inputs: seq<Binding>, i: nat, joinString: string, f: Fragment,
                            seg: seq<Fragment>, sym: Symbol)
    requires i < |inputs|
  {
    var sep := JoinSeparator(i, joinString);
    |sep| <= |seg| && seg[..|sep|] == sep && sym.name == inputs[i].variableName &&
    (ReusesJoin(i, inputs[i].expression) ==> sym.isJoin) &&
    (!ReusesJoin(i, inputs[i].expression) ==> JoinInputLaid(inputs[i].expression, f, seg[|sep|..]))
  }

  /** The first |segments| inputs of a join are laid out. */
  ghost predicate JoinLaid(inputs: seq<Binding>, joinString: string, frags: seq<Fragment>,
                           segments: seq<seq<Fragment>>, syms: seq<Symbol>)
  {
    |frags| == |segments| == |syms| <= |inputs| &&
    forall i :: 0 <= i < |segments| ==> InputLaid(inputs, i, joinString, frags[i], segments[i], syms[i])
  }

  /** The statement a join leaves: the clauses of the statement it
      started from, its FROM text followed by each input's segment and
      the ON condition, its FROM extents followed by one symbol per
      input. */
  ghost predicate JoinedAs(base: SqlSelectStatement, st: SqlSelectStatement, inputs: seq<Binding>, joinString: string,
                           frags: seq<Fragment>, segments: seq<seq<Fragment>>, syms: seq<Symbol>,
                           condText: Option<Fragment>)
  {
    |segments| == |inputs| && JoinLaid(inputs, joinString, frags, segments, syms) &&
    SameClauses(base, st) && st.from.fragments == base.from.fragments + Concat(segments) + OnClause(condText) &&
    st.fromExtents == base.fromExtents + syms
  }

  /** The statement after a join's first |segments| inputs: the clauses
      of the one it started from, its FROM text followed by the inputs'
      segments, its FROM extents by their symbols. */
  ghost predicate JoinedInputs(t0: SqlSelectStatement, t: SqlSelectStatement, inputs: seq<Binding>, joinString: string,
                               frags: seq<Fragment>, segments: seq<seq<Fragment>>, syms: seq<Symbol>)
  {
    JoinLaid(inputs, joinString, frags, segments, syms) &&
    SameClauses(t0, t) && t.from.fragments == t0.from.fragments + Concat(segments) &&
    t.fromExtents == t0.fromExtents + syms
  }

  /** One more input laid out after the first i. */
  lemma JoinedInputsSnoc(t0: SqlSelectStatement, t: SqlSelectStatement, t': SqlSelectStatement,
                         inputs: seq<Binding>, i: nat, joinString: string, frags: seq<Fragment>,
                         segments: seq<seq<Fragment>>, syms: seq<Symbol>, f: Fragment, seg: seq<Fragment>, sym: Symbol)
    requires i < |inputs| && |segments| == i && JoinedInputs(t0, t, inputs, joinString, frags, segments, syms)
    requires SameClauses(t, t') && t'.fromExtents == t.fromExtents + [sym] &&
             t'.from.fragments == t.from.fragments + seg && InputLaid(inputs, i, joinString, f, seg, sym)
    ensures JoinedInputs(t0, t', inputs, joinString, frags + [f], segments + [seg], syms + [sym])
  {
    var ss := segments + [seg];
    assert ss[..i] == segments;
    assert Concat(ss) == Concat(segments) + seg;
    forall k | 0 <= k < i + 1
      ensures InputLaid(inputs, k, joinString, (frags + [f])[k], ss[k], (syms + [sym])[k])
    {
      if k < i {
        assert InputLaid(inputs, k, joinString, frags[k], segments[k], syms[k]);
      }
    }
  }

  /** A join's statement after its inputs and its ON condition. */
  lemma JoinClosed(base: SqlSelectStatement, t1: SqlSelectStatement, st: SqlSelectStatement, inputs: seq<Binding>,
                   joinString: string, frags: seq<Fragment>, segments: seq<seq<Fragment>>, syms: seq<Symbol>,
                   condText: Option<Fragment>)
    requires |segments| == |inputs| && JoinedInputs(base, t1, inputs, joinString, frags, segments, syms)
    requires condText.None? ==> st == t1
    requires condText.Some? ==> SameClauses(t1, st) && st.fromExtents == t1.fromExtents &&
                                st.from.fragments == t1.from.fragments + [Text(" ON "), condText.value]
    ensures JoinedAs(base, st, inputs, joinString, frags, segments, syms, condText)
    ensures Grown(base, st, true)
  {
  }

  /** A stack whose current statement only grew is kept inside a join. */
  lemma StackKeptJoined(a: seq<SqlSelectStatement>, b: seq<SqlSelectStatement>)
    requires |a| == |b| > 0 && a[..|a| - 1] == b[..|b| - 1] && Grown(a[|a| - 1], b[|b| - 1], true)
    ensures StackKept(a, b, true)
  {
  }

  /** The i-th input of a laid-out join. */
  lemma InputLaidAt(inputs: seq<Binding>, joinString: string, frags: seq<Fragment>,
                    segments: seq<seq<Fragment>>, syms: seq<Symbol>, i: nat)
    requires JoinLaid(inputs, joinString, frags, segments, syms) && i < |segments|
    ensures InputLaid(inputs, i, joinString, frags[i], segments[i], syms[i])
  {
  }

  /** A piece at the start of a slice of the middle part of a text sits
      in the text at the same place after the first part. */
  lemma SliceWithin(all: seq<Fragment>, prefix: seq<Fragment>, text: seq<Fragment>, suffix: seq<Fragment>,
                    o: nat, seg: seq<Fragment>, piece: seq<Fragment>)
    requires all == prefix + text + suffix && o + |seg| <= |text| && text[o..o + |seg|] == seg
    requires |piece| <= |seg| && seg[..|piece|] == piece
    ensures |prefix| + o + |piece| <= |all| && all[|prefix| + o..|prefix| + o + |piece|] == piece
  {
    var at := |prefix| + o;
    forall k | 0 <= k < |piece|
      ensures all[at + k] == piece[k]
    {
      assert all[at + k] == text[o + k];
      assert text[o..o + |seg|][k] == seg[k];
    }
  }

  /** In the statement a join leaves, the i-th input's text starts at its
      offset after the FROM text it started from, with the input's
      separator, and the i-th new FROM extent is named after the input's
      variable. */
  lemma JoinInputsInOrder(base: SqlSelectStatement, st: SqlSelectStatement, inputs: seq<Binding>, joinString: string,
                          frags: seq<Fragment>, segments: seq<seq<Fragment>>, syms: seq<Symbol>,
                          condText: Option<Fragment>, i: nat)
    requires JoinedAs(base, st, inputs, joinString, frags, segments, syms, condText) && i < |inputs|
    ensures var at := |base.from.fragments| + Offset(segments, i);
            var sep := JoinSeparator(i, joinString);
            at + |sep| <= |st.from.fragments| && st.from.fragments[at..at + |sep|] == sep
    ensures |base.fromExtents| + i < |st.fromExtents| &&
            st.fromExtents[|base.fromExtents| + i].name == inputs[i].variableName
  {
    ConcatAt(segments, i);
    InputLaidAt(inputs, joinString, frags, segments, syms, i);
    SliceWithin(st.from.fragments, base.from.fragments, Concat(segments), OnClause(condText),
                Offset(segments, i), segments[i], JoinSeparator(i, joinString));
  }

  /** One join input's segment of the FROM text: its separator, what a
      reused leftmost join appended, and the FROM item of any other
      input. */
  lemma JoinInputLaidOut(inputs: seq<Binding>, i: nat, joinString: string, t: SqlSelectStatement,
                         t1: SqlSelectStatement, t2: SqlSelectStatement, t3: SqlSelectStatement,
                         f: Fragment, body: seq<Fragment>, sym: Symbol, start: nat)
    requires i < |inputs|
    requires t1 == t.(from := SqlBuilder(t.from.fragments + JoinSeparator(i, joinString)))
    requires Grown(t1, t2, true) && start == |t1.fromExtents|
    requires !ReusesJoin(i, inputs[i].expression) ==> t2 == t1 || Grown(t1, t2, false)
    requires SameClauses(t2, t3) && t3.fromExtents == t2.fromExtents[..start] + [sym] &&
             t3.from.fragments == t2.from.fragments + body
    requires sym.name == inputs[i].variableName
    requires ReusesJoin(i, inputs[i].expression) ==> body == [] && sym.isJoin
    requires !ReusesJoin(i, inputs[i].expression) ==> JoinInputLaid(inputs[i].expression, f, body)
    ensures var seg := JoinSeparator(i, joinString) + t2.from.fragments[|t1.from.fragments|..] + body;
            SameClauses(t, t3) && t3.fromExtents == t.fromExtents + [sym] &&
            t3.from.fragments == t.from.fragments + seg && InputLaid(inputs, i, joinString, f, seg, sym)
  {
    var sep := JoinSeparator(i, joinString);
    var grown := t2.from.fragments[|t1.from.fragments|..];
    assert t2.from.fragments == t1.from.fragments + grown;
    assert t2.fromExtents[..start] == t1.fromExtents;
    var seg := sep + grown + body;
    assert seg[..|sep|] == sep;
    if !ReusesJoin(i, inputs[i].expression) {
      assert grown == [];
      assert seg[|sep|..] == body;
    }
  }

  /** Replacing the current statement by a grounded one grown from it
      keeps the stack grounded and StackKept. */
  lemma TopReplaced(stack: seq<SqlSelectStatement>, t: SqlSelectStatement, joined: bool)
    requires |stack| > 0 && (forall i :: 0 <= i < |stack| ==> Grounded(stack[i]))
    requires Grounded(t) && Grown(stack[|stack| - 1], t, joined)
    ensures var next := stack[..|stack| - 1] + [t];
            StackKept(stack, next, joined) && (forall i :: 0 <= i < |next| ==> Grounded(next[i]))
  {
    var next := stack[..|stack| - 1] + [t];
    assert next[..|next| - 1] == stack[..|stack| - 1];
  }

  // ---------------------------------------------------------------------
  // OR to IN, given the texts of the visits

  /** The texts the IN rewrite produced for one group: the key's, the
      non-null values', and the operand of the null test when the group has
      one. */
  datatype GroupTexts = GroupTexts(keyText: Fragment, valueTexts: seq<Fragment>, nullOperand: Option<Fragment>)

  /** One text per non-null value, and a null test operand exactly when the
      group holds a null test. */
  predicate FitsGroup(g: InGroup, t: GroupTexts) {
    |t.valueTexts| == |NonNullValues(g.values)| && (t.nullOperand.Some? <==> FirstNullTest(g.values).Some?)
  }

  /** The values' texts, each in parentheses when its value is complex. */
  function ValueLayouts(values: seq<Expr>, texts: seq<Fragment>): (r: seq<seq<Fragment>>)
    requires |values| == |texts|
    ensures |r| == |values|
    ensures forall i :: 0 <= i < |r| ==> r[i] == Parenthesized(values[i], texts[i])
  {
    seq(|values|, i requires 0 <= i < |values| => Parenthesized(values[i], texts[i]))
  }

  /** The text of one group: `key = v`, `key IN (v1,v2,...)`, then the
      null test when there is one. */
  function GroupLayout(g: InGroup, t: GroupTexts): seq<Fragment>
    requires FitsGroup(g, t)
  {
    InGroupLayout(g.key, t.keyText, ValueLayouts(NonNullValues(g.values), t.valueTexts),
                  if t.nullOperand.Some? then Some(Builder(SqlBuilder(IsNullLayout(t.nullOperand.value, false)))) else None)
  }

  ghost predicate AllFit(groups: seq<InGroup>, ts: seq<GroupTexts>) {
    |groups| == |ts| &&
    (|groups| > 0 ==> AllFit(groups[..|groups| - 1], ts[..|ts| - 1]) && FitsGroup(groups[|groups| - 1], ts[|ts| - 1]))
  }

  /** TryTranslateIntoIn: the groups' texts, joined by OR. */
  function InLayout(groups: seq<InGroup>, ts: seq<GroupTexts>): seq<Fragment>
    requires AllFit(groups, ts)
  {
    if |groups| == 0 then []
    else
      var n := |groups| - 1;
      InLayout(groups[..n], ts[..n]) + (if n == 0 then [] else [Text(" OR ")]) + GroupLayout(groups[n], ts[n])
  }

  /** One more group's texts extend the layout by OR and that group's
      layout. */
  lemma InLayoutGrow(groups: seq<InGroup>, ts: seq<GroupTexts>, k: nat, t: GroupTexts)
    requires k < |groups| && AllFit(groups[..k], ts) && FitsGroup(groups[k], t)
    ensures AllFit(groups[..k + 1], ts + [t])
    ensures InLayout(groups[..k + 1], ts + [t]) ==
            InLayout(groups[..k], ts) + (if k == 0 then [] else [Text(" OR ")]) + GroupLayout(groups[k], t)
  {
    assert groups[..k + 1][..k] == groups[..k];
    assert (ts + [t])[..k] == ts;
  }

  /** The group's key and values are smaller than `bound`. */
  ghost predicate GroupBelow(g: InGroup, bound: nat) {
    Size(g.key) < bound && forall v :: v in g.values ==> Size(v) < bound
  }

  /** Every key and value of the groups is smaller than `bound`. */
  ghost predicate GroupsBelow(groups: seq<InGroup>, bound: nat) {
    forall i :: 0 <= i < |groups| ==> GroupBelow(groups[i], bound)
  }

  lemma {:induction false} AddToGroupsBelow(groups: seq<InGroup>, key: Expr, value: Expr, bound: nat)
    requires GroupsBelow(groups, bound) && Size(key) < bound && Size(value) < bound
    ensures GroupsBelow(AddToGroups(groups, key, value), bound)
    decreases |groups|
  {
    if |groups| > 0 && !KeyEquals(groups[0].key, key) {
      AddToGroupsBelow(groups[1..], key, value, bound);
    }
  }

  /** The map built from an expression holds only the expression's parts. */
  lemma {:induction false} BuildInMapBelow(e: Expr, groups: seq<InGroup>, bound: nat)
    requires GroupsBelow(groups, bound) && Size(e) < bound
    ensures BuildInMap(e, groups).Some? ==> GroupsBelow(BuildInMap(e, groups).value, bound)
    decreases e
  {
    if IsEqualsNode(e) {
      AddToGroupsBelow(groups, e.left, e.right, bound);
      AddToGroupsBelow(groups, e.right, e.left, bound);
    } else if IsNullNode(e) {
      AddToGroupsBelow(groups, e.argument, e, bound);
    } else if IsOrNode(e) {
      BuildInMapBelow(e.left, groups, bound);
      var l := BuildInMap(e.left, groups);
      if l.Some? {
        BuildInMapBelow(e.right, l.value, bound);
      }
    }
  }

  // ---------------------------------------------------------------------
  // Rows

  /** The first argument of a row constructor that cannot be written: one
      that is itself a row, or one past the row's members. */
  function FirstRejected(args: seq<Expr>, members: nat, from: nat): (k: nat)
    requires from <= |args|
    ensures from <= k <= |args|
    ensures forall i :: from <= i < k ==> !IsRowType(args[i].ty)
    ensures k == from || k <= members
    ensures k < |args| ==> IsRowType(args[k].ty) || k >= members
    decreases |args| - from
  {
    if from == |args| || IsRowType(args[from].ty) || from >= members then from
    else FirstRejected(args, members, from + 1)
  }

  class SqlGenerator {
    /** The statements being built; the current one is the last. */
    var statementStack: seq<SqlSelectStatement>
    /** Whether the node being visited is an input of a join; the current
        flag is the last. */
    var parentJoinStack: seq<bool>
    /** AllExtentNames and AllColumnNames. */
    const extentNames: NameRegistry
    const columnNames: NameRegistry
    const symbolTable: SymbolTable
    var isVarRefSingle: bool
    /** The names of the columns read by property accesses, in the order
        first read (a set of strings). */
    var columns: seq<string>

    /** Every statement on the stack is grounded. */
    ghost predicate Valid()
      reads this
    {
      forall i :: 0 <= i < |statementStack| ==> Grounded(statementStack[i])
    }

    /** A visit that succeeds leaves both stacks and the symbol table as it
        found them, except for what it may add to the current statement
        (see StackKept). */
    twostate predicate Restored()
      reads this, symbolTable
    {
      StackKept(old(statementStack), statementStack, IsParentAJoin()) && parentJoinStack == old(parentJoinStack) &&
      symbolTable.scopes == old(symbolTable.scopes)
    }

    /** IsParentAJoin: the current flag, false when there is none. */
    function IsParentAJoin(): bool
      reads this
    {
      |parentJoinStack| != 0 && parentJoinStack[|parentJoinStack| - 1]
    }

    constructor ()
      ensures Valid() && fresh(symbolTable) && fresh(extentNames) && fresh(columnNames)
      ensures statementStack == [] && parentJoinStack == [] && symbolTable.scopes == []
      ensures extentNames.names == map[] && columnNames.names == map[] && !isVarRefSingle && columns == []
    {
      statementStack := [];
      parentJoinStack := [];
      extentNames := new NameRegistry();
      columnNames := new NameRegistry();
      symbolTable := new SymbolTable();
      isVarRefSingle := false;
      columns := [];
    }

    // -------------------------------------------------------------------
    // FROM extents and SELECT * expansion

    /** AddFromSymbol: the symbol joins the FROM extents unless it already
        heads them (a reused statement), is then registered as an extent
        name, and is bound to the variable when asked. */
    method AddFromSymbol(st: SqlSelectStatement, name: string, sym: Symbol, addToTable: bool)
      returns (r: SqlSelectStatement)
      requires Grounded(st) && sym.WellFounded()
      requires addToTable ==> |symbolTable.scopes| > 0
      modifies extentNames, symbolTable
      ensures Grounded(r)
      ensures |st.fromExtents| == 0 || sym != st.fromExtents[0] ==>
                r == st.(fromExtents := st.fromExtents + [sym]) &&
                extentNames.names == old(extentNames.names)[Fold(sym.name) := 0]
      ensures |st.fromExtents| > 0 && sym == st.fromExtents[0] ==>
                r == st && extentNames.names == old(extentNames.names)
      ensures addToTable ==>
                var n := |old(symbolTable.scopes)| - 1;
                symbolTable.scopes == old(symbolTable.scopes)[..n] + [old(symbolTable.scopes)[n][Fold(name) := sym]]
      ensures !addToTable ==> symbolTable.scopes == old(symbolTable.scopes)
    {
      r := st;
      if |st.fromExtents| == 0 || sym != st.fromExtents[0] {
        r := st.(fromExtents := st.fromExtents + [sym]);
        extentNames.Set(sym.name, 0);
      }
      if addToTable {
        var o := symbolTable.Add(name, sym);
      }
    }

    /** The extent's column of a name: the one filed under it, or a new
        column filed under it; the name is registered as a column name. */
    method ColumnOf(sym: Symbol, name: string) returns (col: Symbol)
      modifies columnNames, sym`columns
      ensures columnNames.names == old(columnNames.names)[Fold(name) := 0]
      ensures Fold(name) in sym.columns && col == sym.columns[Fold(name)]
      ensures Fold(name) in old(sym.columns) ==> sym.columns == old(sym.columns)
      ensures Fold(name) !in old(sym.columns) ==>
                sym.columns == old(sym.columns)[Fold(name) := col] && fresh(col) && col.name == name
    {
      columnNames.Set(name, 0);
      var key := Fold(name);
      if key in sym.columns {
        col := sym.columns[key];
      } else {
        col := new Symbol(name, None);
        sym.columns := sym.columns[key := col];
      }
    }

    /** Files a column under `key`: a collision with the column already
        filed there flags both, otherwise the column is filed. */
    method FileColumn(cs: ColumnState, col: Symbol, key: string) returns (dictionary: map<string, Symbol>)
      requires ColumnsReady(cs)
      modifies (iset s: Symbol {:trigger s.name} | true)`needsRenaming
      ensures ColumnsReady(ColumnState(cs.select, cs.columnList + [col], dictionary, cs.separator, cs.keys + [key]))
      ensures key in cs.dictionary ==> dictionary == cs.dictionary && col.needsRenaming && cs.dictionary[key].needsRenaming
      ensures key !in cs.dictionary ==> dictionary == cs.dictionary[key := col]
    {
      dictionary := cs.dictionary;
      FirstFiledSnoc(cs.keys, cs.columnList, key, col);
      if key in dictionary {
        var d := dictionary[key];
        FirstFiledAt(cs.keys, cs.columnList, key);
        label Before:
        d.needsRenaming := true;
        col.needsRenaming := true;
        assert AllFlagged(Colliding(cs.columnList, cs.keys)) by {
          assert old@Before(AllFlagged(Colliding(cs.columnList, cs.keys)));
        }
        CollidingAdd(cs.columnList, cs.keys, col, key, d);
      } else {
        dictionary := dictionary[key := col];
        CollidingAdd(cs.columnList, cs.keys, col, key, col);
      }
    }

    /** AddColumns for one property of an extent: the extent's column of
        that name (created when missing) is written `extent.name AS column`,
        the name is registered, and a collision with an earlier column of
        the same name flags both. */
    method AddPropertyColumn(cs: ColumnState, sym: Symbol, name: string) returns (r: ColumnState)
      requires ColumnsReady(cs)
      modifies columnNames, sym`columns, (iset s: Symbol {:trigger s.name} | true)`needsRenaming
      ensures ColumnsReady(r) && Extends(cs, r)
      ensures Fold(name) in sym.columns
      ensures r.columnList == cs.columnList + [sym.columns[Fold(name)]] && r.keys == cs.keys + [Fold(name)]
      ensures r.select == cs.select + PropertyItem(cs.separator, sym, name, sym.columns[Fold(name)])
      ensures r.separator == ", "
      ensures Fold(name) in old(sym.columns) ==> sym.columns == old(sym.columns)
      ensures Fold(name) !in old(sym.columns) ==>
                sym.columns == old(sym.columns)[Fold(name) := sym.columns[Fold(name)]] &&
                fresh(sym.columns[Fold(name)]) && sym.columns[Fold(name)].name == name
      ensures Fold(name) in cs.dictionary ==>
                sym.columns[Fold(name)].needsRenaming && cs.dictionary[Fold(name)].needsRenaming
      ensures columnNames.names == old(columnNames.names)[Fold(name) := 0]
    {
      var col := ColumnOf(sym, name);
      var dictionary := FileColumn(cs, col, Fold(name));
      r := ColumnState(cs.select + PropertyItem(cs.separator, sym, name, col), cs.columnList + [col],
                       dictionary, ", ", cs.keys + [Fold(name)]);
    }

    /** One round of AddPropertyColumns: the column of the k-th property is
        added after those of the first k. */
    method AddPropertyColumnAt(cs: ColumnState, sym: Symbol, props: seq<EdmProperty>, k: nat,
                               ghost added: seq<Symbol>, r: ColumnState, ghost original: map<string, Symbol>,
                               ghost names: map<string, int>)
      returns (r': ColumnState, c: Symbol)
      requires k < |props| && ColumnsReady(r)
      requires PropertyLoop(cs, sym, props, k, added, r, original, sym.columns, names, columnNames.names) == true
      modifies columnNames, sym`columns, (iset s: Symbol {:trigger s.name} | true)`needsRenaming
      ensures ColumnsReady(r')
      ensures PropertyLoop(cs, sym, props, k + 1, added + [c], r', original, sym.columns, names, columnNames.names) == true
    {
      ghost var before := sym.columns;
      ghost var registered := columnNames.names;
      r' := AddPropertyColumn(r, sym, props[k].name);
      c := sym.columns[Fold(props[k].name)];
      PropertyRound(cs, sym, props, k, added, r, r', c, original, before, sym.columns);
      RegistrationNext(cs, props, k, r, r', names, registered, columnNames.names);
    }

    /** The loop of AddPropertyColumns, one round per property. Its
        invariant is compared with `true` so that it is checked as one
        fact rather than conjunct by conjunct. */
    method PropertyColumnsLoop(cs: ColumnState, sym: Symbol, props: seq<EdmProperty>)
      returns (r: ColumnState, ghost added: seq<Symbol>)
      requires ColumnsReady(cs)
      modifies columnNames, sym`columns, (iset s: Symbol {:trigger s.name} | true)`needsRenaming
      ensures ColumnsReady(r)
      ensures PropertyLoop(cs, sym, props, |props|, added, r, old(sym.columns), sym.columns,
                           old(columnNames.names), columnNames.names) == true
    {
      r := cs;
      added := [];
      var k := 0;
      PropertyLoopStart(cs, sym, props, old(sym.columns), old(columnNames.names));
      while k < |props|
        invariant k <= |props| && ColumnsReady(r)
        invariant PropertyLoop(cs, sym, props, k, added, r, old(sym.columns), sym.columns,
                               old(columnNames.names), columnNames.names) == true
      {
        ghost var c;
        r, c := AddPropertyColumnAt(cs, sym, props, k, added, r, old(sym.columns), old(columnNames.names));
        added := added + [c];
        k := k + 1;
      }
    }

    /** AddColumns for an extent: each property in order becomes a column
        `extent.name AS column`, the extent's column of that name. */
    method AddPropertyColumns(cs: ColumnState, sym: Symbol, props: seq<EdmProperty>) returns (r: ColumnState)
      requires ColumnsReady(cs)
      modifies columnNames, sym`columns, (iset s: Symbol {:trigger s.name} | true)`needsRenaming
      ensures ColumnsReady(r) && Extends(cs, r)
      ensures |r.columnList| == |cs.columnList| + |props|
      ensures r.select == cs.select + PropertyItems(cs.separator, sym, props, r.columnList[|cs.columnList|..])
      ensures ColumnsFiled(sym.columns, FoldNames(props), r.columnList[|cs.columnList|..])
      ensures KeepsColumns(old(sym.columns), sym.columns)
      ensures r.separator == if |props| == 0 then cs.separator else ", "
      ensures r.keys == cs.keys + FoldNames(props)
      ensures columnNames.names == RegisterAll(old(columnNames.names), FoldNames(props))
    {
      ghost var added;
      r, added := PropertyColumnsLoop(cs, sym, props);
      PropertyLoopDone(cs, sym, props, added, r, old(sym.columns), sym.columns, old(columnNames.names), columnNames.names);
    }

    /** AddColumns for one column of a nested join: `join.column`, with
        collisions flagged. */
    method AddJoinColumn(cs: ColumnState, sym: Symbol, c: Symbol) returns (r: ColumnState)
      requires ColumnsReady(cs)
      modifies (iset s: Symbol {:trigger s.name} | true)`needsRenaming
      ensures ColumnsReady(r) && Extends(cs, r)
      ensures r.columnList == cs.columnList + [c] && r.keys == cs.keys + [Fold(c.name)]
      ensures r.select == cs.select + JoinColumnItem(cs.separator, sym, c) && r.separator == ", "
      ensures Fold(c.name) in cs.dictionary ==> c.needsRenaming && cs.dictionary[Fold(c.name)].needsRenaming
    {
      var dictionary := FileColumn(cs, c, Fold(c.name));
      r := ColumnState(cs.select + JoinColumnItem(cs.separator, sym, c), cs.columnList + [c],
                       dictionary, ", ", cs.keys + [Fold(c.name)]);
    }

    /** One round of AddNestedJoinColumns: the k-th column of the join is
        added after the first k. */
    method AddNestedJoinColumnAt(cs: ColumnState, sym: Symbol, cols: seq<Symbol>, k: nat, r: ColumnState)
      returns (r': ColumnState)
      requires k < |cols| && ColumnsReady(r)
      requires r.columnList == cs.columnList + cols[..k]
      requires r.select == cs.select + JoinColumnItems(cs.separator, sym, cols[..k])
      requires r.separator == if k == 0 then cs.separator else ", "
      modifies (iset s: Symbol {:trigger s.name} | true)`needsRenaming
      ensures ColumnsReady(r') && Extends(r, r')
      ensures r'.columnList == cs.columnList + cols[..k + 1]
      ensures r'.select == cs.select + JoinColumnItems(cs.separator, sym, cols[..k + 1])
      ensures r'.separator == ", "
    {
      r' := AddJoinColumn(r, sym, cols[k]);
      JoinColumnsGrow(cs, sym, cols, k, r, r');
    }

    /** AddColumns for a nested join: its column list, each written
        `join.column`. */
    method AddNestedJoinColumns(cs: ColumnState, sym: Symbol) returns (r: ColumnState)
      requires ColumnsReady(cs)
      modifies (iset s: Symbol {:trigger s.name} | true)`needsRenaming
      ensures ColumnsReady(r) && Extends(cs, r)
      ensures r.columnList == cs.columnList + sym.columnList
      ensures r.select == cs.select + JoinColumnItems(cs.separator, sym, sym.columnList)
      ensures r.separator == if |sym.columnList| == 0 then cs.separator else ", "
    {
      var cols := sym.columnList;
      r := cs;
      var k := 0;
      while k < |cols|
        invariant 0 <= k <= |cols|
        invariant ColumnsReady(r) && Extends(cs, r)
        invariant r.columnList == cs.columnList + cols[..k]
        invariant r.select == cs.select + JoinColumnItems(cs.separator, sym, cols[..k])
        invariant r.separator == if k == 0 then cs.separator else ", "
      {
        ghost var before := r;
        r := AddNestedJoinColumnAt(cs, sym, cols, k, r);
        ExtendsTrans(cs, before, r);
        k := k + 1;
      }
      assert cols[..k] == cols;
    }

    /** AddColumns for a join that is not nested: the columns of each extent
        that is not of a primitive type, in order. */
    method AddExtentColumns(cs: ColumnState, sym: Symbol) returns (r: Result<ColumnState>)
      requires sym.WellFounded() && ColumnsReady(cs)
      modifies columnNames, (iset s: Symbol {:trigger s.name} | true)`needsRenaming,
               (iset s: Symbol {:trigger s.name} | true)`columns
      ensures r.Ok? ==> ColumnsReady(r.value) && Extends(cs, r.value)
      ensures r.Ok? ==> RegistryGrown(old(columnNames.names), columnNames.names, r.value.keys[|cs.keys|..])
      ensures r.Ok? && SeparatorFollows(cs) ==> SeparatorFollows(r.value)
      ensures r.Fail? ==> r.error == NullReference
      decreases sym.rank, 0
    {
      var extents := sym.extentList;
      var acc := cs;
      var k := 0;
      RegistryKept(columnNames.names, acc.keys[|cs.keys|..]);
      while k < |extents|
        invariant 0 <= k <= |extents|
        invariant ColumnsReady(acc) && Extends(cs, acc)
        invariant RegistryGrown(old(columnNames.names), columnNames.names, acc.keys[|cs.keys|..])
        invariant SeparatorFollows(cs) ==> SeparatorFollows(acc)
      {
        var e := extents[k];
        if e.typeUsage.None? {
          return Fail(NullReference);
        }
        if !IsPrimitiveType(e.typeUsage.value) {
          ghost var registered := columnNames.names;
          var next := AddColumns(acc, e);
          if next.Fail? {
            return next;
          }
          ExtendsTrans(cs, acc, next.value);
          RegistryGrownTrans(cs, acc, next.value, old(columnNames.names), registered, columnNames.names);
          acc := next.value;
        }
        k := k + 1;
      }
      r := Ok(acc);
    }

    /** AddColumns: the columns of an extent's properties, of a nested
        join's column list, or of a join's extents taken one by one. The
        type of an extent, when asked for, must be known. */
    method AddColumns(cs: ColumnState, sym: Symbol) returns (r: Result<ColumnState>)
      requires sym.WellFounded() && ColumnsReady(cs)
      modifies columnNames, (iset s: Symbol {:trigger s.name} | true)`needsRenaming,
               (iset s: Symbol {:trigger s.name} | true)`columns
      ensures r.Ok? ==> ColumnsReady(r.value) && Extends(cs, r.value)
      ensures r.Ok? ==> RegistryGrown(old(columnNames.names), columnNames.names, r.value.keys[|cs.keys|..])
      ensures r.Ok? && SeparatorFollows(cs) ==> SeparatorFollows(r.value)
      ensures r.Fail? ==> r.error == NullReference
      ensures !sym.isJoin ==> (r.Fail? <==> sym.typeUsage.None?)
      ensures !sym.isJoin && r.Ok? ==>
                var props := GetProperties(sym.typeUsage.value.edmType);
                |r.value.columnList| == |cs.columnList| + |props| &&
                r.value.select == cs.select + PropertyItems(cs.separator, sym, props, r.value.columnList[|cs.columnList|..]) &&
                r.value.keys == cs.keys + FoldNames(props) &&
                columnNames.names == RegisterAll(old(columnNames.names), FoldNames(props))
      ensures sym.isJoin && sym.isNestedJoin ==>
                r.Ok? && r.value.columnList == cs.columnList + sym.columnList &&
                r.value.select == cs.select + JoinColumnItems(cs.separator, sym, sym.columnList) &&
                columnNames.names == old(columnNames.names)
      decreases sym.rank, 1
    {
      if sym.isJoin {
        if sym.isNestedJoin {
          var next := AddNestedJoinColumns(cs, sym);
          RegistryKept(columnNames.names, next.keys[|cs.keys|..]);
          r := Ok(next);
        } else {
          r := AddExtentColumns(cs, sym);
        }
      } else if sym.typeUsage.None? {
        r := Fail(NullReference);
      } else {
        var props := GetProperties(sym.typeUsage.value.edmType);
        var next := AddPropertyColumns(cs, sym, props);
        RegisterAllGrown(cs, next, old(columnNames.names), FoldNames(props));
        r := Ok(next);
      }
    }

    /** One extent of SELECT *: AddColumns, with what it appended split
        off as `part` and `cols`. */
    method ExpandExtent(cs: ColumnState, sym: Symbol)
      returns (r: Result<ColumnState>, ghost part: seq<Fragment>, ghost cols: seq<Symbol>)
      requires sym.WellFounded() && ColumnsReady(cs) && SeparatorFollows(cs)
      modifies columnNames, (iset s: Symbol {:trigger s.name} | true)`needsRenaming,
               (iset s: Symbol {:trigger s.name} | true)`columns
      ensures r.Fail? ==> r.error == NullReference
      ensures r.Ok? ==> ColumnsReady(r.value) && Extends(cs, r.value) && SeparatorFollows(r.value)
      ensures r.Ok? ==> r.value.select == cs.select + part && r.value.columnList == cs.columnList + cols
      ensures r.Ok? ==> RegistryGrown(old(columnNames.names), columnNames.names, r.value.keys[|cs.keys|..])
      ensures r.Ok? ==> ExtentExpanded(sym, ShapeOf(sym), cs.separator, part, cols, columnNames.names)
    {
      r := AddColumns(cs, sym);
      part, cols := [], [];
      if r.Ok? {
        part := r.value.select[|cs.select|..];
        cols := r.value.columnList[|cs.columnList|..];
        ExtentExpandedBy(cs, r.value, sym, ShapeOf(sym), old(columnNames.names), columnNames.names);
      }
    }

    /** One round of AddDefaultColumns: the k-th FROM extent, of shape
        `shapes[k]`, is expanded after the first k. `base` is the registry
        before the first round. */
    method ExpandStep(st: SqlSelectStatement, ghost shapes: seq<ExtentShape>, cs0: ColumnState, cs: ColumnState,
                      k: nat, ghost parts: seq<seq<Fragment>>, ghost cols: seq<seq<Symbol>>,
                      ghost base: map<string, int>)
      returns (r: Result<ColumnState>, ghost part: seq<Fragment>, ghost c: seq<Symbol>)
      requires Grounded(st) && k < |st.fromExtents| == |shapes| && |parts| == k && shapes[k] == ShapeOf(st.fromExtents[k])
      requires ColumnsReady(cs) && SeparatorFollows(cs)
      requires Expansion(st.select.fragments, cs0, cs, parts, cols, base, columnNames.names) == true
      requires Expanded(st.fromExtents, shapes, st.select.fragments, parts, cols, columnNames.names) == true
      modifies columnNames, (iset s: Symbol {:trigger s.name} | true)`needsRenaming,
               (iset s: Symbol {:trigger s.name} | true)`columns
      ensures r.Fail? ==> r.error == NullReference
      ensures r.Ok? ==> ColumnsReady(r.value) && SeparatorFollows(r.value)
      ensures r.Ok? ==> Expansion(st.select.fragments, cs0, r.value, parts + [part], cols + [c], base,
                                  columnNames.names)
      ensures r.Ok? ==> Expanded(st.fromExtents, shapes, st.select.fragments, parts + [part], cols + [c],
                                 columnNames.names)
    {
      ghost var registered := columnNames.names;
      ExpansionSeparator(st.select.fragments, cs0, cs, parts, cols, base, registered);
      r, part, c := ExpandExtent(cs, st.fromExtents[k]);
      if r.Ok? {
        assert ShapeOf(st.fromExtents[k]) == shapes[k];
        ExpandedSnoc(st.fromExtents, shapes, st.select.fragments, parts, cols, registered, columnNames.names,
                     r.value.keys[|cs.keys|..], part, c);
        ExpansionSnoc(st.select.fragments, cs0, cs, r.value, parts, cols, base, registered, columnNames.names,
                      part, c);
      }
    }

    /** AddDefaultColumns: expands `SELECT *` over the FROM extents in
        order, after what the SELECT list already holds (with a comma when
        it is not empty). `parts` and `cols` are what each extent
        appends. */
    method AddDefaultColumns(st: SqlSelectStatement)
      returns (r: Result<WithColumns>, ghost parts: seq<seq<Fragment>>, ghost cols: seq<seq<Symbol>>)
      requires Grounded(st)
      modifies columnNames, (iset s: Symbol {:trigger s.name} | true)`needsRenaming,
               (iset s: Symbol {:trigger s.name} | true)`columns
      ensures r.Fail? ==> r.error == NullReference
      ensures r.Ok? ==> ColumnsReady(r.value.columns) &&
                        r.value.statement == st.(select := SqlBuilder(r.value.columns.select))
      ensures r.Ok? ==> |parts| == |st.fromExtents| &&
                        r.value.columns.select == st.select.fragments + Concat(parts) &&
                        r.value.columns.columnList == Concat(cols)
      ensures r.Ok? ==> Expanded(st.fromExtents, old(ShapesOf(st.fromExtents)), st.select.fragments, parts, cols,
                                 columnNames.names)
      ensures r.Ok? && |st.fromExtents| == 0 ==> r.value.statement == st && r.value.columns.columnList == []
      ensures r.Ok? ==> RegistryGrown(old(columnNames.names), columnNames.names, r.value.columns.keys)
    {
      ghost var shapes := ShapesOf(st.fromExtents);
      var cs0 := ColumnState(st.select.fragments, [], map[], if st.select.IsEmpty() then "" else ", ", []);
      var cs := cs0;
      var k := 0;
      parts, cols := [], [];
      ExpansionStart(st.select.fragments, cs0, columnNames.names);
      while k < |st.fromExtents|
        invariant 0 <= k <= |st.fromExtents| && |parts| == k
        invariant ColumnsReady(cs) && SeparatorFollows(cs)
        invariant Expansion(st.select.fragments, cs0, cs, parts, cols, old(columnNames.names),
                            columnNames.names) == true
        invariant Expanded(st.fromExtents, shapes, st.select.fragments, parts, cols, columnNames.names) == true
      {
        assert shapes[k] == ShapeOf(st.fromExtents[k]);
        var next, part, c := ExpandStep(st, shapes, cs0, cs, k, parts, cols, old(columnNames.names));
        if next.Fail? {
          return Fail(next.error), parts, cols;
        }
        cs := next.value;
        parts, cols := parts + [part], cols + [c];
        k := k + 1;
      }
      assert cs.keys[|cs0.keys|..] == cs.keys;
      r := Ok(WithColumns(st.(select := SqlBuilder(cs.select)), cs));
    }

    // -------------------------------------------------------------------
    // Leaves

    /** The leaves other than variable references: a constant's literal,
        NULL, a parameter as `@name`, and an extent by its T-SQL name (as a
        text inside a join, as the FROM clause of a new statement
        otherwise). */
    method VisitLeaf(e: Expr) returns (r: Result<Fragment>)
      requires e.Leaf? && !e.leaf.VariableReference?
      ensures e.leaf.Constant? && ConstantSql(e.ty, e.leaf.value).Ok? ==>
                r == Ok(Builder(SqlBuilder(ConstantSql(e.ty, e.leaf.value).value)))
      ensures e.leaf.Constant? && ConstantSql(e.ty, e.leaf.value).Fail? ==> r == Fail(ConstantSql(e.ty, e.leaf.value).error)
      ensures e.leaf.Null? ==> r == Ok(Builder(SqlBuilder([Text("NULL")])))
      ensures e.leaf.ParameterReference? ==> r == Ok(Builder(SqlBuilder([Text("@" + e.leaf.parameterName)])))
      ensures e.leaf.Scan? && IsParentAJoin() ==> r == Ok(Builder(SqlBuilder([Text(GetTargetTSql(e.leaf.target))])))
      ensures e.leaf.Scan? && !IsParentAJoin() ==>
                r == Ok(Statement(NewStatement.(from := SqlBuilder([Text(GetTargetTSql(e.leaf.target))]))))
      ensures r.Ok? ==> FragmentGrounded(r.value)
    {
      if e.leaf.Constant? {
        var c := VisitConstant(e.ty, e.leaf.value);
        if c.Fail? {
          return Fail(c.error);
        }
        r := Ok(Builder(c.value));
      } else if e.leaf.Null? {
        r := Ok(Builder(SqlBuilder([Text("NULL")])));
      } else if e.leaf.ParameterReference? {
        r := Ok(Builder(SqlBuilder([Text("@" + e.leaf.parameterName)])));
      } else if IsParentAJoin() {
        r := Ok(Builder(SqlBuilder([Text(GetTargetTSql(e.leaf.target))])));
      } else {
        r := Ok(Statement(NewStatement.(from := SqlBuilder([Text(GetTargetTSql(e.leaf.target))]))));
      }
    }

    /** Visit(DbVariableReferenceExpression): a second reference before a
        property access resets the flag is not supported; otherwise the
        variable's symbol, recorded as an outer extent of the current
        statement unless it is one of its FROM extents. */
    method VisitVariableReference(name: string) returns (r: Result<Fragment>)
      requires Valid()
      modifies this
      ensures var found := Resolve(symbolTable.scopes, Fold(name));
              r == if old(isVarRefSingle) then Fail(NotSupported(""))
                   else if |statementStack| == 0 then Fail(InvalidOperation(""))
                   else if found.None? then Fail(ArgumentNull("key"))
                   else Ok(SymbolRef(found.value))
      ensures r.Ok? ==>
                var sym := r.value.sym;
                var n := |statementStack| - 1;
                isVarRefSingle && Valid() && Restored() &&
                statementStack == old(statementStack)[..n] +
                                  [if sym in old(statementStack)[n].fromExtents then old(statementStack)[n]
                                   else old(statementStack)[n].WithOuterExtent(sym)]
    {
      if isVarRefSingle {
        return Fail(NotSupported(""));
      }
      isVarRefSingle := true;
      var sym := Resolve(symbolTable.scopes, Fold(name));
      if |statementStack| == 0 {
        return Fail(InvalidOperation(""));
      }
      if sym.None? {
        return Fail(ArgumentNull("key"));
      }
      var n := |statementStack| - 1;
      var top := statementStack[n];
      var next := if sym.value in top.fromExtents then top else top.WithOuterExtent(sym.value);
      TopReplaced(statementStack, next, IsParentAJoin());
      statementStack := statementStack[..n] + [next];
      r := Ok(SymbolRef(sym.value));
    }

    // -------------------------------------------------------------------
    // Dispatch

    /** e.Accept(this): the visit of the node's kind. */
    method Accept(e: Expr) returns (r: Result<Fragment>)
      requires Valid()
      modifies this, symbolTable, extentNames, columnNames,
               (iset s: Symbol {:trigger s.name} | true)`needsRenaming,
               (iset s: Symbol {:trigger s.name} | true)`columns
      ensures r.Ok? ==> Valid() && Restored() && FragmentGrounded(r.value)
      ensures e.Leaf? && e.leaf.Scan? ==> statementStack == old(statementStack)
      decreases Size(e), 20
    {
      if e.Leaf? {
        if e.leaf.VariableReference? {
          r := VisitVariableReference(e.leaf.variableName);
        } else {
          r := VisitLeaf(e);
        }
      } else if e.Property? {
        ghost var inst;
        r, inst := VisitProperty(e);
      } else if e.Unary? {
        ghost var inner;
        r, inner := VisitUnary(e);
      } else if e.Binary? {
        r := VisitBinary(e);
      } else if e.Nary? {
        r := VisitNary(e);
      } else if e.Case? {
        ghost var ws, ts, el;
        r, ws, ts, el := VisitCase(e);
      } else if e.Like? {
        ghost var af, pf, ef;
        r, af, pf, ef := VisitLike(e);
      } else {
        r := VisitRelational(e);
      }
    }

    /** The unary nodes: a cast writes its argument alone; NOT, IS NULL,
        IS EMPTY, DISTINCT and ELEMENT have their own translations; the
        reference and type nodes and navigation are not supported. */
    method VisitUnary(e: Expr) returns (r: Result<Fragment>, ghost inner: Fragment)
      requires Valid() && e.Unary?
      modifies this, symbolTable, extentNames, columnNames,
               (iset s: Symbol {:trigger s.name} | true)`needsRenaming,
               (iset s: Symbol {:trigger s.name} | true)`columns
      ensures r.Ok? ==> Valid() && Restored() && FragmentGrounded(r.value)
      ensures r.Ok? && e.unary == Cast ==> r.value == Builder(SqlBuilder([inner]))
      ensures r.Ok? && e.unary == IsNull ==> r.value == Builder(SqlBuilder(IsNullLayout(inner, false)))
      ensures r.Ok? && e.unary == IsEmpty ==> exists st :: r.value == Builder(SqlBuilder(IsEmptyLayout(st, false)))
      ensures e.unary.RefOp? || e.unary.Navigate? ==> r == Fail(NotSupported(""))
      decreases Size(e), 19
    {
      inner := Builder(SqlBuilder([]));
      if e.unary == Cast {
        var a := Accept(e.argument);
        if a.Fail? {
          return Fail(a.error), inner;
        }
        inner := a.value;
        r := Ok(Builder(SqlBuilder([a.value])));
      } else if e.unary == Not {
        r, inner := VisitNot(e);
      } else if e.unary == IsNull {
        var x, f := VisitIsNullExpression(e.argument, false, Size(e));
        inner := f;
        r := if x.Ok? then Ok(Builder(SqlBuilder(x.value))) else Fail(x.error);
      } else if e.unary == IsEmpty {
        var x, st := VisitIsEmptyExpression(e.argument, false, Size(e));
        r := if x.Ok? then Ok(Builder(SqlBuilder(x.value))) else Fail(x.error);
      } else if e.unary == Distinct {
        ghost var st, inner;
        r, st, inner := VisitDistinct(e);
      } else if e.unary == Element {
        ghost var st;
        r, st := VisitElement(e);
      } else {
        r := Fail(NotSupported(""));
      }
    }

    /** The binary nodes: AND and the comparisons through
        VisitBinaryExpression, OR through the IN rewrite, the set
        operations through VisitSetOpExpression. */
    method VisitBinary(e: Expr) returns (r: Result<Fragment>)
      requires Valid() && e.Binary?
      modifies this, symbolTable, extentNames, columnNames,
               (iset s: Symbol {:trigger s.name} | true)`needsRenaming,
               (iset s: Symbol {:trigger s.name} | true)`columns
      ensures r.Ok? ==> Valid() && Restored() && FragmentGrounded(r.value)
      ensures r.Ok? && e.binary == And ==>
                exists lf, rf :: r.value == Builder(SqlBuilder(BinaryLayout(" AND ", e.left, lf, e.right, rf)))
      ensures r.Ok? && e.binary.Comparison? ==>
                exists lf, rf :: r.value == Builder(SqlBuilder(BinaryLayout(ComparisonOperator(e.binary.comparison),
                                                                           e.left, lf, e.right, rf)))
      ensures r.Ok? && e.binary == Or && AllKeyLeaves(e) ==>
                BuildInMap(e, []).Some? &&
                exists ts :: AllFit(BuildInMap(e, []).value, ts) &&
                             r.value == Builder(SqlBuilder(InLayout(BuildInMap(e, []).value, ts)))
      ensures r.Ok? && e.binary == Or && !AllKeyLeaves(e) ==>
                exists lf, rf :: r.value == Builder(SqlBuilder(BinaryLayout(" OR ", e.left, lf, e.right, rf)))
      ensures r.Ok? && e.binary.SetOp? ==>
                exists left, right :: r.value == Builder(SqlBuilder(SetOpLayout(left, SetOpString(e.binary.setOp), right)))
      decreases Size(e), 19
    {
      if e.binary == Or {
        ghost var ts;
        r, ts := VisitOr(e);
      } else if e.binary.SetOp? {
        ghost var left, right;
        r, left, right := VisitSetOp(e);
      } else {
        var op := if e.binary == And then " AND " else ComparisonOperator(e.binary.comparison);
        var x, lf, rf := VisitBinaryExpression(op, e.left, e.right, Size(e));
        r := if x.Ok? then Ok(Builder(SqlBuilder(x.value))) else Fail(x.error);
      }
    }

    /** The nodes over argument lists: arithmetic, function calls, and
        collection constructors (a new instance of any other type is not
        supported outside a projection). */
    method VisitNary(e: Expr) returns (r: Result<Fragment>)
      requires Valid() && e.Nary?
      modifies this, symbolTable, extentNames, columnNames,
               (iset s: Symbol {:trigger s.name} | true)`needsRenaming,
               (iset s: Symbol {:trigger s.name} | true)`columns
      ensures r.Ok? ==> Valid() && Restored() && FragmentGrounded(r.value)
      ensures e.nary == NewInstance && !IsCollectionType(e.ty) ==> r == Fail(NotSupported(""))
      decreases Size(e), 19
    {
      if e.nary.Arithmetic? {
        ghost var lf, rf;
        r, lf, rf := VisitArithmetic(e);
      } else if e.nary.Function? {
        ghost var texts;
        r, texts := VisitFunction(e);
      } else if IsCollectionType(e.ty) {
        ghost var texts;
        r, texts := VisitCollectionConstructor(e);
      } else {
        r := Fail(NotSupported(""));
      }
    }

    /** The relational nodes; APPLY is not supported. */
    method VisitRelational(e: Expr) returns (r: Result<Fragment>)
      requires Valid()
      requires !(e.Leaf? || e.Property? || e.Unary? || e.Binary? || e.Nary? || e.Case? || e.Like?)
      modifies this, symbolTable, extentNames, columnNames,
               (iset s: Symbol {:trigger s.name} | true)`needsRenaming,
               (iset s: Symbol {:trigger s.name} | true)`columns
      ensures r.Ok? ==> Valid() && Restored() && FragmentGrounded(r.value)
      ensures e.Apply? ==> r == Fail(NotSupported("APPLY joins are not supported"))
      decreases Size(e), 19
    {
      if e.Quantifier? {
        ghost var pf, filter;
        r, pf, filter := VisitQuantifier(e);
      } else if e.Filter? {
        ghost var pf, visited;
        var x;
        x, pf, visited := VisitFilterExpression(e.input, e.pred, false, Size(e));
        r := if x.Ok? then Ok(Statement(x.value)) else Fail(x.error);
      } else if e.Project? {
        ghost var pf, visited;
        r, pf, visited := VisitProject(e);
      } else if e.Sort? {
        ghost var keys, visited;
        r, keys, visited := VisitSort(e);
      } else if e.Skip? {
        ghost var keys, cf, visited;
        r, keys, cf, visited := VisitSkip(e);
      } else if e.Limit? {
        ghost var st, cf, inner;
        r, st, cf, inner := VisitLimit(e);
      } else if e.GroupBy? {
        ghost var keyTexts, argTexts, inner, innerQuery, visited;
        r, keyTexts, argTexts, inner, innerQuery, visited := VisitGroupBy(e);
      } else if e.Join? {
        ghost var base, frags, segments, syms, condText;
        r, base, frags, segments, syms, condText :=
          VisitJoinExpression([e.leftInput, e.rightInput], JoinString(e.join), Some(e.joinCondition), Size(e));
      } else if e.CrossJoin? {
        ghost var base, frags, segments, syms, condText;
        r, base, frags, segments, syms, condText := VisitJoinExpression(e.inputs, "CROSS JOIN", None, Size(e));
      } else {
        r := Fail(NotSupported("APPLY joins are not supported"));
      }
    }

    // -------------------------------------------------------------------
    // Shared translations

    /** The texts of the expressions, visited in order. */
    method VisitAll(es: seq<Expr>, ghost size: nat) returns (r: Result<seq<Fragment>>)
      requires Valid() && forall i :: 0 <= i < |es| ==> Size(es[i]) < size
      modifies this, symbolTable, extentNames, columnNames,
               (iset s: Symbol {:trigger s.name} | true)`needsRenaming,
               (iset s: Symbol {:trigger s.name} | true)`columns
      ensures r.Ok? ==> Valid() && Restored() && |r.value| == |es|
      decreases size, 14
    {
      var texts: seq<Fragment> := [];
      var k := 0;
      while k < |es|
        invariant 0 <= k <= |es| && |texts| == k
        invariant Valid() && Restored()
      {
        var x := Accept(es[k]);
        if x.Fail? {
          return Fail(x.error);
        }
        texts := texts + [x.value];
        k := k + 1;
      }
      r := Ok(texts);
    }

    /** VisitBinaryExpression: each operand in parentheses when complex,
        the operator between them. */
    method VisitBinaryExpression(op: string, left: Expr, right: Expr, ghost size: nat)
      returns (r: Result<seq<Fragment>>, lf: Fragment, rf: Fragment)
      requires Valid() && Size(left) < size && Size(right) < size
      modifies this, symbolTable, extentNames, columnNames,
               (iset s: Symbol {:trigger s.name} | true)`needsRenaming,
               (iset s: Symbol {:trigger s.name} | true)`columns
      ensures r.Ok? ==> Valid() && Restored() && r.value == BinaryLayout(op, left, lf, right, rf)
      decreases size, 12
    {
      lf, rf := Text(""), Text("");
      var l := Accept(left);
      if l.Fail? {
        return Fail(l.error), lf, rf;
      }
      var x := Accept(right);
      if x.Fail? {
        return Fail(x.error), lf, rf;
      }
      lf, rf := l.value, x.value;
      r := Ok(BinaryLayout(op, left, l.value, right, x.value));
    }

    /** VisitIsNullExpression: the argument, then IS NULL or IS NOT NULL. */
    method VisitIsNullExpression(arg: Expr, negate: bool, ghost size: nat) returns (r: Result<seq<Fragment>>, f: Fragment)
      requires Valid() && Size(arg) < size
      modifies this, symbolTable, extentNames, columnNames,
               (iset s: Symbol {:trigger s.name} | true)`needsRenaming,
               (iset s: Symbol {:trigger s.name} | true)`columns
      ensures r.Ok? ==> Valid() && Restored() && r.value == IsNullLayout(f, negate)
      decreases size, 12
    {
      f := Text("");
      var a := Accept(arg);
      if a.Fail? {
        return Fail(a.error), f;
      }
      f := a.value;
      r := Ok(IsNullLayout(a.value, negate));
    }

    /** VisitIsEmptyExpression: [NOT] EXISTS over the argument's statement. */
    method VisitIsEmptyExpression(arg: Expr, negate: bool, ghost size: nat)
      returns (r: Result<seq<Fragment>>, st: SqlSelectStatement)
      requires Valid() && Size(arg) < size
      modifies this, symbolTable, extentNames, columnNames,
               (iset s: Symbol {:trigger s.name} | true)`needsRenaming,
               (iset s: Symbol {:trigger s.name} | true)`columns
      ensures r.Ok? ==> Valid() && Restored() && r.value == IsEmptyLayout(st, negate)
      decreases size, 12
    {
      st := NewStatement;
      var a := EnsureSqlStatement(arg, true);
      if a.Fail? {
        return Fail(a.error), st;
      }
      st := a.value;
      r := Ok(IsEmptyLayout(a.value, negate));
    }

    /** HandleCountExpression: a constant count as its value's text,
        anything else (a parameter) through its visit. */
    method HandleCountExpression(e: Expr) returns (r: Result<Fragment>)
      requires Valid()
      modifies this, symbolTable, extentNames, columnNames,
               (iset s: Symbol {:trigger s.name} | true)`needsRenaming,
               (iset s: Symbol {:trigger s.name} | true)`columns
      ensures r.Ok? ==> Valid() && Restored() && FragmentGrounded(r.value)
      ensures e.Leaf? && e.leaf.Constant? ==> r == Ok(Builder(SqlBuilder([Text(ValueToString(e.leaf.value))])))
      decreases Size(e), 21
    {
      if e.Leaf? && e.leaf.Constant? {
        r := Ok(Builder(SqlBuilder([Text(ValueToString(e.leaf.value))])));
      } else {
        r := Accept(e);
      }
    }

    // -------------------------------------------------------------------
    // Scalar nodes

    /** Visit(DbPropertyExpression): over a join symbol, the extent of the
        property's name (paired with the join when the join is nested);
        over a symbol pair, the pair moved one level down, or the renamed
        column; otherwise the quoted name, which joins the columns read. */
    method VisitProperty(e: Expr) returns (r: Result<Fragment>, inst: Fragment)
      requires Valid() && e.Property?
      modifies this, symbolTable, extentNames, columnNames,
               (iset s: Symbol {:trigger s.name} | true)`needsRenaming,
               (iset s: Symbol {:trigger s.name} | true)`columns
      ensures r.Ok? ==> Valid() && Restored() && FragmentGrounded(r.value)
      ensures r.Ok? && inst.SymbolRef? && inst.sym.isJoin ==>
                Fold(e.propertyName) in inst.sym.nameToExtent &&
                var ext := inst.sym.nameToExtent[Fold(e.propertyName)];
                r.value == if inst.sym.isNestedJoin then Pair(inst.sym, ext) else SymbolRef(ext)
      ensures r.Ok? && inst.Pair? && inst.column.isJoin ==>
                Fold(e.propertyName) in inst.column.nameToExtent &&
                r.value == Pair(inst.source, inst.column.nameToExtent[Fold(e.propertyName)])
      ensures r.Ok? && inst.Pair? && !inst.column.isJoin && Fold(e.propertyName) in inst.column.columns ==>
                r.value == Builder(SqlBuilder([SymbolRef(inst.column.columns[Fold(e.propertyName)])]))
      ensures r.Ok? && !(inst.SymbolRef? && inst.sym.isJoin) &&
              !(inst.Pair? && (inst.column.isJoin || Fold(e.propertyName) in inst.column.columns)) ==>
                r.value == Builder(SqlBuilder([Text(QuoteIdentifier(e.propertyName))])) &&
                QuoteIdentifier(e.propertyName) in columns
      ensures r.Ok? && e.instance.Leaf? && e.instance.leaf.VariableReference? ==> !isVarRefSingle
      decreases Size(e), 18
    {
      inst := Text("");
      var x := Accept(e.instance);
      if x.Fail? {
        return Fail(x.error), inst;
      }
      var v := x.value;
      inst := v;
      if e.instance.Leaf? && e.instance.leaf.VariableReference? {
        isVarRefSingle := false;
      }
      r := PropertyMember(v, e.propertyName);
    }

    /** The member of the visited instance: through a join symbol, the
        extent of that name (paired with a nested join); through a column
        pair, the extent of a joined column or the column of that name;
        otherwise the quoted name, recorded among the columns seen. */
    method PropertyMember(v: Fragment, propertyName: string) returns (r: Result<Fragment>)
      modifies this`columns
      ensures r.Ok? && v.SymbolRef? && v.sym.isJoin ==>
                Fold(propertyName) in v.sym.nameToExtent &&
                var ext := v.sym.nameToExtent[Fold(propertyName)];
                r.value == if v.sym.isNestedJoin then Pair(v.sym, ext) else SymbolRef(ext)
      ensures r.Ok? && v.Pair? && v.column.isJoin ==>
                Fold(propertyName) in v.column.nameToExtent &&
                r.value == Pair(v.source, v.column.nameToExtent[Fold(propertyName)])
      ensures r.Ok? && v.Pair? && !v.column.isJoin && Fold(propertyName) in v.column.columns ==>
                r.value == Builder(SqlBuilder([SymbolRef(v.column.columns[Fold(propertyName)])]))
      ensures r.Ok? && !(v.SymbolRef? && v.sym.isJoin) &&
              !(v.Pair? && (v.column.isJoin || Fold(propertyName) in v.column.columns)) ==>
                r.value == Builder(SqlBuilder([Text(QuoteIdentifier(propertyName))])) &&
                QuoteIdentifier(propertyName) in columns
      ensures r.Fail? ==> r.error == KeyNotFound
      ensures r.Ok? ==> !r.value.Statement?
    {
      var key := Fold(propertyName);
      if v.SymbolRef? && v.sym.isJoin {
        if key !in v.sym.nameToExtent {
          return Fail(KeyNotFound);
        }
        var ext := v.sym.nameToExtent[key];
        if v.sym.isNestedJoin {
          return Ok(Pair(v.sym, ext));
        }
        return Ok(SymbolRef(ext));
      }
      if v.Pair? {
        if v.column.isJoin {
          if key !in v.column.nameToExtent {
            return Fail(KeyNotFound);
          }
          return Ok(Pair(v.source, v.column.nameToExtent[key]));
        }
        if key in v.column.columns {
          return Ok(Builder(SqlBuilder([SymbolRef(v.column.columns[key])])));
        }
      }
      var quoted := QuoteIdentifier(propertyName);
      if quoted !in columns {
        columns := columns + [quoted];
      }
      r := Ok(Builder(SqlBuilder([Text(quoted)])));
    }

    /** Visit(DbNotExpression): NOT NOT x is x, NOT IS EMPTY and NOT IS
        NULL are the negated tests, NOT (a = b) is a <> b, anything else
        is wrapped in NOT (...). `inner` is the visit of the operand that
        is written: x of NOT NOT x, the argument itself when wrapped. */
    method VisitNot(e: Expr) returns (r: Result<Fragment>, ghost inner: Fragment)
      requires Valid() && e.Unary? && e.unary == Not
      modifies this, symbolTable, extentNames, columnNames,
               (iset s: Symbol {:trigger s.name} | true)`needsRenaming,
               (iset s: Symbol {:trigger s.name} | true)`columns
      ensures r.Ok? ==> Valid() && Restored() && FragmentGrounded(r.value)
      ensures r.Ok? ==>
                var a := e.argument;
                match NotRenderingOf(a)
                case Flattened => r.value == inner
                case NegatedIsEmpty => exists st :: r.value == Builder(SqlBuilder(IsEmptyLayout(st, true)))
                case NegatedIsNull => r.value == Builder(SqlBuilder(IsNullLayout(inner, true)))
                case NotEqual => exists lf, rf :: r.value == Builder(SqlBuilder(BinaryLayout(" <> ", a.left, lf, a.right, rf)))
                case Wrapped => r.value == Builder(SqlBuilder(NotLayout(inner))) && r.value != inner
      decreases Size(e), 18
    {
      var a := e.argument;
      assert Size(a) < Size(e);
      inner := Text("");
      if a.Unary? && a.unary == Not {
        assert Size(a.argument) < Size(a);
        r := Accept(a.argument);
        if r.Ok? {
          inner := r.value;
        }
      } else if a.Unary? && a.unary == IsEmpty {
        assert Size(a.argument) < Size(a);
        var x, st := VisitIsEmptyExpression(a.argument, true, Size(e));
        r := if x.Ok? then Ok(Builder(SqlBuilder(x.value))) else Fail(x.error);
      } else if a.Unary? && a.unary == IsNull {
        assert Size(a.argument) < Size(a);
        var x, f := VisitIsNullExpression(a.argument, true, Size(e));
        inner := f;
        r := if x.Ok? then Ok(Builder(SqlBuilder(x.value))) else Fail(x.error);
      } else if IsEqualsNode(a) {
        assert Size(a.left) < Size(a) && Size(a.right) < Size(a);
        var x, lf, rf := VisitBinaryExpression(" <> ", a.left, a.right, Size(e));
        r := if x.Ok? then Ok(Builder(SqlBuilder(x.value))) else Fail(x.error);
      } else {
        var x := Accept(a);
        if x.Ok? {
          inner := x.value;
          NotLayoutWraps(x.value);
        }
        r := if x.Ok? then Ok(Builder(SqlBuilder(NotLayout(x.value)))) else Fail(x.error);
      }
    }

    /** Visit(DbCaseExpression): CASE, each WHEN (...) THEN ..., the ELSE
        unless it is absent or NULL, END. A WHEN without its THEN is out of
        range. */
    method VisitCase(e: Expr) returns (r: Result<Fragment>, ws: seq<Fragment>, ts: seq<Fragment>,
                                      el: Option<Fragment>)
      requires Valid() && e.Case?
      modifies this, symbolTable, extentNames, columnNames,
               (iset s: Symbol {:trigger s.name} | true)`needsRenaming,
               (iset s: Symbol {:trigger s.name} | true)`columns
      ensures r.Ok? ==> Valid() && Restored() && FragmentGrounded(r.value)
      ensures r.Ok? ==> |e.whens| <= |e.thens| && |ws| == |ts| == |e.whens| && (el.Some? <==> WritesElse(e.elseExpr)) &&
                        r.value == Builder(SqlBuilder(CaseLayout(ws, ts, el)))
      ensures |e.thens| < |e.whens| ==> r.Fail?
      decreases Size(e), 18
    {
      ws, ts, el := [], [], None;
      var k := 0;
      while k < |e.whens|
        invariant 0 <= k <= |e.whens| && k <= |e.thens| && |ws| == |ts| == k
        invariant Valid() && Restored()
      {
        var w := Accept(e.whens[k]);
        if w.Fail? {
          return Fail(w.error), ws, ts, el;
        }
        if k >= |e.thens| {
          return Fail(ArgumentOutOfRange), ws, ts, el;
        }
        var t := Accept(e.thens[k]);
        if t.Fail? {
          return Fail(t.error), ws, ts, el;
        }
        ws, ts := ws + [w.value], ts + [t.value];
        k := k + 1;
      }
      if WritesElse(e.elseExpr) {
        var x := Accept(e.elseExpr.value);
        if x.Fail? {
          return Fail(x.error), ws, ts, el;
        }
        el := Some(x.value);
      }
      r := Ok(Builder(SqlBuilder(CaseLayout(ws, ts, el))));
    }

    /** Visit(DbLikeExpression): argument LIKE pattern, then ESCAPE and the
        escape unless the escape is NULL. */
    method VisitLike(e: Expr) returns (r: Result<Fragment>, af: Fragment, pf: Fragment, ef: Option<Fragment>)
      requires Valid() && e.Like?
      modifies this, symbolTable, extentNames, columnNames,
               (iset s: Symbol {:trigger s.name} | true)`needsRenaming,
               (iset s: Symbol {:trigger s.name} | true)`columns
      ensures r.Ok? ==> Valid() && Restored() && FragmentGrounded(r.value)
      ensures r.Ok? ==> r.value == Builder(SqlBuilder(LikeLayout(af, pf, ef))) &&
                        (ef.None? <==> e.escape.Leaf? && e.escape.leaf.Null?)
      decreases Size(e), 18
    {
      af, pf, ef := Text(""), Text(""), None;
      var a := Accept(e.argument);
      if a.Fail? {
        return Fail(a.error), af, pf, ef;
      }
      var p := Accept(e.pattern);
      if p.Fail? {
        return Fail(p.error), af, pf, ef;
      }
      af, pf := a.value, p.value;
      if !(e.escape.Leaf? && e.escape.leaf.Null?) {
        var x := Accept(e.escape);
        if x.Fail? {
          return Fail(x.error), af, pf, ef;
        }
        ef := Some(x.value);
      }
      r := Ok(Builder(SqlBuilder(LikeLayout(af, pf, ef))));
    }

    /** Visit(DbArithmeticExpression): unary minus as ` -(x)`, the binary
        operators through VisitBinaryExpression; a missing argument is out
        of range. */
    method VisitArithmetic(e: Expr) returns (r: Result<Fragment>, lf: Fragment, rf: Fragment)
      requires Valid() && e.Nary? && e.nary.Arithmetic?
      modifies this, symbolTable, extentNames, columnNames,
               (iset s: Symbol {:trigger s.name} | true)`needsRenaming,
               (iset s: Symbol {:trigger s.name} | true)`columns
      ensures r.Ok? ==> Valid() && Restored() && FragmentGrounded(r.value)
      ensures e.nary.arithmetic == UnaryMinus && |e.arguments| == 0 ==> r == Fail(ArgumentOutOfRange)
      ensures e.nary.arithmetic != UnaryMinus && |e.arguments| < 2 ==> r == Fail(ArgumentOutOfRange)
      ensures r.Ok? && e.nary.arithmetic == UnaryMinus ==> r.value == Builder(SqlBuilder([Text(" -("), lf, Text(")")]))
      ensures r.Ok? && e.nary.arithmetic != UnaryMinus ==>
                r.value == Builder(SqlBuilder(BinaryLayout(ArithmeticOperator(e.nary.arithmetic),
                                                          e.arguments[0], lf, e.arguments[1], rf)))
      decreases Size(e), 18
    {
      lf, rf := Text(""), Text("");
      var k := e.nary.arithmetic;
      if k == UnaryMinus {
        if |e.arguments| == 0 {
          return Fail(ArgumentOutOfRange), lf, rf;
        }
        var x := Accept(e.arguments[0]);
        if x.Fail? {
          return Fail(x.error), lf, rf;
        }
        lf := x.value;
        r := Ok(Builder(SqlBuilder([Text(" -("), lf, Text(")")])));
      } else {
        if |e.arguments| < 2 {
          return Fail(ArgumentOutOfRange), lf, rf;
        }
        var x;
        x, lf, rf := VisitBinaryExpression(ArithmeticOperator(k), e.arguments[0], e.arguments[1], Size(e));
        r := if x.Ok? then Ok(Builder(SqlBuilder(x.value))) else Fail(x.error);
      }
    }

    /** HandleFunctionDefault: the function's name, then its arguments in
        parentheses unless it is niladic; a niladic function with arguments
        is an error. */
    method VisitFunction(e: Expr) returns (r: Result<Fragment>, texts: seq<Fragment>)
      requires Valid() && e.Nary? && e.nary.Function?
      modifies this, symbolTable, extentNames, columnNames,
               (iset s: Symbol {:trigger s.name} | true)`needsRenaming,
               (iset s: Symbol {:trigger s.name} | true)`columns
      ensures r.Ok? ==> Valid() && Restored() && FragmentGrounded(r.value)
      ensures e.nary.edmFunction.niladic && |e.arguments| > 0 ==>
                r == Fail(InvalidOperation("Niladic functions cannot have parameters"))
      ensures r.Ok? ==> |texts| == |e.arguments| && r.value == Builder(SqlBuilder(FunctionLayout(e.nary.edmFunction, texts)))
      decreases Size(e), 18
    {
      texts := [];
      var f := e.nary.edmFunction;
      if f.niladic && |e.arguments| > 0 {
        return Fail(InvalidOperation("Niladic functions cannot have parameters")), texts;
      }
      var x := VisitAll(e.arguments, Size(e));
      if x.Fail? {
        return Fail(x.error), texts;
      }
      texts := x.value;
      r := Ok(Builder(SqlBuilder(FunctionLayout(f, texts))));
    }

    /** VisitCollectionConstructor: a collection of one ELEMENT is the
        element's statement limited to one row; any other collection is a
        UNION ALL ladder of its elements. */
    method VisitCollectionConstructor(e: Expr) returns (r: Result<Fragment>, texts: seq<Fragment>)
      requires Valid() && e.Nary? && e.nary == NewInstance && IsCollectionType(e.ty)
      modifies this, symbolTable, extentNames, columnNames,
               (iset s: Symbol {:trigger s.name} | true)`needsRenaming,
               (iset s: Symbol {:trigger s.name} | true)`columns
      ensures r.Ok? ==> Valid() && Restored() && FragmentGrounded(r.value)
      ensures r.Ok? && |e.arguments| == 1 && e.arguments[0].Unary? && e.arguments[0].unary == Element ==>
                r.value.Statement? && r.value.st.top == Some(TopClauseOfCount(1, false))
      ensures r.Ok? && !(|e.arguments| == 1 && e.arguments[0].Unary? && e.arguments[0].unary == Element) ==>
                |texts| == |e.arguments| &&
                r.value == Builder(SqlBuilder(UnionLadder(texts, IsPrimitiveType(GetElementTypeUsage(e.ty).value))))
      decreases Size(e), 18
    {
      texts := [];
      if |e.arguments| == 1 && e.arguments[0].Unary? && e.arguments[0].unary == Element {
        var a := e.arguments[0].argument;
        assert Size(a) < Size(e.arguments[0]) <= SizeAll(e.arguments);
        var st := EnsureSqlStatement(a, true);
        if st.Fail? {
          return Fail(st.error), texts;
        }
        ghost var inner;
        var w;
        w, inner := WrapUnlessReusable(st.value, ElementKind, "element", GetElementTypeUsage(a.ty));
        if w.Fail? {
          return Fail(w.error), texts;
        }
        r := Ok(Statement(w.value.WithTop(TopClauseOfCount(1, false))));
      } else {
        var isScalar := IsPrimitiveType(GetElementTypeUsage(e.ty).value);
        var x := VisitAll(e.arguments, Size(e));
        if x.Fail? {
          return Fail(x.error), texts;
        }
        texts := x.value;
        r := Ok(Builder(SqlBuilder(UnionLadder(texts, isScalar))));
      }
    }

    /** VisitNewInstanceExpression, for a projection: the arguments one
        per line, comma separated; a result that is not a row, an argument
        that is a row, or an argument past the row's members is an error. */
    method VisitNewInstanceExpression(p: Expr) returns (r: Result<Fragment>, texts: seq<Fragment>)
      requires Valid() && p.Nary? && p.nary == NewInstance
      modifies this, symbolTable, extentNames, columnNames,
               (iset s: Symbol {:trigger s.name} | true)`needsRenaming,
               (iset s: Symbol {:trigger s.name} | true)`columns
      ensures r.Ok? ==> Valid() && Restored() && FragmentGrounded(r.value)
      ensures !p.ty.edmType.RowType? ==> r == Fail(NotSupported(""))
      ensures r.Ok? ==> p.ty.edmType.RowType? && |p.arguments| <= |p.ty.edmType.properties| &&
                        (forall i :: 0 <= i < |p.arguments| ==> !IsRowType(p.arguments[i].ty)) &&
                        |texts| == |p.arguments| && r.value == Builder(SqlBuilder(RowLayout(texts)))
      decreases Size(p), 17
    {
      texts := [];
      if !p.ty.edmType.RowType? {
        return Fail(NotSupported("")), texts;
      }
      var k := FirstRejected(p.arguments, |p.ty.edmType.properties|, 0);
      var x := VisitAll(p.arguments[..k], Size(p));
      if x.Fail? {
        return Fail(x.error), texts;
      }
      if k < |p.arguments| {
        if IsRowType(p.arguments[k].ty) {
          return Fail(NotSupported("")), texts;
        }
        return Fail(ArgumentOutOfRange), texts;
      }
      assert k == |p.arguments|;
      assert p.arguments[..k] == p.arguments;
      texts := x.value;
      r := Ok(Builder(SqlBuilder(RowLayout(texts))));
    }

    /** Visit(DbOrExpression): the IN rewrite when every leaf of the OR
        tree is a key equality or a key null test, the plain OR otherwise. */
    method VisitOr(e: Expr) returns (r: Result<Fragment>, ts: seq<GroupTexts>)
      requires Valid() && IsOrNode(e)
      modifies this, symbolTable, extentNames, columnNames,
               (iset s: Symbol {:trigger s.name} | true)`needsRenaming,
               (iset s: Symbol {:trigger s.name} | true)`columns
      ensures r.Ok? ==> Valid() && Restored() && FragmentGrounded(r.value)
      ensures r.Ok? && AllKeyLeaves(e) ==>
                BuildInMap(e, []).Some? && AllFit(BuildInMap(e, []).value, ts) &&
                r.value == Builder(SqlBuilder(InLayout(BuildInMap(e, []).value, ts)))
      ensures r.Ok? && !AllKeyLeaves(e) ==> exists lf, rf :: r.value == Builder(SqlBuilder(BinaryLayout(" OR ", e.left, lf, e.right, rf)))
      decreases Size(e), 18
    {
      ts := [];
      var m := BuildInMap(e, []);
      BuildInMapMeaning(e, []);
      if m.Some? && |m.value| > 0 {
        BuildInMapBelow(e.left, [], Size(e));
        var l := BuildInMap(e.left, []);
        BuildInMapBelow(e.right, l.value, Size(e));
        var x;
        x, ts := TranslateGroups(m.value, Size(e));
        r := if x.Ok? then Ok(Builder(SqlBuilder(x.value))) else Fail(x.error);
      } else {
        ghost var lf, rf;
        var x;
        x, lf, rf := VisitBinaryExpression(" OR ", e.left, e.right, Size(e));
        r := if x.Ok? then Ok(Builder(SqlBuilder(x.value))) else Fail(x.error);
      }
    }

    /** TryTranslateIntoIn, after the map is built: the groups' texts
        joined by OR. */
    method TranslateGroups(groups: seq<InGroup>, ghost size: nat) returns (r: Result<seq<Fragment>>, ts: seq<GroupTexts>)
      requires Valid() && GroupsBelow(groups, size)
      modifies this, symbolTable, extentNames, columnNames,
               (iset s: Symbol {:trigger s.name} | true)`needsRenaming,
               (iset s: Symbol {:trigger s.name} | true)`columns
      ensures r.Ok? ==> Valid() && Restored() && AllFit(groups, ts) && r.value == InLayout(groups, ts)
      decreases size, 17
    {
      ts := [];
      var out: seq<Fragment> := [];
      var k := 0;
      while k < |groups|
        invariant 0 <= k <= |groups| && |ts| == k && AllFit(groups[..k], ts) && out == InLayout(groups[..k], ts)
        invariant Valid() && Restored()
      {
        ghost var before := statementStack;
        var x;
        x, ts := TranslateGroupAt(groups, k, ts, out, size);
        if x.Fail? {
          return Fail(x.error), ts;
        }
        StackKeptTrans(old(statementStack), before, statementStack, IsParentAJoin());
        out := x.value;
        k := k + 1;
      }
      assert groups[..k] == groups;
      r := Ok(out);
    }

    /** One round of TranslateGroups: the k-th group's texts after the
        first k groups' layout. */
    method TranslateGroupAt(groups: seq<InGroup>, k: nat, ts: seq<GroupTexts>, out: seq<Fragment>, ghost size: nat)
      returns (r: Result<seq<Fragment>>, ts': seq<GroupTexts>)
      requires Valid() && GroupsBelow(groups, size) && k < |groups|
      requires AllFit(groups[..k], ts) && out == InLayout(groups[..k], ts)
      modifies this, symbolTable, extentNames, columnNames,
               (iset s: Symbol {:trigger s.name} | true)`needsRenaming,
               (iset s: Symbol {:trigger s.name} | true)`columns
      ensures r.Ok? ==> Valid() && Restored() && |ts'| == k + 1 && AllFit(groups[..k + 1], ts') &&
                        r.value == InLayout(groups[..k + 1], ts')
      decreases size, 16
    {
      ts' := ts;
      var x, t := TranslateGroup(groups[k], size);
      if x.Fail? {
        return Fail(x.error), ts';
      }
      InLayoutGrow(groups, ts, k, t);
      ts' := ts + [t];
      r := Ok(out + (if k == 0 then [] else [Text(" OR ")]) + x.value);
    }

    /** One group of the IN rewrite: `key = v` or `key IN (v1,...)` over
        the non-null values (each in parentheses when complex), then the
        null test of the key when the group has one. */
    method TranslateGroup(g: InGroup, ghost size: nat) returns (r: Result<seq<Fragment>>, t: GroupTexts)
      requires Valid() && GroupBelow(g, size)
      modifies this, symbolTable, extentNames, columnNames,
               (iset s: Symbol {:trigger s.name} | true)`needsRenaming,
               (iset s: Symbol {:trigger s.name} | true)`columns
      ensures r.Ok? ==> Valid() && Restored() && FitsGroup(g, t) && r.value == GroupLayout(g, t)
      decreases size, 15
    {
      t := GroupTexts(Text(""), [], None);
      var values := NonNullValues(g.values);
      var keyText := Text("");
      if |values| >= 1 {
        var k := Accept(g.key);
        if k.Fail? {
          return Fail(k.error), t;
        }
        keyText := k.value;
      }
      ghost var s1 := statementStack;
      var vs := VisitAll(values, size);
      if vs.Fail? {
        return Fail(vs.error), t;
      }
      StackKeptTrans(old(statementStack), s1, statementStack, IsParentAJoin());
      ghost var s2 := statementStack;
      var nullOperand := NullOperand(g, size);
      if nullOperand.Fail? {
        return Fail(nullOperand.error), t;
      }
      StackKeptTrans(old(statementStack), s2, statementStack, IsParentAJoin());
      t := GroupTexts(keyText, vs.value, nullOperand.value);
      r := Ok(GroupLayout(g, t));
    }

    /** The operand of the group's null test, when it has one. */
    method NullOperand(g: InGroup, ghost size: nat) returns (r: Result<Option<Fragment>>)
      requires Valid() && GroupBelow(g, size)
      modifies this, symbolTable, extentNames, columnNames,
               (iset s: Symbol {:trigger s.name} | true)`needsRenaming,
               (iset s: Symbol {:trigger s.name} | true)`columns
      ensures r.Ok? ==> Valid() && Restored() && (r.value.Some? <==> FirstNullTest(g.values).Some?)
      decreases size, 14
    {
      var nullTest := FirstNullTest(g.values);
      r := Ok(None);
      if nullTest.Some? {
        var x, f := VisitIsNullExpression(nullTest.value.argument, false, size);
        if x.Fail? {
          return Fail(x.error);
        }
        r := Ok(Some(f));
      }
    }

    /** VisitSetOpExpression: both sides as statements, each wrapped when
        it has ORDER BY, LIMIT or OFFSET, the operator between them. */
    method VisitSetOp(e: Expr) returns (r: Result<Fragment>, left: SqlSelectStatement, right: SqlSelectStatement)
      requires Valid() && e.Binary? && e.binary.SetOp?
      modifies this, symbolTable, extentNames, columnNames,
               (iset s: Symbol {:trigger s.name} | true)`needsRenaming,
               (iset s: Symbol {:trigger s.name} | true)`columns
      ensures r.Ok? ==> Valid() && Restored() && FragmentGrounded(r.value)
      ensures r.Ok? ==> r.value == Builder(SqlBuilder(SetOpLayout(left, SetOpString(e.binary.setOp), right)))
      decreases Size(e), 18
    {
      left, right := NewStatement, NewStatement;
      var l := EnsureSqlStatement(e.left, true);
      if l.Fail? {
        return Fail(l.error), left, right;
      }
      var x := EnsureSqlStatement(e.right, true);
      if x.Fail? {
        return Fail(x.error), left, right;
      }
      left, right := l.value, x.value;
      r := Ok(Builder(SqlBuilder(SetOpLayout(left, SetOpString(e.binary.setOp), right))));
    }

    /** Visit(DbElementExpression): the argument's statement in
        parentheses. */
    method VisitElement(e: Expr) returns (r: Result<Fragment>, st: SqlSelectStatement)
      requires Valid() && e.Unary? && e.unary == Element
      modifies this, symbolTable, extentNames, columnNames,
               (iset s: Symbol {:trigger s.name} | true)`needsRenaming,
               (iset s: Symbol {:trigger s.name} | true)`columns
      ensures r.Ok? ==> Valid() && Restored() && FragmentGrounded(r.value)
      ensures r.Ok? ==> r.value == Builder(SqlBuilder([Text("("), Statement(st), Text(")")]))
      decreases Size(e), 18
    {
      st := NewStatement;
      var x := EnsureSqlStatement(e.argument, true);
      if x.Fail? {
        return Fail(x.error), st;
      }
      st := x.value;
      r := Ok(Builder(SqlBuilder([Text("("), Statement(st), Text(")")])));
    }

    /** Visit(DbQuantifierExpression): EXISTS (or NOT EXISTS) over the
        filter of the input by the predicate (negated for ALL), with its
        columns expanded when it selects nothing. */
    method VisitQuantifier(e: Expr) returns (r: Result<Fragment>, pf: Fragment, filter: SqlSelectStatement)
      requires Valid() && e.Quantifier?
      modifies this, symbolTable, extentNames, columnNames,
               (iset s: Symbol {:trigger s.name} | true)`needsRenaming,
               (iset s: Symbol {:trigger s.name} | true)`columns
      ensures r.Ok? ==> Valid() && Restored() && FragmentGrounded(r.value)
      ensures r.Ok? ==> r.value == Builder(SqlBuilder(QuantifierLayout(e.quantifier, filter))) &&
                        filter.where.fragments == FilterPredicate(pf, e.quantifier == All)
      decreases Size(e), 18
    {
      filter := NewStatement;
      ghost var visited;
      var f;
      f, pf, visited := VisitFilterExpression(e.input, e.pred, e.quantifier == All, Size(e));
      if f.Fail? {
        return Fail(f.error), pf, filter;
      }
      var st := f.value;
      if st.select.IsEmpty() {
        var cols, expansion, expandedColumns := AddDefaultColumns(st);
        if cols.Fail? {
          return Fail(cols.error), pf, filter;
        }
        st := cols.value.statement;
      }
      filter := st;
      r := Ok(Builder(SqlBuilder(QuantifierLayout(e.quantifier, filter))));
    }

    // -------------------------------------------------------------------
    // Statements for inputs

    /** VisitInputExpression: the input's statement (a new one whose FROM
        clause wraps the input's text when the input produced no
        statement), and the symbol for the input: a new symbol when the
        statement has no FROM extents, its one extent, or a join symbol
        over several extents, which then replaces them. */
    method VisitInputExpression(e: Expr, name: string, ty: Option<TypeUsage>)
      returns (r: Result<Input>, f: Fragment)
      requires Valid()
      modifies this, symbolTable, extentNames, columnNames,
               (iset s: Symbol {:trigger s.name} | true)`needsRenaming,
               (iset s: Symbol {:trigger s.name} | true)`columns
      ensures r.Ok? ==> Valid() && Restored() && Grounded(r.value.statement) && r.value.fromSymbol.WellFounded()
      ensures r.Ok? ==> var st := r.value.statement;
                        |st.fromExtents| <= 1 && (|st.fromExtents| == 1 ==> r.value.fromSymbol == st.fromExtents[0])
      ensures r.Ok? && f.Statement? ==> r.value.statement == f.st.(fromExtents := r.value.statement.fromExtents)
      ensures r.Ok? && f.Statement? && |f.st.fromExtents| <= 1 ==> r.value.statement == f.st
      ensures r.Ok? && f.Statement? && |f.st.fromExtents| > 1 ==>
                r.value.fromSymbol.isJoin && r.value.fromSymbol.extentList == f.st.fromExtents
      ensures r.Ok? && !f.Statement? ==> r.value.statement == NewStatement.(from := SqlBuilder(WrapNonQueryExtent(e, f)))
      ensures r.Ok? && |r.value.statement.fromExtents| == 0 ==> r.value.fromSymbol.name == name && !r.value.fromSymbol.isJoin
      decreases Size(e), 21
    {
      f := Text("");
      var x := Accept(e);
      if x.Fail? {
        return Fail(x.error), f;
      }
      f := x.value;
      var st := if f.Statement? then f.st else NewStatement.(from := SqlBuilder(WrapNonQueryExtent(e, f)));
      var sym: Symbol;
      if |st.fromExtents| == 0 {
        sym := new Symbol(name, ty);
      } else if |st.fromExtents| == 1 {
        sym := st.fromExtents[0];
      } else {
        var j := new Symbol.Join(name, ty, st.fromExtents);
        j.flattenedExtentList := if st.allJoinExtents.Some? then st.allJoinExtents.value else [];
        sym := j;
        st := st.(fromExtents := [j]);
      }
      r := Ok(Input(st, sym));
    }

    /** CreateNewSelectStatement: a new statement over the old one nested
        in its FROM clause, after giving the old one its default columns
        when asked to finalize it and it selects nothing. The symbol for
        the nested statement clones the old statement's join symbol when
        there is one, and is new otherwise. */
    method CreateNewSelectStatement(prior: SqlSelectStatement, name: string, ty: Option<TypeUsage>, finalize: bool)
      returns (r: Result<Input>, inner: SqlSelectStatement, ghost parts: seq<seq<Fragment>>, ghost cols: seq<seq<Symbol>>)
      requires Grounded(prior)
      modifies columnNames, (iset s: Symbol {:trigger s.name} | true)`needsRenaming,
               (iset s: Symbol {:trigger s.name} | true)`columns
      ensures r.Fail? ==> r.error == NullReference || r.error == ArgumentOutOfRange
      ensures !finalize || !prior.select.IsEmpty() ==> r.Ok? && inner == prior
      ensures r.Ok? ==> r.value.statement == NestedStatement(inner) && inner.(select := prior.select) == prior &&
                        r.value.fromSymbol.WellFounded() && r.value.fromSymbol.name == name &&
                        r.value.fromSymbol.typeUsage == ty
      ensures r.Ok? && finalize && prior.select.IsEmpty() ==>
                inner.select.fragments == Concat(parts) &&
                Expanded(prior.fromExtents, old(ShapesOf(prior.fromExtents)), [], parts, cols, columnNames.names)
      ensures r.Ok? && finalize && prior.select.IsEmpty() ==>
                |prior.fromExtents| > 0 && (r.value.fromSymbol.isJoin <==> prior.fromExtents[0].isJoin)
      ensures r.Ok? && finalize && prior.select.IsEmpty() && prior.fromExtents[0].isJoin ==>
                r.value.fromSymbol.isNestedJoin && r.value.fromSymbol.extentList == prior.fromExtents[0].extentList &&
                r.value.fromSymbol.columnList == Concat(cols) &&
                r.value.fromSymbol.flattenedExtentList == prior.fromExtents[0].flattenedExtentList
      ensures r.Ok? && !(finalize && prior.select.IsEmpty()) ==> !r.value.fromSymbol.isJoin
    {
      inner := prior;
      parts, cols := [], [];
      var sym: Symbol? := null;
      if finalize && prior.select.IsEmpty() {
        var added;
        added, parts, cols := AddDefaultColumns(prior);
        if added.Fail? {
          return Fail(added.error), inner, parts, cols;
        }
        inner := added.value.statement;
        if |prior.fromExtents| == 0 {
          return Fail(ArgumentOutOfRange), inner, parts, cols;
        }
        var first := prior.fromExtents[0];
        assert first.WellFounded();
        if first.isJoin {
          sym := NestedJoinSymbol(name, ty, first.extentList, added.value.columns.columnList,
                                  first.flattenedExtentList);
        }
      }
      if sym == null {
        sym := new Symbol(name, ty);
      }
      r := Ok(Input(NestedStatement(inner), sym));
    }

    /** The statement a node adds its clause to: the given one when the
        node is compatible with it, otherwise a new statement over it,
        whose symbol becomes its one FROM extent (without a binding in the
        symbol table). */
    method WrapUnlessReusable(st: SqlSelectStatement, kind: StatementKind, name: string, ty: Option<TypeUsage>)
      returns (r: Result<SqlSelectStatement>, inner: SqlSelectStatement)
      requires Grounded(st) && kind != OtherKind
      modifies symbolTable, extentNames, columnNames,
               (iset s: Symbol {:trigger s.name} | true)`needsRenaming,
               (iset s: Symbol {:trigger s.name} | true)`columns
      ensures symbolTable.scopes == old(symbolTable.scopes)
      ensures Reusable(st, kind) ==> r == Ok(st)
      ensures r.Ok? ==> Grounded(r.value) && Reusable(r.value, kind)
      ensures r.Ok? && !Reusable(st, kind) ==>
                r.value == NestedStatement(inner).(fromExtents := r.value.fromExtents) && |r.value.fromExtents| == 1 &&
                r.value.fromExtents[0].name == name && inner.(select := st.select) == st
    {
      inner := st;
      if Reusable(st, kind) {
        return Ok(st), inner;
      }
      var c;
      ghost var expansion, expandedColumns;
      c, inner, expansion, expandedColumns := CreateNewSelectStatement(st, name, ty, true);
      if c.Fail? {
        return Fail(c.error), inner;
      }
      var nested := AddFromSymbol(c.value.statement, name, c.value.fromSymbol, false);
      r := Ok(nested);
    }

    /** The input of a relational node: VisitInputExpression, then a new
        statement over the input's when the node is not compatible with
        it. The statement returned is compatible with the node. */
    method InputStatement(e: Expr, name: string, ty: Option<TypeUsage>, kind: StatementKind)
      returns (r: Result<Input>, visited: SqlSelectStatement, inner: SqlSelectStatement)
      requires Valid() && kind != OtherKind
      modifies this, symbolTable, extentNames, columnNames,
               (iset s: Symbol {:trigger s.name} | true)`needsRenaming,
               (iset s: Symbol {:trigger s.name} | true)`columns
      ensures r.Ok? ==> Valid() && Restored() && Grounded(r.value.statement) && r.value.fromSymbol.WellFounded() &&
                        Reusable(r.value.statement, kind)
      ensures r.Ok? ==> var st := r.value.statement;
                        |st.fromExtents| <= 1 && (|st.fromExtents| == 1 ==> r.value.fromSymbol == st.fromExtents[0])
      ensures r.Ok? && Reusable(visited, kind) ==> r.value.statement == visited
      ensures r.Ok? && !Reusable(visited, kind) ==>
                r.value.statement == NestedStatement(inner) && inner.(select := visited.select) == visited
      decreases Size(e), 22
    {
      visited, inner := NewStatement, NewStatement;
      var v;
      ghost var f;
      v, f := VisitInputExpression(e, name, ty);
      if v.Fail? {
        return Fail(v.error), visited, inner;
      }
      visited := v.value.statement;
      if Reusable(visited, kind) {
        return v, visited, inner;
      }
      r, inner := NestOver(visited, name, ty);
    }

    /** A new statement over a finalized one, as the input of a node that
        cannot reuse it. */
    method NestOver(prior: SqlSelectStatement, name: string, ty: Option<TypeUsage>)
      returns (r: Result<Input>, inner: SqlSelectStatement)
      requires Grounded(prior)
      modifies columnNames, (iset s: Symbol {:trigger s.name} | true)`needsRenaming,
               (iset s: Symbol {:trigger s.name} | true)`columns
      ensures r.Ok? ==> r.value.statement == NestedStatement(inner) && inner.(select := prior.select) == prior &&
                        r.value.fromSymbol.WellFounded() && r.value.fromSymbol.name == name
    {
      ghost var expansion, expandedColumns;
      r, inner, expansion, expandedColumns := CreateNewSelectStatement(prior, name, ty, true);
    }

    /** VisitExpressionEnsureSqlStatement: the statement of a collection
        expression. A projection, filter, grouping or sort produces its
        own; any other expression becomes the one FROM extent, named "c",
        of its input statement. With addDefaultColumns, a statement that
        selects nothing gets its default columns. */
    method EnsureSqlStatement(e: Expr, addDefaultColumns: bool) returns (r: Result<SqlSelectStatement>)
      requires Valid()
      modifies this, symbolTable, extentNames, columnNames,
               (iset s: Symbol {:trigger s.name} | true)`needsRenaming,
               (iset s: Symbol {:trigger s.name} | true)`columns
      ensures r.Ok? ==> Valid() && Restored() && Grounded(r.value)
      ensures r.Ok? && !(e.Project? || e.Filter? || e.GroupBy? || e.Sort?) ==> |r.value.fromExtents| == 1
      ensures !(e.Project? || e.Filter? || e.GroupBy? || e.Sort?) &&
              !((e.Leaf? && e.leaf.Scan?) || e.Join? || e.CrossJoin? || e.Apply?) && !IsCollectionType(e.ty) ==>
                r == Fail(InvalidCast)
      decreases Size(e), 23
    {
      var st: SqlSelectStatement;
      if e.Project? || e.Filter? || e.GroupBy? || e.Sort? {
        var x := Accept(e);
        if x.Fail? {
          return Fail(x.error);
        }
        if !x.value.Statement? {
          return Fail(NullReference);
        }
        st := x.value.st;
      } else {
        var x := ExtentStatement(e);
        if x.Fail? {
          return Fail(x.error);
        }
        st := x.value;
      }
      if addDefaultColumns && st.select.IsEmpty() {
        var cols, expansion, expandedColumns := AddDefaultColumns(st);
        if cols.Fail? {
          return Fail(cols.error);
        }
        st := cols.value.statement;
      }
      r := Ok(st);
    }

    /** The else-branch of EnsureSqlStatement: a node that is not itself
        relational-with-a-statement is visited as an input named "c" in a
        scope of its own, and its symbol is the statement's FROM extent. */
    method ExtentStatement(e: Expr) returns (r: Result<SqlSelectStatement>)
      requires Valid()
      modifies this, symbolTable, extentNames, columnNames,
               (iset s: Symbol {:trigger s.name} | true)`needsRenaming,
               (iset s: Symbol {:trigger s.name} | true)`columns
      ensures r.Ok? ==> Valid() && Restored() && Grounded(r.value) && |r.value.fromExtents| == 1
      ensures !((e.Leaf? && e.leaf.Scan?) || e.Join? || e.CrossJoin? || e.Apply?) && !IsCollectionType(e.ty) ==>
                r == Fail(InvalidCast)
      decreases Size(e), 22
    {
      symbolTable.EnterScope();
      var ty := GetElementTypeUsage(e.ty);
      if !((e.Leaf? && e.leaf.Scan?) || e.Join? || e.CrossJoin? || e.Apply?) && ty.None? {
        return Fail(InvalidCast);
      }
      var v;
      ghost var f;
      v, f := VisitInputExpression(e, "c", ty);
      if v.Fail? {
        return Fail(v.error);
      }
      var st := AddFromSymbol(v.value.statement, "c", v.value.fromSymbol, true);
      var _ := symbolTable.ExitScope();
      r := Ok(st);
    }

    // -------------------------------------------------------------------
    // Relational nodes

    /** The common opening of Filter, Project, Sort, Skip: the input's
        statement, compatible with the node, with the input's symbol as
        its one FROM extent, bound to the input variable in a new scope,
        and pushed as the current statement. */
    method OpenInput(b: Binding, kind: StatementKind, ghost size: nat)
      returns (r: Result<SqlSelectStatement>, visited: SqlSelectStatement)
      requires Valid() && kind != OtherKind && Size(b.expression) < size
      modifies this, symbolTable, extentNames, columnNames,
               (iset s: Symbol {:trigger s.name} | true)`needsRenaming,
               (iset s: Symbol {:trigger s.name} | true)`columns
      ensures r.Ok? ==> Valid() && Reusable(r.value, kind) && |r.value.fromExtents| == 1 &&
                        |statementStack| > 0 && statementStack[|statementStack| - 1] == r.value &&
                        StackKept(old(statementStack), statementStack[..|statementStack| - 1], IsParentAJoin()) &&
                        parentJoinStack == old(parentJoinStack) &&
                        symbolTable.scopes == old(symbolTable.scopes) + [map[Fold(b.variableName) := r.value.fromExtents[0]]]
      ensures r.Ok? ==> SameClauses(StartOf(visited, kind), r.value)
      decreases size, 16
    {
      var i;
      ghost var inner;
      i, visited, inner := InputStatement(b.expression, b.variableName, Some(b.variableType), kind);
      if i.Fail? {
        return Fail(i.error), visited;
      }
      var st := PushInput(i.value.statement, b.variableName, i.value.fromSymbol);
      r := Ok(st);
    }

    /** The input's statement, with its symbol as its one FROM extent,
        pushed as the current statement, and the symbol bound to the input
        variable in a new scope. */
    method PushInput(st: SqlSelectStatement, name: string, sym: Symbol) returns (r: SqlSelectStatement)
      requires Valid() && Grounded(st) && sym.WellFounded()
      requires |st.fromExtents| <= 1 && (|st.fromExtents| == 1 ==> sym == st.fromExtents[0])
      modifies this, symbolTable, extentNames
      ensures Valid() && SameClauses(st, r) && r.fromExtents == [sym]
      ensures statementStack == old(statementStack) + [r] && parentJoinStack == old(parentJoinStack)
      ensures symbolTable.scopes == old(symbolTable.scopes) + [map[Fold(name) := sym]]
    {
      symbolTable.EnterScope();
      r := AddFromSymbol(st, name, sym, true);
      statementStack := statementStack + [r];
    }

    /** The common closing: the current statement is popped and the scope
        of the input variable is left. */
    method CloseInput() returns (top: SqlSelectStatement)
      requires Valid() && |statementStack| > 0 && |symbolTable.scopes| > 0
      modifies this, symbolTable
      ensures top == old(statementStack)[|old(statementStack)| - 1] && Grounded(top) && Valid()
      ensures statementStack == old(statementStack)[..|old(statementStack)| - 1]
      ensures symbolTable.scopes == old(symbolTable.scopes)[..|old(symbolTable.scopes)| - 1]
      ensures parentJoinStack == old(parentJoinStack) && isVarRefSingle == old(isVarRefSingle) && columns == old(columns)
    {
      var n := |statementStack| - 1;
      top := statementStack[n];
      statementStack := statementStack[..n];
      var _ := symbolTable.ExitScope();
    }

    /** VisitFilterExpression: the predicate (in NOT (...) when negated) as
        the WHERE clause of the input's statement, or of a new statement
        over it. */
    method VisitFilterExpression(input: Binding, pred: Expr, negate: bool, ghost size: nat)
      returns (r: Result<SqlSelectStatement>, pf: Fragment, visited: SqlSelectStatement)
      requires Valid() && Size(input.expression) < size && Size(pred) < size
      modifies this, symbolTable, extentNames, columnNames,
               (iset s: Symbol {:trigger s.name} | true)`needsRenaming,
               (iset s: Symbol {:trigger s.name} | true)`columns
      ensures r.Ok? ==> Valid() && Restored() && Grounded(r.value)
      ensures r.Ok? ==> r.value.where.fragments == FilterPredicate(pf, negate)
      ensures r.Ok? ==> SameClauses(StartOf(visited, FilterKind).(where := r.value.where), r.value)
      decreases size, 17
    {
      pf := Text("");
      var o;
      o, visited := OpenInput(input, FilterKind, size);
      if o.Fail? {
        return Fail(o.error), pf, visited;
      }
      var p := Accept(pred);
      if p.Fail? {
        return Fail(p.error), pf, visited;
      }
      pf := p.value;
      var top := CloseInput();
      r := Ok(AppendClause(top, WhereClause, FilterPredicate(pf, negate)));
      AppendedOver(StartOf(visited, FilterKind), o.value, top, WhereClause,
                   FilterPredicate(pf, negate));
    }

    /** Visit(DbProjectExpression): the projection (a row constructor
        through VisitNewInstanceExpression) as the SELECT list. */
    method VisitProject(e: Expr) returns (r: Result<Fragment>, pf: Fragment, visited: SqlSelectStatement)
      requires Valid() && e.Project?
      modifies this, symbolTable, extentNames, columnNames,
               (iset s: Symbol {:trigger s.name} | true)`needsRenaming,
               (iset s: Symbol {:trigger s.name} | true)`columns
      ensures r.Ok? ==> Valid() && Restored() && FragmentGrounded(r.value)
      ensures r.Ok? ==> r.value.Statement? && r.value.st.select.fragments == [pf]
      ensures r.Ok? ==> SameClauses(StartOf(visited, ProjectKind).(select := r.value.st.select), r.value.st)
      decreases Size(e), 18
    {
      pf := Text("");
      var o;
      o, visited := OpenInput(e.input, ProjectKind, Size(e));
      if o.Fail? {
        return Fail(o.error), pf, visited;
      }
      var p := VisitProjection(e.projection, Size(e));
      if p.Fail? {
        return Fail(p.error), pf, visited;
      }
      pf := p.value;
      var top := CloseInput();
      r := Ok(Statement(AppendClause(top, SelectClause, [pf])));
      AppendedOver(StartOf(visited, ProjectKind), o.value, top, SelectClause, [pf]);
    }

    /** The projection of a Project: a row constructor through
        VisitNewInstanceExpression, anything else visited as it is. */
    method VisitProjection(p: Expr, ghost size: nat) returns (r: Result<Fragment>)
      requires Valid() && Size(p) < size
      modifies this, symbolTable, extentNames, columnNames,
               (iset s: Symbol {:trigger s.name} | true)`needsRenaming,
               (iset s: Symbol {:trigger s.name} | true)`columns
      ensures r.Ok? ==> Valid() && Restored() && FragmentGrounded(r.value)
      decreases size, 17
    {
      if p.Nary? && p.nary == NewInstance {
        ghost var texts;
        r, texts := VisitNewInstanceExpression(p);
      } else {
        r := Accept(p);
      }
    }

    /** Visit(DbSortExpression): the sort keys as the ORDER BY clause. */
    method VisitSort(e: Expr) returns (r: Result<Fragment>, keys: seq<Fragment>, visited: SqlSelectStatement)
      requires Valid() && e.Sort?
      modifies this, symbolTable, extentNames, columnNames,
               (iset s: Symbol {:trigger s.name} | true)`needsRenaming,
               (iset s: Symbol {:trigger s.name} | true)`columns
      ensures r.Ok? ==> Valid() && Restored() && FragmentGrounded(r.value)
      ensures r.Ok? ==> |keys| == |e.sortOrder| && r.value.Statement? &&
                        r.value.st.orderBy.fragments == SortLayout(e.sortOrder, keys)
      ensures r.Ok? ==> SameClauses(StartOf(visited, SortKind).(orderBy := r.value.st.orderBy), r.value.st)
      decreases Size(e), 18
    {
      keys := [];
      var st;
      st, keys, visited := SortedStatement(e.input, e.sortOrder, SortKind, Size(e));
      r := if st.Ok? then Ok(Statement(st.value)) else Fail(st.error);
    }

    /** Visit(DbSkipExpression): the sort keys as the ORDER BY clause, then
        the count as the SKIP clause (replacing any earlier one). */
    method VisitSkip(e: Expr) returns (r: Result<Fragment>, keys: seq<Fragment>, cf: Fragment,
                                      visited: SqlSelectStatement)
      requires Valid() && e.Skip?
      modifies this, symbolTable, extentNames, columnNames,
               (iset s: Symbol {:trigger s.name} | true)`needsRenaming,
               (iset s: Symbol {:trigger s.name} | true)`columns
      ensures r.Ok? ==> Valid() && Restored() && FragmentGrounded(r.value)
      ensures r.Ok? ==> |keys| == |e.sortOrder| && r.value.Statement? &&
                        r.value.st.orderBy.fragments == SortLayout(e.sortOrder, keys) &&
                        r.value.st.skip == Some(SkipClause(cf))
      ensures r.Ok? && e.count.Leaf? && e.count.leaf.Constant? ==>
                cf == Builder(SqlBuilder([Text(ValueToString(e.count.leaf.value))]))
      ensures r.Ok? ==>
                SameClauses(StartOf(visited, SkipKind).(orderBy := r.value.st.orderBy, skip := r.value.st.skip), r.value.st)
      decreases Size(e), 18
    {
      keys, cf := [], Text("");
      var st;
      st, keys, visited := SortedStatement(e.input, e.sortOrder, SkipKind, Size(e));
      if st.Fail? {
        return Fail(st.error), keys, cf, visited;
      }
      ghost var s1 := statementStack;
      var c := HandleCountExpression(e.count);
      if c.Fail? {
        return Fail(c.error), keys, cf, visited;
      }
      StackKeptTrans(old(statementStack), s1, statementStack, IsParentAJoin());
      cf := c.value;
      r := Ok(Statement(st.value.(skip := Some(SkipClause(cf)))));
    }

    /** The part Sort and Skip share: the input's statement with AddSortKeys
        over the sort clauses as its ORDER BY clause. */
    method SortedStatement(input: Binding, cs: seq<SortClause>, kind: StatementKind, ghost size: nat)
      returns (r: Result<SqlSelectStatement>, keys: seq<Fragment>, visited: SqlSelectStatement)
      requires Valid() && (kind == SortKind || kind == SkipKind)
      requires Size(input.expression) < size && SizeSorts(cs) < size
      modifies this, symbolTable, extentNames, columnNames,
               (iset s: Symbol {:trigger s.name} | true)`needsRenaming,
               (iset s: Symbol {:trigger s.name} | true)`columns
      ensures r.Ok? ==> Valid() && Restored() && Grounded(r.value)
      ensures r.Ok? ==> |keys| == |cs| && r.value.orderBy.fragments == SortLayout(cs, keys)
      ensures r.Ok? ==> SameClauses(StartOf(visited, kind).(orderBy := r.value.orderBy), r.value)
      decreases size, 17
    {
      keys := [];
      var o;
      o, visited := OpenInput(input, kind, size);
      if o.Fail? {
        return Fail(o.error), keys, visited;
      }
      var x := VisitAll(SortKeys(cs), size);
      if x.Fail? {
        return Fail(x.error), keys, visited;
      }
      keys := x.value;
      var top := CloseInput();
      r := Ok(AppendClause(top, OrderByClause, SortLayout(cs, keys)));
      SortedOver(StartOf(visited, kind), o.value, top, cs, keys);
    }

    /** Visit(DbLimitExpression): the argument's statement (without
        default columns), or a new statement over it when it already has a
        TOP, with the count as its TOP clause. */
    method VisitLimit(e: Expr) returns (r: Result<Fragment>, st: SqlSelectStatement, cf: Fragment,
                                       inner: SqlSelectStatement)
      requires Valid() && e.Limit?
      modifies this, symbolTable, extentNames, columnNames,
               (iset s: Symbol {:trigger s.name} | true)`needsRenaming,
               (iset s: Symbol {:trigger s.name} | true)`columns
      ensures r.Ok? ==> Valid() && Restored() && FragmentGrounded(r.value)
      ensures r.Ok? ==> r.value.Statement? && r.value.st.top == Some(TopClause(cf, e.withTies))
      ensures r.Ok? && Reusable(st, LimitKind) ==> r.value.st == st.(top := Some(TopClause(cf, e.withTies)))
      ensures r.Ok? && !Reusable(st, LimitKind) ==>
                r.value.st == NestedStatement(inner).(fromExtents := r.value.st.fromExtents, top := Some(TopClause(cf, e.withTies))) &&
                inner.(select := st.select) == st
      ensures r.Ok? && e.limit.Leaf? && e.limit.leaf.Constant? ==>
                cf == Builder(SqlBuilder([Text(ValueToString(e.limit.leaf.value))]))
      decreases Size(e), 18
    {
      st, cf, inner := NewStatement, Text(""), NewStatement;
      var a := EnsureSqlStatement(e.argument, false);
      if a.Fail? {
        return Fail(a.error), st, cf, inner;
      }
      st := a.value;
      var w;
      w, inner := WrapUnlessReusable(st, LimitKind, "top", GetElementTypeUsage(e.argument.ty));
      if w.Fail? {
        return Fail(w.error), st, cf, inner;
      }
      var c := HandleCountExpression(e.limit);
      if c.Fail? {
        return Fail(c.error), st, cf, inner;
      }
      cf := c.value;
      r := Ok(Statement(w.value.WithTop(TopClause(cf, e.withTies))));
    }

    /** Visit(DbDistinctExpression): the argument's statement, or a new
        statement over it when it has a TOP or an ORDER BY, marked
        DISTINCT. */
    method VisitDistinct(e: Expr) returns (r: Result<Fragment>, st: SqlSelectStatement, inner: SqlSelectStatement)
      requires Valid() && e.Unary? && e.unary == Distinct
      modifies this, symbolTable, extentNames, columnNames,
               (iset s: Symbol {:trigger s.name} | true)`needsRenaming,
               (iset s: Symbol {:trigger s.name} | true)`columns
      ensures r.Ok? ==> Valid() && Restored() && FragmentGrounded(r.value)
      ensures r.Ok? && Reusable(st, DistinctKind) ==> r == Ok(Statement(st.(isDistinct := true)))
      ensures r.Ok? && !Reusable(st, DistinctKind) ==>
                r.value.Statement? &&
                r.value.st == NestedStatement(inner).(fromExtents := r.value.st.fromExtents, isDistinct := true) &&
                inner.(select := st.select) == st
      decreases Size(e), 18
    {
      st, inner := NewStatement, NewStatement;
      var a := EnsureSqlStatement(e.argument, true);
      if a.Fail? {
        return Fail(a.error), st, inner;
      }
      st := a.value;
      var w;
      w, inner := WrapUnlessReusable(st, DistinctKind, "DISTINCT", GetElementTypeUsage(e.argument.ty));
      if w.Fail? {
        return Fail(w.error), st, inner;
      }
      r := Ok(Statement(w.value.(isDistinct := true)));
    }

    /** Visit(DbGroupByExpression): the input's statement, compatible with
        a GROUP BY, bound to both the element and the group variable, and
        the grouping over it (see GroupedAs). */
    method VisitGroupBy(e: Expr)
      returns (r: Result<Fragment>, keyTexts: seq<Fragment>, argTexts: seq<Fragment>, inner: Option<Symbol>,
               innerQuery: SqlSelectStatement, visited: SqlSelectStatement)
      requires Valid() && e.GroupBy?
      modifies this, symbolTable, extentNames, columnNames,
               (iset s: Symbol {:trigger s.name} | true)`needsRenaming,
               (iset s: Symbol {:trigger s.name} | true)`columns
      ensures r.Ok? ==> Valid() && Restored() && FragmentGrounded(r.value)
      ensures r.Ok? ==> r.value.Statement? && GroupedAs(e, StartOf(visited, GroupByKind), r.value.st, keyTexts, argTexts,
                                                      inner, innerQuery)
      decreases Size(e), 18
    {
      keyTexts, argTexts, inner, innerQuery := [], [], None, NewStatement;
      var o;
      o, visited := OpenGroupInput(e);
      if o.Fail? {
        return Fail(o.error), keyTexts, argTexts, inner, innerQuery, visited;
      }
      r, keyTexts, argTexts, inner, innerQuery := GroupOver(e, o.value);
    }

    /** The grouping over the input's statement `current`, the current
        statement: the keys aliased as the result row's first members in
        the SELECT list and listed in the GROUP BY clause, then the
        aggregates aliased as the following members. When some
        aggregate's argument is not a property of a variable, the keys'
        and arguments' texts go into `current` as an inner query, and a new
        statement over it selects, groups by and aggregates the inner
        query's columns. The current statement is popped and its scope
        left. */
    method GroupOver(e: Expr, current: SqlSelectStatement)
      returns (r: Result<Fragment>, keyTexts: seq<Fragment>, argTexts: seq<Fragment>, inner: Option<Symbol>,
               innerQuery: SqlSelectStatement)
      requires Valid() && e.GroupBy? && Reusable(current, GroupByKind) && |symbolTable.scopes| > 0
      requires |statementStack| > 0 && statementStack[|statementStack| - 1] == current
      modifies this, symbolTable, extentNames, columnNames,
               (iset s: Symbol {:trigger s.name} | true)`needsRenaming,
               (iset s: Symbol {:trigger s.name} | true)`columns
      ensures r.Ok? ==> Valid() && FragmentGrounded(r.value) &&
                        statementStack == old(statementStack)[..|old(statementStack)| - 1] &&
                        parentJoinStack == old(parentJoinStack) &&
                        symbolTable.scopes == old(symbolTable.scopes)[..|old(symbolTable.scopes)| - 1]
      ensures r.Ok? ==> r.value.Statement? && GroupedAs(e, current, r.value.st, keyTexts, argTexts, inner, innerQuery)
      decreases Size(e), 17
    {
      keyTexts, argTexts, inner, innerQuery := [], [], None, NewStatement;
      var names := GroupRowNames(e.ty);
      if names.Fail? {
        return Fail(names.error), keyTexts, argTexts, inner, innerQuery;
      }
      var needs := NeedsInnerQuery(e.aggregates);
      if needs.Fail? {
        return Fail(needs.error), keyTexts, argTexts, inner, innerQuery;
      }
      var outer := NewStatement;
      if needs.value {
        outer, inner := InnerQueryOver(current, e.groupInput);
      }
      var keys;
      keys, argTexts := GroupByTexts(e, names.value);
      if keys.Fail? {
        return Fail(keys.error), keyTexts, argTexts, inner, innerQuery;
      }
      keyTexts := keys.value;
      var st;
      st, innerQuery := CloseGroup(e, current, outer, keyTexts, argTexts, inner);
      r := Ok(Statement(st));
    }

    /** The closing of a GROUP BY: the current statement, popped, gives
        the grouped statement. */
    method CloseGroup(e: Expr, current: SqlSelectStatement, outer: SqlSelectStatement,
                      keyTexts: seq<Fragment>, argTexts: seq<Fragment>, inner: Option<Symbol>)
      returns (st: SqlSelectStatement, innerQuery: SqlSelectStatement)
      requires Valid() && |statementStack| > 0 && |symbolTable.scopes| > 0
      requires e.GroupBy? && GroupRowNames(e.ty).Ok?
      requires |keyTexts| == |e.keys| && |argTexts| == |e.aggregates| &&
               |e.keys| + |e.aggregates| <= |GroupRowNames(e.ty).value|
      requires forall j :: 0 <= j < |e.aggregates| ==>
                 e.aggregates[j].FunctionAggregate? && |e.aggregates[j].arguments| > 0
      requires inner.Some? <==>
                 exists j :: 0 <= j < |e.aggregates| && !IsPropertyOverVarRef(e.aggregates[j].arguments[0])
      requires Reusable(current, GroupByKind) && SameClauses(current, statementStack[|statementStack| - 1])
      requires inner.Some? ==> outer == NestedStatement(current).(fromExtents := [inner.value]) &&
                               inner.value.WellFounded()
      modifies this, symbolTable
      ensures Valid() && Grounded(st) && GroupedAs(e, current, st, keyTexts, argTexts, inner, innerQuery)
      ensures statementStack == old(statementStack)[..|old(statementStack)| - 1] &&
              parentJoinStack == old(parentJoinStack) &&
              symbolTable.scopes == old(symbolTable.scopes)[..|old(symbolTable.scopes)| - 1]
    {
      var top := CloseInput();
      st, innerQuery := GroupedStatement(e, top, outer, keyTexts, argTexts, inner);
      GroupedAsBase(e, current, top, st, keyTexts, argTexts, inner, innerQuery);
    }

    /** The opening of a GROUP BY: the input's statement as for the other
        relational nodes, with the input's symbol bound to the group
        variable as well. */
    method OpenGroupInput(e: Expr) returns (r: Result<SqlSelectStatement>, visited: SqlSelectStatement)
      requires Valid() && e.GroupBy?
      modifies this, symbolTable, extentNames, columnNames,
               (iset s: Symbol {:trigger s.name} | true)`needsRenaming,
               (iset s: Symbol {:trigger s.name} | true)`columns
      ensures r.Ok? ==> Valid() && Reusable(r.value, GroupByKind) && |r.value.fromExtents| == 1 &&
                        |statementStack| > 0 && statementStack[|statementStack| - 1] == r.value &&
                        StackKept(old(statementStack), statementStack[..|statementStack| - 1], IsParentAJoin()) &&
                        parentJoinStack == old(parentJoinStack) &&
                        symbolTable.scopes == old(symbolTable.scopes) +
                          [map[Fold(e.groupInput.variableName) := r.value.fromExtents[0]]
                              [Fold(e.groupInput.groupVariableName) := r.value.fromExtents[0]]]
      ensures r.Ok? ==> SameClauses(StartOf(visited, GroupByKind), r.value)
      decreases Size(e), 17
    {
      var g := e.groupInput;
      r, visited := OpenInput(Binding(g.variableName, g.variableType, g.expression), GroupByKind, Size(e));
      if r.Fail? {
        return;
      }
      var _ := symbolTable.Add(g.groupVariableName, r.value.fromExtents[0]);
    }

    /** The new statement of a GROUP BY that needs an inner query: a
        statement over the input's one (not finalized), with a new symbol
        for it as its one FROM extent, which is not bound in the symbol
        table. */
    method InnerQueryOver(st: SqlSelectStatement, g: GroupBinding) returns (outer: SqlSelectStatement, inner: Option<Symbol>)
      requires Grounded(st)
      modifies extentNames, symbolTable, columnNames,
               (iset s: Symbol {:trigger s.name} | true)`needsRenaming,
               (iset s: Symbol {:trigger s.name} | true)`columns
      ensures inner.Some? && inner.value.WellFounded() && inner.value.name == g.variableName
      ensures outer == NestedStatement(st).(fromExtents := [inner.value])
      ensures symbolTable.scopes == old(symbolTable.scopes)
    {
      var c;
      ghost var copied;
      ghost var expansion, expandedColumns;
      c, copied, expansion, expandedColumns := CreateNewSelectStatement(st, g.variableName, Some(g.variableType), false);
      outer := AddFromSymbol(c.value.statement, g.variableName, c.value.fromSymbol, false);
      inner := Some(c.value.fromSymbol);
    }

    /** The keys' and the aggregates' arguments' texts, in the order the
        GROUP BY visits them: a key or aggregate without a member of the
        result row to name it is a null reference, an aggregate without an
        argument is out of range, and an aggregate that is not a function
        aggregate is not supported. */
    method GroupByTexts(e: Expr, names: seq<string>) returns (keys: Result<seq<Fragment>>, argTexts: seq<Fragment>)
      requires Valid() && e.GroupBy?
      modifies this, symbolTable, extentNames, columnNames,
               (iset s: Symbol {:trigger s.name} | true)`needsRenaming,
               (iset s: Symbol {:trigger s.name} | true)`columns
      ensures keys.Ok? ==> Valid() && Restored() && |keys.value| == |e.keys| && |argTexts| == |e.aggregates| &&
                           |e.keys| + |e.aggregates| <= |names| &&
                           forall j :: 0 <= j < |e.aggregates| ==>
                             e.aggregates[j].FunctionAggregate? && |e.aggregates[j].arguments| > 0
      ensures |names| < |e.keys| ==> keys.Fail?
      decreases Size(e), 16
    {
      argTexts := [];
      var n := if |e.keys| <= |names| then |e.keys| else |names|;
      keys := VisitAll(e.keys[..n], Size(e));
      if keys.Fail? {
        return;
      }
      if n < |e.keys| {
        return Fail(NullReference), argTexts;
      }
      assert e.keys[..n] == e.keys;
      var j := 0;
      while j < |e.aggregates|
        invariant 0 <= j <= |e.aggregates| && |argTexts| == j && |e.keys| + j <= |names|
        invariant forall i :: 0 <= i < j ==> e.aggregates[i].FunctionAggregate? && |e.aggregates[i].arguments| > 0
        invariant Valid() && Restored()
      {
        var x := VisitAggregateArgument(e, names, j);
        if x.Fail? {
          return Fail(x.error), argTexts;
        }
        argTexts := argTexts + [x.value];
        j := j + 1;
      }
    }

    /** One aggregate of a GROUP BY: its member of the result row, its
        one argument's text, and VisitAggregate's check that it is a
        function aggregate. */
    method VisitAggregateArgument(e: Expr, names: seq<string>, j: nat) returns (r: Result<Fragment>)
      requires Valid() && e.GroupBy? && j < |e.aggregates|
      modifies this, symbolTable, extentNames, columnNames,
               (iset s: Symbol {:trigger s.name} | true)`needsRenaming,
               (iset s: Symbol {:trigger s.name} | true)`columns
      ensures |names| <= |e.keys| + j ==> r == Fail(NullReference)
      ensures |e.keys| + j < |names| && |e.aggregates[j].arguments| == 0 ==> r == Fail(ArgumentOutOfRange)
      ensures r.Ok? ==> Valid() && Restored() && |e.keys| + j < |names| &&
                        e.aggregates[j].FunctionAggregate? && |e.aggregates[j].arguments| > 0
      decreases Size(e), 15
    {
      var a := e.aggregates[j];
      if |names| <= |e.keys| + j {
        return Fail(NullReference);
      }
      if |a.arguments| == 0 {
        return Fail(ArgumentOutOfRange);
      }
      assert Size(a.arguments[0]) <= SizeAll(a.arguments) <= SizeAggregates(e.aggregates);
      r := Accept(a.arguments[0]);
      if r.Fail? {
        return;
      }
      if !a.FunctionAggregate? {
        return Fail(NotSupported(""));
      }
    }

    /** VisitJoinExpression: a join outside a join starts a new statement
        (with an empty list of all join extents), a join inside one extends
        the current statement. In a new scope each input follows its
        separator, visited with the join flag set for an extent and for a
        leftmost join, and is then processed into the FROM clause; then
        comes the ON condition, visited outside any join. The statement is
        popped again when the join started it. */
    method VisitJoinExpression(inputs: seq<Binding>, joinString: string, cond: Option<Expr>, ghost size: nat)
      returns (r: Result<Fragment>, ghost base: SqlSelectStatement, ghost frags: seq<Fragment>, ghost segments: seq<seq<Fragment>>,
               ghost syms: seq<Symbol>, ghost condText: Option<Fragment>)
      requires Valid() && (forall i :: 0 <= i < |inputs| ==> Size(inputs[i].expression) < size)
      requires cond.Some? ==> Size(cond.value) < size
      modifies this, symbolTable, extentNames, columnNames,
               (iset s: Symbol {:trigger s.name} | true)`needsRenaming,
               (iset s: Symbol {:trigger s.name} | true)`columns
      ensures r.Ok? ==> Valid() && Restored() && FragmentGrounded(r.value)
      ensures r.Ok? && IsParentAJoin() ==>
                |statementStack| > 0 && r.value == Statement(statementStack[|statementStack| - 1])
      ensures r.Ok? ==> base == if IsParentAJoin() then old(statementStack)[|old(statementStack)| - 1] else JoinStatement()
      ensures r.Ok? ==> r.value.Statement? && (cond.Some? <==> condText.Some?) &&
                        JoinedAs(base, r.value.st, inputs, joinString, frags, segments, syms, condText)
      decreases size, 18
    {
      base, frags, segments, syms, condText := JoinStatement(), [], [], [], None;
      var st;
      if !IsParentAJoin() {
        st, frags, segments, syms, condText := OwnedJoin(inputs, joinString, cond, size);
        if st.Fail? {
          return Fail(st.error), base, frags, segments, syms, condText;
        }
      } else {
        if |statementStack| == 0 {
          return Fail(InvalidOperation("")), base, frags, segments, syms, condText;
        }
        base := statementStack[|statementStack| - 1];
        st, frags, segments, syms, condText := JoinBody(inputs, joinString, cond, size);
        if st.Fail? {
          return Fail(st.error), base, frags, segments, syms, condText;
        }
        StackKeptJoined(old(statementStack), statementStack);
      }
      r := Ok(Statement(st.value));
    }

    /** A join that starts its own statement: the empty join statement is
        pushed for the inputs and the condition, and popped again. */
    method OwnedJoin(inputs: seq<Binding>, joinString: string, cond: Option<Expr>, ghost size: nat)
      returns (r: Result<SqlSelectStatement>, frags: seq<Fragment>, ghost segments: seq<seq<Fragment>>,
               syms: seq<Symbol>, ghost condText: Option<Fragment>)
      requires Valid() && (forall i :: 0 <= i < |inputs| ==> Size(inputs[i].expression) < size)
      requires cond.Some? ==> Size(cond.value) < size
      modifies this, symbolTable, extentNames, columnNames,
               (iset s: Symbol {:trigger s.name} | true)`needsRenaming,
               (iset s: Symbol {:trigger s.name} | true)`columns
      ensures r.Ok? ==> Valid() && statementStack == old(statementStack) &&
                        parentJoinStack == old(parentJoinStack) && symbolTable.scopes == old(symbolTable.scopes)
      ensures r.Ok? ==> Grounded(r.value) && (cond.Some? <==> condText.Some?) &&
                        JoinedAs(JoinStatement(), r.value, inputs, joinString, frags, segments, syms, condText)
      decreases size, 17
    {
      statementStack := statementStack + [JoinStatement()];
      r, frags, segments, syms, condText := JoinBody(inputs, joinString, cond, size);
      if r.Fail? {
        return;
      }
      statementStack := statementStack[..|statementStack| - 1];
    }

    /** The inputs and the ON condition of a join, in a scope of their
        own, added to the current statement. */
    method JoinBody(inputs: seq<Binding>, joinString: string, cond: Option<Expr>, ghost size: nat)
      returns (r: Result<SqlSelectStatement>, frags: seq<Fragment>, ghost segments: seq<seq<Fragment>>,
               syms: seq<Symbol>, ghost condText: Option<Fragment>)
      requires Valid() && (forall i :: 0 <= i < |inputs| ==> Size(inputs[i].expression) < size)
      requires cond.Some? ==> Size(cond.value) < size
      requires |statementStack| > 0
      modifies this, symbolTable, extentNames, columnNames,
               (iset s: Symbol {:trigger s.name} | true)`needsRenaming,
               (iset s: Symbol {:trigger s.name} | true)`columns
      ensures r.Ok? ==> Valid() && |statementStack| == |old(statementStack)| &&
                        statementStack[..|statementStack| - 1] == old(statementStack)[..|statementStack| - 1] &&
                        parentJoinStack == old(parentJoinStack) && symbolTable.scopes == old(symbolTable.scopes)
      ensures r.Ok? ==> var n := |statementStack| - 1;
                        r.value == statementStack[n] && (cond.Some? <==> condText.Some?) &&
                        JoinedAs(old(statementStack)[n], r.value, inputs, joinString, frags, segments, syms, condText) &&
                        Grown(old(statementStack)[n], r.value, true)
      decreases size, 16
    {
      frags, segments, syms, condText := [], [], [], None;
      var n := |statementStack| - 1;
      ghost var base := statementStack[n];
      symbolTable.EnterScope();
      var o;
      o, frags, segments, syms := JoinInputs(inputs, joinString, size);
      if o.Throw? {
        return Fail(o.error), frags, segments, syms, condText;
      }
      ghost var t1 := statementStack[n];
      if cond.Some? {
        var c := JoinCondition(cond.value, size);
        if c.Fail? {
          return Fail(c.error), frags, segments, syms, condText;
        }
        condText := Some(c.value);
      }
      var _ := symbolTable.ExitScope();
      r := Ok(statementStack[n]);
      JoinClosed(base, t1, r.value, inputs, joinString, frags, segments, syms, condText);
    }

    /** The inputs of a join, one after another, each extending the
        current statement's FROM clause and extents and binding its
        variable in the current scope. */
    method JoinInputs(inputs: seq<Binding>, joinString: string, ghost size: nat)
      returns (o: Outcome, frags: seq<Fragment>, ghost segments: seq<seq<Fragment>>, syms: seq<Symbol>)
      requires Valid() && (forall i :: 0 <= i < |inputs| ==> Size(inputs[i].expression) < size)
      requires |statementStack| > 0 && |symbolTable.scopes| > 0
      modifies this, symbolTable, extentNames, columnNames,
               (iset s: Symbol {:trigger s.name} | true)`needsRenaming,
               (iset s: Symbol {:trigger s.name} | true)`columns
      ensures o.Done? ==> Valid() && |statementStack| == |old(statementStack)| &&
                          statementStack[..|statementStack| - 1] == old(statementStack)[..|statementStack| - 1] &&
                          parentJoinStack == old(parentJoinStack) &&
                          |symbolTable.scopes| == |old(symbolTable.scopes)| &&
                          symbolTable.scopes[..|symbolTable.scopes| - 1] == old(symbolTable.scopes)[..|symbolTable.scopes| - 1]
      ensures o.Done? ==> var n := |statementStack| - 1;
                          |segments| == |inputs| &&
                          JoinedInputs(old(statementStack)[n], statementStack[n], inputs, joinString, frags, segments, syms)
      decreases size, 15
    {
      frags, segments, syms := [], [], [];
      var n := |statementStack| - 1;
      ghost var t0 := statementStack[n];
      ghost var below := statementStack[..n];
      ghost var scopes := symbolTable.scopes[..|symbolTable.scopes| - 1];
      var i := 0;
      while i < |inputs|
        invariant 0 <= i <= |inputs| && Valid()
        invariant |statementStack| == n + 1 && statementStack[..n] == below
        invariant parentJoinStack == old(parentJoinStack)
        invariant |symbolTable.scopes| == |scopes| + 1 && symbolTable.scopes[..|scopes|] == scopes
        invariant |segments| == i && JoinedInputs(t0, statementStack[n], inputs, joinString, frags, segments, syms)
      {
        ghost var t := statementStack[n];
        var x, f;
        ghost var seg;
        x, f, seg := JoinInputAt(inputs, i, joinString, size);
        if x.Fail? {
          return Throw(x.error), frags, segments, syms;
        }
        JoinedInputsSnoc(t0, t, statementStack[n], inputs, i, joinString, frags, segments, syms, f, seg, x.value);
        frags, segments, syms := frags + [f], segments + [seg], syms + [x.value];
        i := i + 1;
      }
      o := Done;
    }

    /** One input of a join: its separator in the FROM clause, the input
        visited with its join flag, then ProcessJoinInputResult, with the
        FROM extents the visit added counted from where they stood
        before it. */
    method JoinInputAt(inputs: seq<Binding>, i: nat, joinString: string, ghost size: nat)
      returns (r: Result<Symbol>, f: Fragment, ghost seg: seq<Fragment>)
      requires Valid() && i < |inputs| && Size(inputs[i].expression) < size
      requires |statementStack| > 0 && |symbolTable.scopes| > 0
      modifies this, symbolTable, extentNames, columnNames,
               (iset s: Symbol {:trigger s.name} | true)`needsRenaming,
               (iset s: Symbol {:trigger s.name} | true)`columns
      ensures r.Ok? ==> Valid() && |statementStack| == |old(statementStack)| &&
                        statementStack[..|statementStack| - 1] == old(statementStack)[..|statementStack| - 1] &&
                        parentJoinStack == old(parentJoinStack) &&
                        |symbolTable.scopes| == |old(symbolTable.scopes)| &&
                        symbolTable.scopes[..|symbolTable.scopes| - 1] == old(symbolTable.scopes)[..|symbolTable.scopes| - 1]
      ensures r.Ok? ==> var n := |statementStack| - 1;
                        var t, t' := old(statementStack)[n], statementStack[n];
                        SameClauses(t, t') && t'.fromExtents == t.fromExtents + [r.value] &&
                        t'.from.fragments == t.from.fragments + seg &&
                        InputLaid(inputs, i, joinString, f, seg, r.value)
      decreases size, 14
    {
      f, seg := Text(""), [];
      var n := |statementStack| - 1;
      ghost var t := statementStack[n];
      var separator := JoinSeparator(i, joinString);
      AppendToFrom(separator);
      ghost var t1 := statementStack[n];
      var start := |statementStack[n].fromExtents|;
      var e := inputs[i].expression;
      var x := VisitJoinInput(e, i, size);
      if x.Fail? {
        return Fail(x.error), f, seg;
      }
      f := x.value;
      ghost var t2 := statementStack[n];
      var body;
      r, body := ProcessJoinInputResult(f, inputs[i], start, ReusesJoin(i, e));
      if r.Fail? {
        return;
      }
      seg := separator + t2.from.fragments[|t1.from.fragments|..] + body;
      JoinInputLaidOut(inputs, i, joinString, t, t1, t2, statementStack[n], f, body, r.value, start);
    }

    /** Text appended to the current statement's FROM clause. */
    method AppendToFrom(fs: seq<Fragment>)
      requires Valid() && |statementStack| > 0
      modifies this
      ensures Valid() && |statementStack| == |old(statementStack)| &&
              statementStack[..|statementStack| - 1] == old(statementStack)[..|statementStack| - 1]
      ensures var n := |statementStack| - 1;
              var t := old(statementStack)[n];
              statementStack[n] == t.(from := SqlBuilder(t.from.fragments + fs))
      ensures parentJoinStack == old(parentJoinStack)
    {
      var n := |statementStack| - 1;
      var t := statementStack[n];
      statementStack := statementStack[..n] + [t.(from := SqlBuilder(t.from.fragments + fs))];
    }

    /** A join input visited with its join flag pushed: the current
        statement grows only when the input is a reused leftmost join. */
    method VisitJoinInput(e: Expr, i: nat, ghost size: nat) returns (r: Result<Fragment>)
      requires Valid() && Size(e) < size && |statementStack| > 0
      modifies this, symbolTable, extentNames, columnNames,
               (iset s: Symbol {:trigger s.name} | true)`needsRenaming,
               (iset s: Symbol {:trigger s.name} | true)`columns
      ensures r.Ok? ==> Valid() && FragmentGrounded(r.value) && |statementStack| == |old(statementStack)| &&
                        statementStack[..|statementStack| - 1] == old(statementStack)[..|statementStack| - 1] &&
                        parentJoinStack == old(parentJoinStack) && symbolTable.scopes == old(symbolTable.scopes)
      ensures r.Ok? ==> var n := |statementStack| - 1;
                        Grown(old(statementStack)[n], statementStack[n], true) &&
                        (!ReusesJoin(i, e) ==> statementStack[n] == old(statementStack)[n] ||
                                               Grown(old(statementStack)[n], statementStack[n], false))
      decreases size, 13
    {
      parentJoinStack := parentJoinStack + [NeedsJoinContext(i, e)];
      r := Accept(e);
      if r.Fail? {
        return;
      }
      parentJoinStack := parentJoinStack[..|parentJoinStack| - 1];
    }

    /** ProcessJoinInputResult: after a join input is visited. A reused
        leftmost join's FROM extents, those from `start` on, are replaced
        by one join symbol bound to the input variable. Any other input's
        FROM item is appended to the FROM clause, and its symbol becomes a
        FROM extent, an extent name, the binding of the input variable and
        one of all the join's extents. */
    method ProcessJoinInputResult(f: Fragment, input: Binding, start: nat, reused: bool)
      returns (r: Result<Symbol>, body: seq<Fragment>)
      requires Valid() && |statementStack| > 0 && |symbolTable.scopes| > 0 && FragmentGrounded(f)
      requires start <= |statementStack[|statementStack| - 1].fromExtents|
      requires !reused ==> start == |statementStack[|statementStack| - 1].fromExtents|
      modifies this, symbolTable, extentNames, columnNames,
               (iset s: Symbol {:trigger s.name} | true)`needsRenaming,
               (iset s: Symbol {:trigger s.name} | true)`columns
      ensures r.Ok? ==> Valid() && |statementStack| == |old(statementStack)| &&
                        statementStack[..|statementStack| - 1] == old(statementStack)[..|statementStack| - 1] &&
                        parentJoinStack == old(parentJoinStack) &&
                        r.value.name == input.variableName && (reused ==> r.value.isJoin)
      ensures r.Ok? ==> var n := |statementStack| - 1;
                        var t, t' := old(statementStack)[n], statementStack[n];
                        SameClauses(t, t') && t'.fromExtents == t.fromExtents[..start] + [r.value] &&
                        t'.from.fragments == t.from.fragments + body &&
                        (reused ==> body == [] && r.value.extentList == t.fromExtents[start..]) &&
                        (!reused ==> JoinInputLaid(input.expression, f, body))
      ensures r.Ok? ==> var m := |old(symbolTable.scopes)| - 1;
                        symbolTable.scopes ==
                          old(symbolTable.scopes)[..m] + [old(symbolTable.scopes)[m][Fold(input.variableName) := r.value]]
    {
      body := [];
      if reused {
        r := ReuseJoinInput(input, start);
        return;
      }
      var item, _, _ := JoinInputItem(f, input);
      if item.Fail? {
        return Fail(item.error), body;
      }
      body := item.value.0;
      r := AddJoinInput(body, input, item.value.1);
    }

    /** A reused leftmost join: the FROM extents it added, from `start` on,
        become one join symbol, bound to the input variable. */
    method ReuseJoinInput(input: Binding, start: nat) returns (r: Result<Symbol>)
      requires Valid() && |statementStack| > 0 && |symbolTable.scopes| > 0
      requires start <= |statementStack[|statementStack| - 1].fromExtents|
      modifies this, symbolTable
      ensures r.Ok? && Valid() && |statementStack| == |old(statementStack)| &&
              statementStack[..|statementStack| - 1] == old(statementStack)[..|statementStack| - 1] &&
              parentJoinStack == old(parentJoinStack) && r.value.name == input.variableName && r.value.isJoin
      ensures var n := |statementStack| - 1;
              var t, t' := old(statementStack)[n], statementStack[n];
              t' == t.(fromExtents := t.fromExtents[..start] + [r.value]) && r.value.extentList == t.fromExtents[start..]
      ensures var m := |old(symbolTable.scopes)| - 1;
              symbolTable.scopes ==
                old(symbolTable.scopes)[..m] + [old(symbolTable.scopes)[m][Fold(input.variableName) := r.value]]
    {
      var n := |statementStack| - 1;
      var t := statementStack[n];
      var j := new Symbol.Join(input.variableName, Some(input.variableType), t.fromExtents[start..]);
      statementStack := statementStack[..n] + [t.(fromExtents := t.fromExtents[..start] + [j])];
      var _ := symbolTable.Add(input.variableName, j);
      r := Ok(j);
    }

    /** A nested join symbol named `name`, of type `ty`: over `extents`,
        with the columns and the flattened extents given. */
    static method NestedJoinSymbol(name: string, ty: Option<TypeUsage>, extents: seq<Symbol>, columnList: seq<Symbol>,
                                   flattened: seq<Symbol>) returns (j: Symbol)
      requires forall s :: s in extents ==> s.WellFounded()
      ensures fresh(j) && j.WellFounded() && j.name == name && j.newName == name
      ensures j.isJoin && j.isNestedJoin && j.extentList == extents && j.typeUsage == ty
      ensures j.columnList == columnList && j.flattenedExtentList == flattened
    {
      j := new Symbol.Join(name, ty, extents);
      j.isNestedJoin := true;
      j.columnList := columnList;
      j.flattenedExtentList := flattened;
    }

    /** A join input's statement that selects nothing gets its default
        columns and, when the input is a join or the statement stands over
        one, a nested join symbol carrying those columns (null otherwise).
        A statement over no extent, for any other input, is an index out of
        range. */
    method CompleteJoinInput(st: SqlSelectStatement, input: Binding)
      returns (r: Result<(SqlSelectStatement, Symbol?)>, ghost parts: seq<seq<Fragment>>, ghost cols: seq<seq<Symbol>>)
      requires Grounded(st)
      modifies columnNames, (iset s: Symbol {:trigger s.name} | true)`needsRenaming,
               (iset s: Symbol {:trigger s.name} | true)`columns
      ensures r.Ok? ==> r.value.0 == st.(select := SqlBuilder(st.select.fragments + Concat(parts))) &&
                        Expanded(st.fromExtents, old(ShapesOf(st.fromExtents)), st.select.fragments, parts, cols,
                                 columnNames.names)
      ensures r.Ok? && r.value.1 != null ==>
                fresh(r.value.1) && r.value.1.WellFounded() && r.value.1.name == input.variableName &&
                r.value.1.isJoin && r.value.1.isNestedJoin && r.value.1.columnList == Concat(cols)
      ensures r.Ok? && (IsJoinExpression(input.expression) || IsApplyExpression(input.expression)) ==>
                r.value.1 != null && r.value.1.extentList == st.fromExtents && r.value.1.flattenedExtentList == []
      ensures r.Ok? && !(IsJoinExpression(input.expression) || IsApplyExpression(input.expression)) ==>
                |st.fromExtents| > 0 && (r.value.1 != null <==> st.fromExtents[0].isJoin) &&
                (r.value.1 != null ==> r.value.1.extentList == st.fromExtents[0].extentList &&
                                       r.value.1.flattenedExtentList == st.fromExtents[0].flattenedExtentList)
      ensures r.Fail? ==> r.error == NullReference || r.error == ArgumentOutOfRange
    {
      var cols0;
      cols0, parts, cols := AddDefaultColumns(st);
      if cols0.Fail? {
        return Fail(cols0.error), parts, cols;
      }
      var sym: Symbol? := null;
      if IsJoinExpression(input.expression) || IsApplyExpression(input.expression) {
        sym := NestedJoinSymbol(input.variableName, Some(input.variableType), st.fromExtents,
                                cols0.value.columns.columnList, []);
      } else if |st.fromExtents| == 0 {
        return Fail(ArgumentOutOfRange), parts, cols;
      } else if st.fromExtents[0].isJoin {
        var first := st.fromExtents[0];
        assert first.WellFounded();
        sym := NestedJoinSymbol(input.variableName, Some(input.variableType), first.extentList,
                                cols0.value.columns.columnList, first.flattenedExtentList);
      }
      r := Ok((cols0.value.statement, sym));
    }

    /** The FROM item of a join input that does not reuse the statement,
        and its symbol: a statement selecting nothing first gets its
        default columns and, when the input is a join or the statement
        stands over one, a nested join symbol; any other input a new
        symbol. */
    method JoinInputItem(f: Fragment, input: Binding)
      returns (r: Result<(seq<Fragment>, Symbol)>, ghost parts: seq<seq<Fragment>>, ghost cols: seq<seq<Symbol>>)
      requires FragmentGrounded(f)
      modifies columnNames, (iset s: Symbol {:trigger s.name} | true)`needsRenaming,
               (iset s: Symbol {:trigger s.name} | true)`columns
      ensures r.Ok? ==> JoinInputLaid(input.expression, f, r.value.0) && fresh(r.value.1) &&
                        r.value.1.WellFounded() && r.value.1.name == input.variableName
      ensures r.Ok? && f.Statement? && !f.st.select.IsEmpty() ==> r.value.0[1].st == f.st && !r.value.1.isJoin
      ensures r.Ok? && f.Statement? && f.st.select.IsEmpty() ==>
                r.value.0[1].st == f.st.(select := SqlBuilder(Concat(parts))) &&
                Expanded(f.st.fromExtents, old(ShapesOf(f.st.fromExtents)), [], parts, cols, columnNames.names)
      ensures r.Ok? && f.Statement? && f.st.select.IsEmpty() ==>
                (IsJoinExpression(input.expression) || IsApplyExpression(input.expression) || |f.st.fromExtents| > 0) &&
                (r.value.1.isJoin <==> IsJoinExpression(input.expression) || IsApplyExpression(input.expression) ||
                                       f.st.fromExtents[0].isJoin) &&
                (r.value.1.isJoin ==> r.value.1.isNestedJoin && r.value.1.columnList == Concat(cols))
      ensures r.Ok? && !f.Statement? ==> !r.value.1.isJoin
      ensures r.Fail? ==> r.error == NullReference || r.error == ArgumentOutOfRange
    {
      parts, cols := [], [];
      var sym: Symbol? := null;
      var body;
      if f.Statement? {
        var st := f.st;
        if st.select.IsEmpty() {
          var completed;
          completed, parts, cols := CompleteJoinInput(st, input);
          if completed.Fail? {
            return Fail(completed.error), parts, cols;
          }
          st, sym := completed.value.0, completed.value.1;
        }
        body := [Text(" ("), Statement(st), Text(" )")];
      } else if input.expression.Leaf? && input.expression.leaf.Scan? {
        body := [f];
      } else {
        body := WrapNonQueryExtent(input.expression, f);
      }
      if sym == null {
        sym := new Symbol(input.variableName, Some(input.variableType));
      }
      r := Ok((body, sym));
    }

    /** The FROM item appended to the current statement, its symbol added
        by AddFromSymbol (as a FROM extent, an extent name and the binding
        of the input variable) and to all the join's extents, which the
        statement must keep. */
    method AddJoinInput(body: seq<Fragment>, input: Binding, sym: Symbol) returns (r: Result<Symbol>)
      requires Valid() && |statementStack| > 0 && |symbolTable.scopes| > 0 && sym.WellFounded()
      requires sym !in statementStack[|statementStack| - 1].fromExtents
      modifies this, symbolTable, extentNames
      ensures r.Ok? ==> r.value == sym && Valid() && |statementStack| == |old(statementStack)| &&
                        statementStack[..|statementStack| - 1] == old(statementStack)[..|statementStack| - 1] &&
                        parentJoinStack == old(parentJoinStack)
      ensures r.Ok? ==> var n := |statementStack| - 1;
                        var t, t' := old(statementStack)[n], statementStack[n];
                        SameClauses(t, t') && t'.fromExtents == t.fromExtents + [sym] &&
                        t'.from.fragments == t.from.fragments + body &&
                        t.allJoinExtents.Some? && t'.allJoinExtents == Some(t.allJoinExtents.value + [sym])
      ensures r.Fail? ==> r.error == NullReference
      ensures var m := |old(symbolTable.scopes)| - 1;
              symbolTable.scopes ==
                old(symbolTable.scopes)[..m] + [old(symbolTable.scopes)[m][Fold(input.variableName) := sym]]
    {
      var n := |statementStack| - 1;
      var t := statementStack[n];
      var added := AddFromSymbol(t.(from := SqlBuilder(t.from.fragments + body)), input.variableName, sym, true);
      if added.allJoinExtents.None? {
        return Fail(NullReference);
      }
      statementStack := statementStack[..n] + [added.(allJoinExtents := Some(added.allJoinExtents.value + [sym]))];
      r := Ok(sym);
    }

    /** The ON condition of a join: ` ON ` and the condition's text, the
        condition visited outside any join. */
    method JoinCondition(cond: Expr, ghost size: nat) returns (r: Result<Fragment>)
      requires Valid() && Size(cond) < size && |statementStack| > 0
      modifies this, symbolTable, extentNames, columnNames,
               (iset s: Symbol {:trigger s.name} | true)`needsRenaming,
               (iset s: Symbol {:trigger s.name} | true)`columns
      ensures r.Ok? ==> Valid() && |statementStack| == |old(statementStack)| &&
                        statementStack[..|statementStack| - 1] == old(statementStack)[..|statementStack| - 1] &&
                        parentJoinStack == old(parentJoinStack) && symbolTable.scopes == old(symbolTable.scopes)
      ensures r.Ok? ==> var n := |statementStack| - 1;
                        var t, t' := old(statementStack)[n], statementStack[n];
                        SameClauses(t, t') && t'.fromExtents == t.fromExtents &&
                        t'.from.fragments == t.from.fragments + [Text(" ON "), r.value]
      decreases size, 15
    {
      var n := |statementStack| - 1;
      var t := statementStack[n];
      statementStack := statementStack[..n] + [t.(from := SqlBuilder(t.from.fragments + [Text(" ON ")]))];
      parentJoinStack := parentJoinStack + [false];
      r := Accept(cond);
      if r.Fail? {
        return;
      }
      parentJoinStack := parentJoinStack[..|parentJoinStack| - 1];
      var t2 := statementStack[n];
      statementStack := statementStack[..n] + [t2.(from := SqlBuilder(t2.from.fragments + [r.value]))];
    }

    // -------------------------------------------------------------------
    // The query entry point

    /** GenerateSql(DbQueryCommandTree): the stacks and both name registries
        start afresh; a collection-valued query becomes the top-most
        statement and any other query `SELECT ` and its translation. A
        variable reference still pending at the end is a
        NotSupportedException; otherwise the result is written by a new
        writer, whose text is the command text. */
    method GenerateQuerySql(query: Expr) returns (r: Result<string>, ghost result: Fragment, ghost events: seq<WriteEvent>)
      modifies this, symbolTable, extentNames, columnNames,
               (iset s: Symbol {:trigger s.name} | true)`needsRenaming,
               (iset s: Symbol {:trigger s.name} | true)`columns,
               (iset s: Symbol {:trigger s.name} | true)`newName
      ensures r.Ok? ==> !isVarRefSingle && FragmentWritten(result, events, -1) && r.value == Render(events, true).0
      ensures r.Ok? && IsCollectionType(query.ty) ==> result.Statement? && result.st.isTopMost
      ensures r.Ok? && !IsCollectionType(query.ty) ==>
                result.Builder? && |result.b.fragments| == 2 && result.b.fragments[0] == Text("SELECT ")
    {
      events := [];
      var sql := TranslateQuery(query);
      if sql.Fail? {
        return Fail(sql.error), Other, [];
      }
      result := sql.value;
      if isVarRefSingle {
        return Fail(NotSupported("")), result, [];
      }
      r, events := WriteCommand(sql.value, extentNames, columnNames);
    }

    /** The translation half of GenerateSql: the fragment tree of the query,
        before it is written. */
    method TranslateQuery(query: Expr) returns (r: Result<Fragment>)
      modifies this, symbolTable, extentNames, columnNames,
               (iset s: Symbol {:trigger s.name} | true)`needsRenaming,
               (iset s: Symbol {:trigger s.name} | true)`columns
      ensures r.Ok? && IsCollectionType(query.ty) ==> r.value.Statement? && r.value.st.isTopMost
      ensures r.Ok? && !IsCollectionType(query.ty) ==>
                r.value.Builder? && |r.value.b.fragments| == 2 && r.value.b.fragments[0] == Text("SELECT ")
    {
      statementStack := [];
      parentJoinStack := [];
      extentNames.names := map[];
      columnNames.names := map[];
      if IsCollectionType(query.ty) {
        var st := EnsureSqlStatement(query, true);
        if st.Fail? {
          return Fail(st.error);
        }
        r := Ok(Statement(st.value.(isTopMost := true)));
      } else {
        var f := Accept(query);
        if f.Fail? {
          return Fail(f.error);
        }
        r := Ok(Builder(EmptyBuilder.Append(Text("SELECT ")).Append(f.value)));
      }
    }

    /** The writing half of GenerateSql: a new writer writes the fragment
        tree, and its text is the command text. */
    static method WriteCommand(sql: Fragment, extentNames: NameRegistry, columnNames: NameRegistry)
      returns (r: Result<string>, ghost events: seq<WriteEvent>)
      modifies extentNames, columnNames,
               (iset s: Symbol {:trigger s.name} | true)`needsRenaming,
               (iset s: Symbol {:trigger s.name} | true)`newName
      ensures r.Ok? ==> FragmentWritten(sql, events, -1) && r.value == Render(events, true).0
    {
      var writer := new SqlWriter();
      var o;
      o, events := WriteFragment(sql, writer, extentNames, columnNames, FragmentSymbols(sql));
      if o.Throw? {
        return Fail(o.error), events;
      }
      assert writer.log == [] + events == events;
      r := Ok(writer.text);
    }
  }
}
