// The write pass of a generated SELECT: the extents of each statement are
// renamed where they collide with the aliases in scope, and the fragments
// are written to the SqlWriter in order.
module SqlWriting {
  import opened Errors
  import opened Text
  import opened SqlWriters
  import opened Symbols
  import opened SqlFragments

  // ---------------------------------------------------------------------
  // The aliases of the outer extents

  /** The current names of the given symbols, in order. */
  function NewNames(list: seq<Symbol>): (r: seq<string>)
    reads set s | s in list
    ensures |r| == |list|
    ensures forall i :: 0 <= i < |list| ==> r[i] == list[i].newName
  {
    if |list| == 0 then [] else NewNames(list[..|list| - 1]) + [list[|list| - 1].newName]
  }

  /** The outer extents and, for the joins among them, their flattened
      extents. */
  function OuterSymbols(outer: seq<Symbol>): set<Symbol>
    reads set s | s in outer
  {
    (set s | s in outer) + (set s, t | s in outer && t in s.flattenedExtentList :: t)
  }

  /** The aliases an outer extent contributes: every flattened extent of a
      join (none when the list is empty), or its own name. */
  function AliasesOfOne(s: Symbol): seq<string>
    reads s, set t | t in s.flattenedExtentList
  {
    if s.isJoin then NewNames(s.flattenedExtentList) else [s.newName]
  }

  /** The aliases used by the outer extents, outer extent by outer extent. */
  function AliasesOf(outer: seq<Symbol>): seq<string>
    reads OuterSymbols(outer)
  {
    if |outer| == 0 then []
    else
      var last := outer[|outer| - 1];
      assert last in outer;
      AliasesOf(outer[..|outer| - 1]) + AliasesOfOne(last)
  }

  /** A name is an outer alias iff it is the current name of a plain outer
      extent or of a flattened extent of an outer join. */
  lemma {:induction false} AliasesOfMembers(outer: seq<Symbol>, a: string)
    ensures a in AliasesOf(outer) <==>
              exists s :: s in outer &&
                ((!s.isJoin && a == s.newName) ||
                 (s.isJoin && exists t :: t in s.flattenedExtentList && a == t.newName))
  {
    if |outer| > 0 {
      var n := |outer| - 1;
      var last := outer[n];
      AliasesOfMembers(outer[..n], a);
      assert forall s :: s in outer <==> s in outer[..n] || s == last by {
        assert outer == outer[..n] + [last];
      }
      if last.isJoin {
        var names := NewNames(last.flattenedExtentList);
        assert a in names <==> exists t :: t in last.flattenedExtentList && a == t.newName by {
          if a in names {
            var i :| 0 <= i < |names| && names[i] == a;
            assert last.flattenedExtentList[i] in last.flattenedExtentList;
          }
          if exists t :: t in last.flattenedExtentList && a == t.newName {
            var t :| t in last.flattenedExtentList && a == t.newName;
            var i :| 0 <= i < |last.flattenedExtentList| && last.flattenedExtentList[i] == t;
            assert names[i] == a;
          }
        }
      }
    }
  }

  /** Collects the aliases of the outer extents, as the write of a
      statement does first. */
  method OuterExtentAliases(outer: seq<Symbol>) returns (aliases: seq<string>)
    ensures aliases == AliasesOf(outer) && aliases == old(AliasesOf(outer))
  {
    aliases := [];
    var k := 0;
    while k < |outer|
      invariant 0 <= k <= |outer|
      invariant aliases == AliasesOf(outer[..k])
    {
      var s := outer[k];
      assert outer[..k + 1][..k] == outer[..k];
      if s.isJoin {
        var j := 0;
        while j < |s.flattenedExtentList|
          invariant 0 <= j <= |s.flattenedExtentList|
          invariant aliases == AliasesOf(outer[..k]) + NewNames(s.flattenedExtentList[..j])
        {
          assert s.flattenedExtentList[..j + 1][..j] == s.flattenedExtentList[..j];
          aliases := aliases + [s.flattenedExtentList[j].newName];
          j := j + 1;
        }
        assert s.flattenedExtentList[..j] == s.flattenedExtentList;
      } else {
        aliases := aliases + [s.newName];
      }
      k := k + 1;
    }
    assert outer[..k] == outer;
  }

  // ---------------------------------------------------------------------
  // Renaming the extents of a statement

  /** The state of the renaming loop: the aliases seen so far, the extent
      name registry, and the current name of each extent. */
  datatype Renaming = Renaming(aliases: seq<string>, registry: map<string, int>, newNames: map<Symbol, string>)

  /** One extent: when its name is among the aliases it takes the first
      free name `name + i` above the suffix registered for its name (the
      name must be registered), which is then registered; either way its
      current name joins the aliases. */
  ghost function RenameStep(r: Renaming, e: Symbol): (r': Result<Renaming>)
    requires e in r.newNames
    ensures r'.Ok? ==> r'.value.newNames.Keys == r.newNames.Keys
    ensures r'.Ok? ==> r'.value.aliases == r.aliases + [r'.value.newNames[e]]
    ensures r'.Fail? <==> e.name in r.aliases && Fold(e.name) !in r.registry
    ensures r'.Fail? ==> r'.error == KeyNotFound
  {
    if e.name in r.aliases then
      if Fold(e.name) !in r.registry then Fail(KeyNotFound)
      else
        var i := FirstFree(r.registry, e.name, r.registry[Fold(e.name)]);
        var n := e.name + IntToString(i);
        Ok(Renaming(r.aliases + [n], Registered(r.registry, e.name, e.name, i), r.newNames[e := n]))
    else Ok(r.(aliases := r.aliases + [r.newNames[e]]))
  }

  /** The renaming loop over the extents, stopping at the first failure. */
  ghost function RenameAll(r: Renaming, extents: seq<Symbol>): (r': Result<Renaming>)
    requires forall e :: e in extents ==> e in r.newNames
    ensures r'.Ok? ==> r'.value.newNames.Keys == r.newNames.Keys
    ensures r'.Ok? ==> |r'.value.aliases| == |r.aliases| + |extents|
    ensures r'.Fail? ==> r'.error == KeyNotFound
  {
    if |extents| == 0 then Ok(r)
    else
      var n := |extents| - 1;
      assert extents[n] in extents;
      match RenameAll(r, extents[..n])
      case Fail(x) => Fail(x)
      case Ok(r0) => RenameStep(r0, extents[n])
  }

  /** The current names of the extents. */
  function Snapshot(extents: seq<Symbol>): (m: map<Symbol, string>)
    reads set e | e in extents
    ensures m.Keys == set e | e in extents
    ensures forall e :: e in extents ==> m[e] == e.newName
  {
    map e | e in extents :: e.newName
  }

  /** A failure stops the loop: the whole list fails as its prefix did. */
  lemma {:induction false} RenameAllStops(r: Renaming, extents: seq<Symbol>, k: nat)
    requires k <= |extents|
    requires forall e :: e in extents ==> e in r.newNames
    requires RenameAll(r, extents[..k]).Fail?
    ensures RenameAll(r, extents) == RenameAll(r, extents[..k])
    decreases |extents| - k
  {
    if k < |extents| {
      var n := |extents| - 1;
      assert extents[..n][..k] == extents[..k];
      RenameAllStops(r, extents[..n], k);
    } else {
      assert extents[..k] == extents;
    }
  }

  /** Every alias and every current name is registered (ignoring case). */
  ghost predicate AllRegistered(r: Renaming) {
    (forall a :: a in r.aliases ==> Fold(a) in r.registry) &&
    (forall e :: e in r.newNames ==> Fold(r.newNames[e]) in r.registry)
  }

  /** A renamed extent takes a name that differs, ignoring case, from every
      alias before it, and the renaming keeps every name registered. */
  lemma RenameStepFresh(r: Renaming, e: Symbol)
    requires e in r.newNames && AllRegistered(r)
    requires RenameStep(r, e).Ok?
    ensures AllRegistered(RenameStep(r, e).value)
    ensures e.name in r.aliases ==>
              forall a :: a in r.aliases ==> !EqualsIgnoreCase(a, RenameStep(r, e).value.newNames[e])
  {
    var r' := RenameStep(r, e).value;
    if e.name in r.aliases {
      var i := FirstFree(r.registry, e.name, r.registry[Fold(e.name)]);
      forall a | a in r.aliases
        ensures !EqualsIgnoreCase(a, r'.newNames[e])
      {
        FreshNameIsNew(r.registry, e.name, r.registry[Fold(e.name)], i, a);
      }
    }
  }

  /** A loop that completes went through every prefix without failing. */
  lemma RenameAllPrefix(r: Renaming, extents: seq<Symbol>, k: nat)
    requires k <= |extents|
    requires forall e :: e in extents ==> e in r.newNames
    requires RenameAll(r, extents).Ok?
    ensures RenameAll(r, extents[..k]).Ok?
  {
    if RenameAll(r, extents[..k]).Fail? {
      RenameAllStops(r, extents, k);
    }
  }

  /** Renaming a whole list keeps every alias and every name registered. */
  lemma {:induction false} RenameAllRegistered(r: Renaming, extents: seq<Symbol>)
    requires forall e :: e in extents ==> e in r.newNames
    requires AllRegistered(r) && RenameAll(r, extents).Ok?
    ensures AllRegistered(RenameAll(r, extents).value)
  {
    if |extents| > 0 {
      var n := |extents| - 1;
      RenameAllPrefix(r, extents, n);
      RenameAllNext(r, extents, n);
      assert extents[..n + 1] == extents;
      RenameAllRegistered(r, extents[..n]);
      RenameStepFresh(RenameAll(r, extents[..n]).value, extents[n]);
    }
  }

  /** In a renaming loop that completes, each renamed extent's new name
      differs, ignoring case, from every alias before it: the outer aliases
      and the names of the extents before it. */
  lemma RenameAllFresh(r: Renaming, extents: seq<Symbol>, k: nat)
    requires forall e :: e in extents ==> e in r.newNames
    requires AllRegistered(r)
    requires RenameAll(r, extents).Ok? && k < |extents|
    ensures RenameAll(r, extents[..k]).Ok?
    ensures RenameStep(RenameAll(r, extents[..k]).value, extents[k]).Ok?
    ensures var before := RenameAll(r, extents[..k]).value;
            extents[k].name in before.aliases ==>
              forall a :: a in before.aliases ==>
                !EqualsIgnoreCase(a, RenameStep(before, extents[k]).value.newNames[extents[k]])
  {
    RenameAllPrefix(r, extents, k);
    RenameAllPrefix(r, extents, k + 1);
    RenameAllNext(r, extents, k);
    assert extents[..k] <= extents;
    RenameAllRegistered(r, extents[..k]);
    RenameStepFresh(RenameAll(r, extents[..k]).value, extents[k]);
  }

  /** The step of an extent whose name is an alias in use. */
  lemma RenamedByStep(r: Renaming, e: Symbol, i: int)
    requires e in r.newNames && e.name in r.aliases && Fold(e.name) in r.registry
    requires IsFirstFree(r.registry, e.name, r.registry[Fold(e.name)], i)
    ensures RenameStep(r, e) == Ok(Renaming(r.aliases + [e.name + IntToString(i)],
                                            Registered(r.registry, e.name, e.name, i),
                                            r.newNames[e := e.name + IntToString(i)]))
  {
    FirstFreeUnique(r.registry, e.name, r.registry[Fold(e.name)], i);
  }

  /** The renaming loop of a statement's write: `aliases` are the outer
      aliases; the registry is AllExtentNames. */
  method RenameExtents(aliases: seq<string>, extents: seq<Symbol>, extentNames: NameRegistry) returns (o: Outcome)
    modifies extentNames, (set e | e in extents)`newName
    ensures var r := RenameAll(Renaming(aliases, old(extentNames.names), old(Snapshot(extents))), extents);
            (r.Fail? ==> o == Throw(r.error)) &&
            (r.Ok? ==> o == Done && extentNames.names == r.value.registry && Named(extents, r.value.newNames))
  {
    ghost var init := Renaming(aliases, extentNames.names, Snapshot(extents));
    ghost var cur := init;
    var seen := aliases;
    var k := 0;
    assert extents[..0] == [];
    while k < |extents|
      invariant 0 <= k <= |extents|
      invariant RenameAll(init, extents[..k]) == Ok(cur)
      invariant cur.aliases == seen && cur.registry == extentNames.names
      invariant cur.newNames.Keys == init.newNames.Keys
      invariant Named(extents, cur.newNames)
    {
      var e := extents[k];
      RenameAllNext(init, extents, k);
      ghost var next;
      o, next := RenameOne(e, seen, extentNames, cur);
      if o.Throw? {
        RenameAllStops(init, extents, k + 1);
        return;
      }
      cur := next;
      seen := seen + [e.newName];
      k := k + 1;
    }
    assert extents[..k] == extents;
    o := Done;
  }

  /** The loop body for one extent: `cur` is the loop's state. */
  method RenameOne(e: Symbol, seen: seq<string>, extentNames: NameRegistry, ghost cur: Renaming)
    returns (o: Outcome, ghost next: Renaming)
    requires e in cur.newNames && e.newName == cur.newNames[e]
    requires cur.aliases == seen && cur.registry == extentNames.names
    modifies extentNames, e`newName
    ensures RenameStep(cur, e).Fail? ==> o == Throw(KeyNotFound)
    ensures RenameStep(cur, e).Ok? ==>
              o == Done && RenameStep(cur, e) == Ok(next) && next.registry == extentNames.names &&
              next.aliases == seen + [e.newName] && next.newNames == cur.newNames[e := e.newName]
  {
    next := cur;
    if e.name in seen {
      if Fold(e.name) !in extentNames.names {
        o := Throw(KeyNotFound);
        return;
      }
      var start := extentNames.names[Fold(e.name)];
      var i := extentNames.FirstFreeSuffix(e.name, start);
      extentNames.Set(e.name, i);
      e.newName := e.name + IntToString(i);
      extentNames.Set(e.newName, 0);
      RenamedByStep(cur, e, i);
      next := Renaming(seen + [e.newName], extentNames.names, cur.newNames[e := e.newName]);
    } else {
      next := cur.(aliases := seen + [e.newName]);
    }
    o := Done;
  }

  /** Each of the extents has the name `names` gives it. */
  ghost predicate Named(extents: seq<Symbol>, names: map<Symbol, string>)
    reads set e | e in extents
  {
    forall e :: e in extents ==> e in names && e.newName == names[e]
  }

  /** The loop over one more extent is one more step. */
  lemma RenameAllNext(r: Renaming, extents: seq<Symbol>, k: nat)
    requires k < |extents|
    requires forall e :: e in extents ==> e in r.newNames
    requires RenameAll(r, extents[..k]).Ok?
    ensures extents[k] in RenameAll(r, extents[..k]).value.newNames
    ensures RenameAll(r, extents[..k + 1]) == RenameStep(RenameAll(r, extents[..k]).value, extents[k])
  {
    assert extents[..k + 1][..k] == extents[..k] && extents[..k + 1][k] == extents[k];
  }

  // ---------------------------------------------------------------------
  // What the write of each fragment kind emits

  /** The calls of several writes, one after the other. */
  function Join(parts: seq<seq<WriteEvent>>): seq<WriteEvent> {
    if |parts| == 0 then [] else Join(parts[..|parts| - 1]) + parts[|parts| - 1]
  }

  /** `events` is what writing `f` at indent `ind` may call on the writer:
      a string or char as it is, a symbol as one name, a symbol pair as
      nothing, a builder fragment by fragment, a statement by its layout;
      any other object cannot be written. */
  ghost predicate FragmentWritten(f: Fragment, events: seq<WriteEvent>, ind: int)
    decreases f, 1
  {
    match f
    case Text(s) => events == [Str(s, ind)]
    case Chr(c) => events == [WriteEvent.Chr(c)]
    case SymbolRef(_) => |events| == 1 && events[0].Str? && events[0].indent == ind
    case Pair(_, _) => events == []
    case Other => false
    case Builder(b) => BuilderWritten(b, events, ind)
    case Statement(st) => StatementWritten(st, events, ind)
  }

  /** The parts, one per fragment of `b`, each a write of its fragment. */
  ghost predicate PartsWritten(b: SqlBuilder, parts: seq<seq<WriteEvent>>, ind: int)
    decreases b, 0
  {
    |parts| == |b.fragments| &&
    forall i :: 0 <= i < |parts| ==> FragmentWritten(b.fragments[i], parts[i], ind)
  }

  ghost predicate BuilderWritten(b: SqlBuilder, events: seq<WriteEvent>, ind: int)
    decreases b, 1
  {
    exists parts :: PartsWritten(b, parts, ind) && events == Join(parts)
  }

  /** The calls of one statement's write, clause by clause. */
  datatype StatementParts = StatementParts(
    select: seq<WriteEvent>, from: seq<WriteEvent>, where: seq<WriteEvent>,
    groupBy: seq<WriteEvent>, orderBy: seq<WriteEvent>, top: seq<WriteEvent>, skip: seq<WriteEvent>)

  /** ORDER BY is written only when present and the statement is the top
      most or has a TOP. */
  predicate WritesOrderBy(st: SqlSelectStatement) {
    !st.orderBy.IsEmpty() && (st.isTopMost || st.top.Some?)
  }

  function Heading(st: SqlSelectStatement, ind: int): seq<WriteEvent> {
    if st.isDistinct then [Str("SELECT ", ind)] + [Str("DISTINCT ", ind)] else [Str("SELECT ", ind)]
  }

  /** An optional clause: a new line, its keyword and its body. */
  function Clause(present: bool, keyword: string, body: seq<WriteEvent>, ind: int): seq<WriteEvent> {
    if present then [Str(NewLine, ind)] + [Str(keyword, ind)] + body else []
  }

  function TopPart(st: SqlSelectStatement, p: StatementParts, ind: int): seq<WriteEvent> {
    if st.top.Some? then [Str(" LIMIT ", ind)] + p.top else []
  }

  function SkipPart(st: SqlSelectStatement, p: StatementParts, ind: int): seq<WriteEvent> {
    if st.skip.Some? then [Str(" OFFSET ", ind)] + p.skip else []
  }

  /** A statement's write at indent `ind`: SELECT [DISTINCT] and the select
      list, a new line, FROM and the from list, then WHERE, GROUP BY and
      ORDER BY each on a new line when written, then LIMIT and OFFSET. */
  function Layout(st: SqlSelectStatement, ind: int, p: StatementParts): seq<WriteEvent> {
    Heading(st, ind) + Body(st, ind, p)
  }

  /** A statement's layout after SELECT [DISTINCT]. */
  function Body(st: SqlSelectStatement, ind: int, p: StatementParts): seq<WriteEvent> {
    SelectFrom(p, ind) + Filters(st, p, ind) + Limits(st, p, ind)
  }

  /** The select list, a new line, FROM and the from list. */
  function SelectFrom(p: StatementParts, ind: int): seq<WriteEvent> {
    p.select + [Str(NewLine, ind)] + [Str("FROM ", ind)] + p.from
  }

  /** WHERE, GROUP BY and ORDER BY, each on a new line when written. */
  function Filters(st: SqlSelectStatement, p: StatementParts, ind: int): seq<WriteEvent> {
    Clause(!st.where.IsEmpty(), "WHERE ", p.where, ind)
    + Clause(!st.groupBy.IsEmpty(), "GROUP BY ", p.groupBy, ind)
    + Clause(WritesOrderBy(st), "ORDER BY ", p.orderBy, ind)
  }

  /** LIMIT and OFFSET, when set. */
  function Limits(st: SqlSelectStatement, p: StatementParts, ind: int): seq<WriteEvent> {
    TopPart(st, p, ind) + SkipPart(st, p, ind)
  }

  /** Each written clause of `st` is a write of its builder or fragment. */
  ghost predicate ClausesWritten(st: SqlSelectStatement, p: StatementParts, ind: int)
    decreases st, 1
  {
    SelectFromWritten(st, p, ind) && FiltersWritten(st, p, ind) && LimitsWritten(st, p, ind)
  }

  ghost predicate SelectFromWritten(st: SqlSelectStatement, p: StatementParts, ind: int)
    decreases st, 0
  {
    BuilderWritten(st.select, p.select, ind) && BuilderWritten(st.from, p.from, ind)
  }

  ghost predicate FiltersWritten(st: SqlSelectStatement, p: StatementParts, ind: int)
    decreases st, 0
  {
    (!st.where.IsEmpty() ==> BuilderWritten(st.where, p.where, ind)) &&
    (!st.groupBy.IsEmpty() ==> BuilderWritten(st.groupBy, p.groupBy, ind)) &&
    (WritesOrderBy(st) ==> BuilderWritten(st.orderBy, p.orderBy, ind))
  }

  ghost predicate LimitsWritten(st: SqlSelectStatement, p: StatementParts, ind: int)
    decreases st, 0
  {
    (st.top.Some? ==> FragmentWritten(st.top.value.topCount, p.top, ind)) &&
    (st.skip.Some? ==> FragmentWritten(st.skip.value.skipCount, p.skip, ind))
  }

  /** A statement written at indent `ind` is laid out one tab deeper; it
      has a select list and no WITH TIES. */
  ghost predicate StatementWritten(st: SqlSelectStatement, events: seq<WriteEvent>, ind: int)
    decreases st, 3
  {
    !st.select.IsEmpty() && (st.top.Some? ==> !st.top.value.withTies) &&
    exists p :: LaidOut(st, events, ind, p)
  }

  /** `events` is the layout of `st` one tab deeper than `ind`, from
      clauses that are writes of the statement's builders. */
  ghost predicate LaidOut(st: SqlSelectStatement, events: seq<WriteEvent>, ind: int, p: StatementParts)
    decreases st, 2
  {
    ClausesWritten(st, p, ind + 1) && events == Layout(st, ind + 1, p)
  }

  /** A builder of strings only writes exactly those strings. */
  lemma {:induction false} TextBuilderWritten(b: SqlBuilder, events: seq<WriteEvent>, ind: int)
    requires forall i :: 0 <= i < |b.fragments| ==> b.fragments[i].Text?
    requires BuilderWritten(b, events, ind)
    ensures |events| == |b.fragments|
    ensures forall i :: 0 <= i < |events| ==> events[i] == Str(b.fragments[i].s, ind)
    decreases |b.fragments|
  {
    var parts :| PartsWritten(b, parts, ind) && events == Join(parts);
    if |b.fragments| > 0 {
      var n := |b.fragments| - 1;
      var b' := SqlBuilder(b.fragments[..n]);
      assert PartsWritten(b', parts[..n], ind) by {
        forall i | 0 <= i < n
          ensures FragmentWritten(b'.fragments[i], parts[..n][i], ind)
        {
          assert b'.fragments[i] == b.fragments[i] && parts[..n][i] == parts[i];
        }
      }
      TextBuilderWritten(b', Join(parts[..n]), ind);
      assert FragmentWritten(b.fragments[n], parts[n], ind);
    }
  }

  /** A symbol's write, as the calls it made. */
  lemma SymbolWritten(sym: Symbol, events: seq<WriteEvent>, n: string, ind: int)
    requires events == [Str(n, ind)]
    ensures FragmentWritten(SymbolRef(sym), events, ind)
  {
  }

  // ---------------------------------------------------------------------
  // The write pass

  /** Writes one fragment of a builder: a string with Write(string), a char
      with Write(char), a fragment by its own WriteSql; any other object is
      an InvalidOperationException. The symbols written may be renamed; they
      are among `syms`. */
  method WriteFragment(f: Fragment, writer: SqlWriter, extentNames: NameRegistry, columnNames: NameRegistry,
                       ghost syms: set<Symbol>)
    returns (o: Outcome, ghost events: seq<WriteEvent>)
    requires writer.Valid() && FragmentSymbols(f) <= syms
    modifies writer`text, writer`atBeginningOfLine, writer`indent, writer`log, extentNames, columnNames
    modifies syms`newName, syms`needsRenaming
    ensures writer.Valid() && writer.log == old(writer.log) + events
    ensures o.Done? ==> writer.indent == old(writer.indent) && FragmentWritten(f, events, writer.indent)
    ensures f.Other? ==> o == Throw(InvalidOperation("")) && events == []
    ensures f.SymbolRef? && o.Done? ==>
              events == [Str(f.sym.newName, writer.indent)] && !f.sym.needsRenaming &&
              (!old(f.sym.needsRenaming) ==> f.sym.newName == old(f.sym.newName))
    ensures f.SymbolRef? && o.Done? && old(f.sym.needsRenaming) ==>
              Fold(old(f.sym.newName)) in old(columnNames.names) &&
              exists i :: IsFirstFree(old(columnNames.names), f.sym.name, old(columnNames.names)[Fold(old(f.sym.newName))], i) &&
                          f.sym.newName == f.sym.name + IntToString(i) &&
                          columnNames.names == Registered(old(columnNames.names), old(f.sym.newName), f.sym.name, i)
    decreases f, 0
  {
    match f {
      case Text(s) =>
        writer.Write(s);
        events := [Str(s, writer.indent)];
        o := Done;
      case Chr(c) =>
        writer.WriteChar(c);
        events := [WriteEvent.Chr(c)];
        o := Done;
      case SymbolRef(sym) =>
        o, events := sym.WriteSql(writer, columnNames);
      case Pair(_, _) =>
        events := [];
        o := Done;
      case Other =>
        events := [];
        o := Throw(InvalidOperation(""));
      case Builder(b) =>
        ghost var parts;
        o, events, parts := WriteBuilder(b, writer, extentNames, columnNames, syms);
      case Statement(st) =>
        o, events := WriteStatement(st, writer, extentNames, columnNames, syms);
    }
  }

  /** SqlBuilder.WriteSql: the fragments in order, stopping at the first
      that throws. */
  method WriteBuilder(b: SqlBuilder, writer: SqlWriter, extentNames: NameRegistry, columnNames: NameRegistry,
                      ghost syms: set<Symbol>)
    returns (o: Outcome, ghost events: seq<WriteEvent>, ghost parts: seq<seq<WriteEvent>>)
    requires writer.Valid() && BuilderSymbols(b) <= syms
    modifies writer`text, writer`atBeginningOfLine, writer`indent, writer`log, extentNames, columnNames
    modifies syms`newName, syms`needsRenaming
    ensures writer.Valid() && writer.log == old(writer.log) + events
    ensures o.Done? ==> writer.indent == old(writer.indent) && PartsWritten(b, parts, writer.indent)
                        && events == Join(parts) && BuilderWritten(b, events, writer.indent)
    ensures b.IsEmpty() ==> o == Done && events == []
    decreases b, 2
  {
    events := [];
    parts := [];
    ghost var ind := writer.indent;
    var i := 0;
    while i < |b.fragments|
      invariant 0 <= i <= |b.fragments|
      invariant writer.Valid() && writer.log == old(writer.log) + events
      invariant writer.indent == ind
      invariant |parts| == i && PartsWrittenUpTo(b, parts, events, ind) == true
    {
      ghost var before := writer.log;
      var o1, e1 := WriteFragment(b.fragments[i], writer, extentNames, columnNames, syms);
      LogGrows(old(writer.log), events, before, e1, writer.log);
      if o1.Throw? {
        events := events + e1;
        o := o1;
        return;
      }
      PartsWrittenSnoc(b, parts, events, e1, ind);
      events := events + e1;
      parts := parts + [e1];
      i := i + 1;
    }
    PartsWrittenAll(b, parts, events, ind);
    o := Done;
  }

  /** The first |parts| fragments of `b` written as `parts`, whose
      concatenation is `events`. */
  ghost predicate PartsWrittenUpTo(b: SqlBuilder, parts: seq<seq<WriteEvent>>, events: seq<WriteEvent>, ind: int) {
    |parts| <= |b.fragments| && events == Join(parts) &&
    forall j :: 0 <= j < |parts| ==> FragmentWritten(b.fragments[j], parts[j], ind)
  }

  lemma PartsWrittenSnoc(b: SqlBuilder, parts: seq<seq<WriteEvent>>, events: seq<WriteEvent>,
                         e1: seq<WriteEvent>, ind: int)
    requires PartsWrittenUpTo(b, parts, events, ind) && |parts| < |b.fragments|
    requires FragmentWritten(b.fragments[|parts|], e1, ind)
    ensures PartsWrittenUpTo(b, parts + [e1], events + e1, ind)
  {
    assert (parts + [e1])[..|parts|] == parts;
  }

  lemma PartsWrittenAll(b: SqlBuilder, parts: seq<seq<WriteEvent>>, events: seq<WriteEvent>, ind: int)
    requires PartsWrittenUpTo(b, parts, events, ind) && |parts| == |b.fragments|
    ensures PartsWritten(b, parts, ind) && events == Join(parts) && BuilderWritten(b, events, ind)
  {
  }

  /** TopClause.WriteSql: " LIMIT " and the count, then a
      NotSupportedException when ties are kept. */
  method WriteTop(t: TopClause, writer: SqlWriter, extentNames: NameRegistry, columnNames: NameRegistry,
                  ghost syms: set<Symbol>)
    returns (o: Outcome, ghost events: seq<WriteEvent>, ghost count: seq<WriteEvent>)
    requires writer.Valid() && FragmentSymbols(t.topCount) <= syms
    modifies writer`text, writer`atBeginningOfLine, writer`indent, writer`log, extentNames, columnNames
    modifies syms`newName, syms`needsRenaming
    ensures writer.Valid() && writer.log == old(writer.log) + events
    ensures |events| > 0 && events[0] == Str(" LIMIT ", old(writer.indent))
    ensures o.Done? ==> writer.indent == old(writer.indent) && !t.withTies &&
                        events == [Str(" LIMIT ", writer.indent)] + count &&
                        FragmentWritten(t.topCount, count, writer.indent)
    ensures t.withTies ==> o.Throw?
    decreases t, 0
  {
    writer.Write(" LIMIT ");
    events := [Str(" LIMIT ", writer.indent)];
    ghost var before := writer.log;
    o, count := WriteFragment(t.topCount, writer, extentNames, columnNames, syms);
    LogGrows(old(writer.log), events, before, count, writer.log);
    events := events + count;
    if o.Done? && t.withTies {
      o := Throw(NotSupported("WITH TIES"));
    }
  }

  /** SkipClause.WriteSql: " OFFSET " and the count. */
  method WriteSkip(s: SkipClause, writer: SqlWriter, extentNames: NameRegistry, columnNames: NameRegistry,
                   ghost syms: set<Symbol>)
    returns (o: Outcome, ghost events: seq<WriteEvent>, ghost count: seq<WriteEvent>)
    requires writer.Valid() && FragmentSymbols(s.skipCount) <= syms
    modifies writer`text, writer`atBeginningOfLine, writer`indent, writer`log, extentNames, columnNames
    modifies syms`newName, syms`needsRenaming
    ensures writer.Valid() && writer.log == old(writer.log) + events
    ensures |events| > 0 && events[0] == Str(" OFFSET ", old(writer.indent))
    ensures o.Done? ==> writer.indent == old(writer.indent) &&
                        events == [Str(" OFFSET ", writer.indent)] + count &&
                        FragmentWritten(s.skipCount, count, writer.indent)
    decreases s, 0
  {
    writer.Write(" OFFSET ");
    events := [Str(" OFFSET ", writer.indent)];
    ghost var before := writer.log;
    o, count := WriteFragment(s.skipCount, writer, extentNames, columnNames, syms);
    LogGrows(old(writer.log), events, before, count, writer.log);
    events := events + count;
  }

  /** An optional clause of SqlSelectStatement.WriteSql: when present, a
      new line, the keyword and the builder. */
  method WriteClause(present: bool, keyword: string, b: SqlBuilder,
                     writer: SqlWriter, extentNames: NameRegistry, columnNames: NameRegistry,
                     ghost syms: set<Symbol>)
    returns (o: Outcome, ghost events: seq<WriteEvent>, ghost body: seq<WriteEvent>)
    requires writer.Valid() && BuilderSymbols(b) <= syms
    modifies writer`text, writer`atBeginningOfLine, writer`indent, writer`log, extentNames, columnNames
    modifies syms`newName, syms`needsRenaming
    ensures writer.Valid() && writer.log == old(writer.log) + events
    ensures !present ==> o == Done && events == [] && writer.indent == old(writer.indent)
    ensures o.Done? ==> writer.indent == old(writer.indent) && events == Clause(present, keyword, body, writer.indent) &&
                        (present ==> BuilderWritten(b, body, writer.indent))
    decreases b, 3
  {
    events := [];
    body := [];
    o := Done;
    if present {
      var ind := writer.indent;
      writer.WriteLine();
      events := [Str(NewLine, ind)];
      ghost var before := writer.log;
      writer.Write(keyword);
      LogGrows(old(writer.log), events, before, [Str(keyword, ind)], writer.log);
      events := events + [Str(keyword, ind)];
      before := writer.log;
      ghost var parts;
      o, body, parts := WriteBuilder(b, writer, extentNames, columnNames, syms);
      LogGrows(old(writer.log), events, before, body, writer.log);
      events := events + body;
    }
  }

  /** SqlSelectStatement.WriteSql: renames the extents against the outer
      aliases, then writes the statement one tab deeper. */
  method WriteStatement(st: SqlSelectStatement, writer: SqlWriter, extentNames: NameRegistry, columnNames: NameRegistry,
                        ghost syms: set<Symbol>)
    returns (o: Outcome, ghost events: seq<WriteEvent>)
    requires writer.Valid() && StatementSymbols(st) <= syms
    modifies writer`text, writer`atBeginningOfLine, writer`indent, writer`log, extentNames, columnNames
    modifies syms`newName, syms`needsRenaming
    ensures writer.Valid() && writer.log == old(writer.log) + events
    ensures var r := RenameAll(Renaming(old(AliasesOf(st.outerExtents)), old(extentNames.names),
                                        old(Snapshot(st.ExtentList()))), st.ExtentList());
            (r.Fail? ==> o == Throw(KeyNotFound) && events == [] && writer.indent == old(writer.indent)) &&
            (o.Done? ==> r.Ok?)
    ensures st.select.IsEmpty() ==> o.Throw?
    ensures o.Done? ==> writer.indent == old(writer.indent) && StatementWritten(st, events, writer.indent)
    decreases st, 4
  {
    o := RenameStatementExtents(st, extentNames);
    events := [];
    if o.Done? {
      o, events := WriteLaidOut(st, writer, extentNames, columnNames, syms);
    }
  }

  /** The renaming step of SqlSelectStatement.WriteSql: the aliases of the
      outer extents, then the extents of this statement renamed against
      them. */
  method RenameStatementExtents(st: SqlSelectStatement, extentNames: NameRegistry) returns (o: Outcome)
    modifies extentNames, (set e | e in st.ExtentList())`newName
    ensures var r := RenameAll(Renaming(old(AliasesOf(st.outerExtents)), old(extentNames.names),
                                        old(Snapshot(st.ExtentList()))), st.ExtentList());
            (r.Fail? <==> o.Throw?) && (o.Throw? ==> o == Throw(KeyNotFound)) &&
            (r.Ok? ==> extentNames.names == r.value.registry && Named(st.ExtentList(), r.value.newNames))
  {
    ghost var r0 := Renaming(AliasesOf(st.outerExtents), extentNames.names, Snapshot(st.ExtentList()));
    var aliases := OuterExtentAliases(st.outerExtents);
    assert r0 == Renaming(aliases, extentNames.names, Snapshot(st.ExtentList()));
    o := RenameExtents(aliases, st.ExtentList(), extentNames);
  }

  /** The writing step of SqlSelectStatement.WriteSql, one tab deeper:
      SELECT [DISTINCT], then an InvalidOperationException for an empty
      select list, else the clauses; the indent is restored afterwards. */
  method WriteLaidOut(st: SqlSelectStatement, writer: SqlWriter, extentNames: NameRegistry, columnNames: NameRegistry,
                      ghost syms: set<Symbol>)
    returns (o: Outcome, ghost events: seq<WriteEvent>)
    requires writer.Valid() && StatementSymbols(st) <= syms
    modifies writer`text, writer`atBeginningOfLine, writer`indent, writer`log, extentNames, columnNames
    modifies syms`newName, syms`needsRenaming
    ensures writer.Valid() && writer.log == old(writer.log) + events
    ensures st.select.IsEmpty() ==>
              o == Throw(InvalidOperation("Invalid statement")) && events == Heading(st, old(writer.indent) + 1)
    ensures o.Done? ==> writer.indent == old(writer.indent) && StatementWritten(st, events, writer.indent)
    decreases st, 3
  {
    writer.SetIndent(writer.indent + 1);
    var ind := writer.indent;
    writer.Write("SELECT ");
    events := [Str("SELECT ", ind)];
    if st.isDistinct {
      ghost var before := writer.log;
      writer.Write("DISTINCT ");
      LogGrows(old(writer.log), events, before, [Str("DISTINCT ", ind)], writer.log);
      events := events + [Str("DISTINCT ", ind)];
    }
    if st.select.IsEmpty() {
      o := Throw(InvalidOperation("Invalid statement"));
      return;
    }
    ghost var before := writer.log;
    ghost var body;
    ghost var p;
    o, body, p := WriteClauses(st, writer, extentNames, columnNames, syms);
    LogGrows(old(writer.log), events, before, body, writer.log);
    events := events + body;
    if o.Done? {
      writer.SetIndent(ind - 1);
      assert writer.indent + 1 == ind;
      assert events == Layout(st, ind, p);
      assert LaidOut(st, events, writer.indent, p);
    }
  }

  /** The clauses of SqlSelectStatement.WriteSql after SELECT [DISTINCT],
      at the writer's indent. */
  method WriteClauses(st: SqlSelectStatement, writer: SqlWriter, extentNames: NameRegistry, columnNames: NameRegistry,
                      ghost syms: set<Symbol>)
    returns (o: Outcome, ghost events: seq<WriteEvent>, ghost p: StatementParts)
    requires writer.Valid() && StatementSymbols(st) <= syms
    modifies writer`text, writer`atBeginningOfLine, writer`indent, writer`log, extentNames, columnNames
    modifies syms`newName, syms`needsRenaming
    ensures writer.Valid() && writer.log == old(writer.log) + events
    ensures o.Done? ==> writer.indent == old(writer.indent) && (st.top.Some? ==> !st.top.value.withTies) &&
                        events == Body(st, writer.indent, p) && ClausesWritten(st, p, writer.indent)
    decreases st, 2
  {
    p := StatementParts([], [], [], [], [], [], []);
    o, events, p := WriteSelectFrom(st, writer, extentNames, columnNames, syms, p);
    if o.Throw? {
      return;
    }
    ghost var before := writer.log;
    ghost var chunk;
    ghost var p1 := p;
    o, chunk, p := WriteFilters(st, writer, extentNames, columnNames, syms, p);
    LogGrows(old(writer.log), events, before, chunk, writer.log);
    events := events + chunk;
    if o.Throw? {
      return;
    }
    ghost var p2 := p;
    before := writer.log;
    o, chunk, p := WriteLimits(st, writer, extentNames, columnNames, syms, p);
    LogGrows(old(writer.log), events, before, chunk, writer.log);
    events := events + chunk;
    if o.Done? {
      assert SelectFrom(p, writer.indent) == SelectFrom(p1, writer.indent);
      assert Filters(st, p, writer.indent) == Filters(st, p2, writer.indent);
    }
  }

  /** The select list, a new line, FROM and the from list. */
  method WriteSelectFrom(st: SqlSelectStatement, writer: SqlWriter, extentNames: NameRegistry, columnNames: NameRegistry,
                         ghost syms: set<Symbol>, ghost p0: StatementParts)
    returns (o: Outcome, ghost events: seq<WriteEvent>, ghost p: StatementParts)
    requires writer.Valid() && StatementSymbols(st) <= syms
    modifies writer`text, writer`atBeginningOfLine, writer`indent, writer`log, extentNames, columnNames
    modifies syms`newName, syms`needsRenaming
    ensures writer.Valid() && writer.log == old(writer.log) + events
    ensures p == p0.(select := p.select, from := p.from)
    ensures o.Done? ==> writer.indent == old(writer.indent) &&
                        events == SelectFrom(p, writer.indent) && SelectFromWritten(st, p, writer.indent)
    decreases st, 1
  {
    var ind := writer.indent;
    p := p0;
    ghost var e;
    ghost var parts;
    o, e, parts := WriteBuilder(st.select, writer, extentNames, columnNames, syms);
    events := e;
    if o.Throw? {
      return;
    }
    p := p.(select := e);
    ghost var before := writer.log;
    writer.WriteLine();
    LogGrows(old(writer.log), events, before, [Str(NewLine, ind)], writer.log);
    events := events + [Str(NewLine, ind)];
    before := writer.log;
    writer.Write("FROM ");
    LogGrows(old(writer.log), events, before, [Str("FROM ", ind)], writer.log);
    events := events + [Str("FROM ", ind)];
    before := writer.log;
    o, e, parts := WriteBuilder(st.from, writer, extentNames, columnNames, syms);
    LogGrows(old(writer.log), events, before, e, writer.log);
    events := events + e;
    p := p.(from := e);
  }

  /** WHERE, GROUP BY and ORDER BY; ORDER BY only when the statement is the
      top most or has a TOP. */
  method WriteFilters(st: SqlSelectStatement, writer: SqlWriter, extentNames: NameRegistry, columnNames: NameRegistry,
                      ghost syms: set<Symbol>, ghost p0: StatementParts)
    returns (o: Outcome, ghost events: seq<WriteEvent>, ghost p: StatementParts)
    requires writer.Valid() && StatementSymbols(st) <= syms
    modifies writer`text, writer`atBeginningOfLine, writer`indent, writer`log, extentNames, columnNames
    modifies syms`newName, syms`needsRenaming
    ensures writer.Valid() && writer.log == old(writer.log) + events
    ensures p == p0.(where := p.where, groupBy := p.groupBy, orderBy := p.orderBy)
    ensures o.Done? ==> writer.indent == old(writer.indent) &&
                        events == Filters(st, p, writer.indent) && FiltersWritten(st, p, writer.indent)
    decreases st, 1
  {
    p := p0;
    ghost var e;
    o, events, e := WriteClause(!st.where.IsEmpty(), "WHERE ", st.where, writer, extentNames, columnNames, syms);
    if o.Throw? {
      return;
    }
    p := p.(where := e);
    ghost var before := writer.log;
    ghost var chunk;
    o, chunk, e := WriteClause(!st.groupBy.IsEmpty(), "GROUP BY ", st.groupBy, writer, extentNames, columnNames, syms);
    LogGrows(old(writer.log), events, before, chunk, writer.log);
    events := events + chunk;
    if o.Throw? {
      return;
    }
    p := p.(groupBy := e);
    before := writer.log;
    o, chunk, e := WriteClause(WritesOrderBy(st), "ORDER BY ", st.orderBy, writer, extentNames, columnNames, syms);
    LogGrows(old(writer.log), events, before, chunk, writer.log);
    events := events + chunk;
    p := p.(orderBy := e);
  }

  /** LIMIT, then OFFSET, each when set. */
  method WriteLimits(st: SqlSelectStatement, writer: SqlWriter, extentNames: NameRegistry, columnNames: NameRegistry,
                     ghost syms: set<Symbol>, ghost p0: StatementParts)
    returns (o: Outcome, ghost events: seq<WriteEvent>, ghost p: StatementParts)
    requires writer.Valid() && StatementSymbols(st) <= syms
    modifies writer`text, writer`atBeginningOfLine, writer`indent, writer`log, extentNames, columnNames
    modifies syms`newName, syms`needsRenaming
    ensures writer.Valid() && writer.log == old(writer.log) + events
    ensures p == p0.(top := p.top, skip := p.skip)
    ensures o.Done? ==> writer.indent == old(writer.indent) && (st.top.Some? ==> !st.top.value.withTies) &&
                        events == Limits(st, p, writer.indent) && LimitsWritten(st, p, writer.indent)
    decreases st, 1
  {
    p := p0;
    o := Done;
    events := [];
    ghost var e;
    if st.top.Some? {
      o, events, e := WriteTop(st.top.value, writer, extentNames, columnNames, syms);
      p := p.(top := e);
      if o.Throw? {
        return;
      }
    }
    if st.skip.Some? {
      ghost var before := writer.log;
      ghost var chunk;
      o, chunk, e := WriteSkip(st.skip.value, writer, extentNames, columnNames, syms);
      LogGrows(old(writer.log), events, before, chunk, writer.log);
      events := events + chunk;
      p := p.(skip := e);
    }
  }

  /** Calls made after calls made. */
  lemma LogGrows(log0: seq<WriteEvent>, events: seq<WriteEvent>, log1: seq<WriteEvent>,
                 chunk: seq<WriteEvent>, log2: seq<WriteEvent>)
    requires log1 == log0 + events && log2 == log1 + chunk
    ensures log2 == log0 + (events + chunk)
  {
  }
}
