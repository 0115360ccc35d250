// Symbols: the deferred names of extents, joins and columns, renamed at
// write time against a registry of the names already in use.
module Symbols {
  import opened Errors
  import opened Text
  import opened Edm
  import opened SqlWriters

  /** `i` is the first number above `start` that, written after `base`,
      gives a name the registry does not hold. */
  ghost predicate IsFirstFree(names: map<string, int>, base: string, start: int, i: int) {
    i > start && !Taken(names, base, i) && forall j :: start < j < i ==> Taken(names, base, j)
  }

  /** `base` followed by `j` is a name in use. */
  ghost predicate Taken(names: map<string, int>, base: string, j: int) {
    Fold(base + IntToString(j)) in names
  }

  /** The registry after a rename of `key` to `base + i`: the key remembers
      its last suffix and the new name is taken. */
  function Registered(names: map<string, int>, key: string, base: string, i: int): (r: map<string, int>)
    ensures Fold(base + IntToString(i)) in r && r[Fold(base + IntToString(i))] == 0
    ensures Fold(key) in r
    ensures forall k :: k in names ==> k in r
  {
    names[Fold(key) := i][Fold(base + IntToString(i)) := 0]
  }

  /** A name given by a rename is one the registry did not hold, so it
      differs (ignoring case) from every name the registry held. */
  lemma FreshNameIsNew(names: map<string, int>, base: string, start: int, i: int, other: string)
    requires IsFirstFree(names, base, start, i)
    requires Fold(other) in names
    ensures !EqualsIgnoreCase(other, base + IntToString(i))
  {
  }

  /** Two renames in a row, of any bases, give different names: the first
      name is registered before the second search starts. */
  lemma {:induction false} SuccessiveRenamesDiffer(names: map<string, int>, key1: string, base1: string,
                                                   start1: int, i1: int,
                                                   key2: string, base2: string, start2: int, i2: int)
    requires IsFirstFree(names, base1, start1, i1)
    requires IsFirstFree(Registered(names, key1, base1, i1), base2, start2, i2)
    ensures !EqualsIgnoreCase(base1 + IntToString(i1), base2 + IntToString(i2))
  {
    assert Fold(base1 + IntToString(i1)) in Registered(names, key1, base1, i1);
  }

  /** One of the generator's name registries (AllExtentNames or
      AllColumnNames): for each name in use, the last numeric suffix given
      to a rename of that name. Keys compare ignoring case and are stored
      folded. */
  class NameRegistry {
    var names: map<string, int>

    constructor ()
      ensures names == map[]
    {
      names := map[];
    }

    function Contains(name: string): (r: bool)
      reads this
      ensures r <==> exists k :: k in names && k == Fold(name)
    {
      Fold(name) in names
    }

    /** The indexer's setter. */
    method Set(name: string, value: int)
      modifies this
      ensures names == old(names)[Fold(name) := value]
    {
      names := names[Fold(name) := value];
    }

    /** The do-while search of a rename: counts up from `start` until
        `base` followed by the count is a name not in use. */
    method FirstFreeSuffix(base: string, start: int) returns (i: int)
      ensures IsFirstFree(names, base, start, i)
    {
      i := start + 1;
      while Fold(base + IntToString(i)) in names
        invariant i > start
        invariant forall j :: start < j < i ==> Taken(names, base, j)
        decreases |names.Keys - Tried(base, start, i)|
      {
        assert Taken(names, base, i);
        TriedShrinks(names, base, start, i);
        ExtendTaken(names, base, start, i);
        i := i + 1;
      }
      assert !Taken(names, base, i);
    }
  }

  lemma ExtendTaken(names: map<string, int>, base: string, start: int, i: int)
    requires forall j :: start < j < i ==> Taken(names, base, j)
    requires Taken(names, base, i)
    ensures forall j :: start < j < i + 1 ==> Taken(names, base, j)
  {
  }

  /** The first free suffix, searched from `i` on (the search's state at `i`). */
  ghost function FirstFreeFrom(names: map<string, int>, base: string, start: int, i: int): (r: int)
    requires i > start
    requires forall j :: start < j < i ==> Taken(names, base, j)
    ensures IsFirstFree(names, base, start, r)
    decreases |names.Keys - Tried(base, start, i)|
  {
    if !Taken(names, base, i) then i
    else
      TriedShrinks(names, base, start, i);
      ExtendTaken(names, base, start, i);
      FirstFreeFrom(names, base, start, i + 1)
  }

  /** The first number above `start` that, written after `base`, gives a
      name not in use: the suffix a rename takes. */
  ghost function FirstFree(names: map<string, int>, base: string, start: int): (r: int)
    ensures IsFirstFree(names, base, start, r)
  {
    FirstFreeFrom(names, base, start, start + 1)
  }

  /** There is only one first free suffix. */
  lemma FirstFreeUnique(names: map<string, int>, base: string, start: int, i: int)
    requires IsFirstFree(names, base, start, i)
    ensures i == FirstFree(names, base, start)
  {
    var f := FirstFree(names, base, start);
    assert IsFirstFree(names, base, start, f);
  }

  /** The keys of the names tried by a rename search that has reached `i`. */
  ghost function Tried(base: string, start: int, i: int): set<string>
    decreases i - start
  {
    if i <= start + 1 then {} else Tried(base, start, i - 1) + {Fold(base + IntToString(i - 1))}
  }

  /** Each step of the search tries a registered name not tried before,
      so the registered names left untried become fewer. */
  lemma TriedShrinks(names: map<string, int>, base: string, start: int, i: int)
    requires i > start
    requires Taken(names, base, i)
    requires forall j :: start < j < i ==> Taken(names, base, j)
    ensures |names.Keys - Tried(base, start, i + 1)| < |names.Keys - Tried(base, start, i)|
  {
    var x := Fold(base + IntToString(i));
    var left := names.Keys - Tried(base, start, i);
    TriedBelow(base, start, i, i);
    TriedInRegistry(names, base, start, i);
    assert Tried(base, start, i + 1) == Tried(base, start, i) + {x};
    assert x in left;
    assert names.Keys - Tried(base, start, i + 1) == left - {x};
  }

  /** Tried names are those of suffixes below the search position. */
  lemma {:induction false} TriedBelow(base: string, start: int, i: int, m: int)
    requires m >= i
    ensures Fold(base + IntToString(m)) !in Tried(base, start, i)
    decreases i - start
  {
    if i > start + 1 {
      TriedBelow(base, start, i - 1, m);
      if Fold(base + IntToString(m)) == Fold(base + IntToString(i - 1)) {
        FoldSuffixInjective(base, m, i - 1);
      }
    }
  }

  lemma {:induction false} TriedInRegistry(names: map<string, int>, base: string, start: int, i: int)
    requires forall j :: start < j < i ==> Taken(names, base, j)
    ensures Tried(base, start, i) <= names.Keys
    decreases i - start
  {
    if i > start + 1 {
      TriedInRegistry(names, base, start, i - 1);
      assert Taken(names, base, i - 1);
    }
  }

  /** A Symbol, or a JoinSymbol when `isJoin` holds: a name for an extent,
      a join or a column whose final text (`newName`) is settled only when
      it is written. */
  class Symbol {
    const name: string
    var newName: string
    var typeUsage: Option<TypeUsage>
    var needsRenaming: bool
    var isUnnest: bool
    /** The columns of the extent, by name ignoring case (folded keys). */
    var columns: map<string, Symbol>

    const isJoin: bool
    /** The joined extents, in the order given. */
    const extentList: seq<Symbol>
    /** The joined extents by name ignoring case (folded keys). */
    const nameToExtent: map<string, Symbol>
    var columnList: seq<Symbol>
    var flattenedExtentList: seq<Symbol>
    var isNestedJoin: bool
    /** The nesting depth of a join symbol above its extents. */
    ghost const rank: nat

    /** The symbols this one refers to. */
    function Refs(): (r: set<Symbol>)
      reads this`columns, this`columnList, this`flattenedExtentList
      ensures forall s :: s in extentList ==> s in r
      ensures forall s :: s in columnList ==> s in r
      ensures forall s :: s in flattenedExtentList ==> s in r
    {
      columns.Values + nameToExtent.Values + (set s | s in extentList) + (set s | s in columnList)
      + (set s | s in flattenedExtentList)
    }

    /** Every column is filed under its own name, ignoring case. */
    ghost predicate ColumnsNamed()
      reads this`columns
    {
      forall k :: k in columns ==> Fold(columns[k].name) == k
    }

    /** Every joined extent sits lower than its join, and so on down: the
        extents of a join form a finite tree. */
    ghost predicate WellFounded()
      decreases rank
    {
      forall s :: s in extentList ==> s.rank < rank && s.WellFounded()
    }

    /** Symbol(name, type): the new name starts as the name, with nothing to
        rename and no columns. */
    constructor (name: string, typeUsage: Option<TypeUsage>)
      ensures this.name == name && newName == name && this.typeUsage == typeUsage
      ensures !needsRenaming && !isUnnest && columns == map[]
      ensures !isJoin && extentList == [] && nameToExtent == map[]
      ensures columnList == [] && flattenedExtentList == [] && !isNestedJoin
      ensures rank == 0 && WellFounded()
    {
      this.name := name;
      newName := name;
      this.typeUsage := typeUsage;
      needsRenaming := false;
      isUnnest := false;
      columns := map[];
      isJoin := false;
      extentList := [];
      nameToExtent := map[];
      columnList := [];
      flattenedExtentList := [];
      isNestedJoin := false;
      rank := 0;
    }

    /** JoinSymbol(name, type, extents): a copy of the extents in order, and
        each extent under its name ignoring case, a later extent of the same
        name replacing an earlier one. The column and flattened extent lists
        read as empty until set. */
    constructor Join(name: string, typeUsage: Option<TypeUsage>, extents: seq<Symbol>)
      requires forall s :: s in extents ==> s.WellFounded()
      ensures this.name == name && newName == name && this.typeUsage == typeUsage
      ensures !needsRenaming && !isUnnest && columns == map[]
      ensures isJoin && extentList == extents && nameToExtent == NameIndex(extents)
      ensures columnList == [] && flattenedExtentList == [] && !isNestedJoin
      ensures WellFounded()
    {
      this.name := name;
      newName := name;
      this.typeUsage := typeUsage;
      needsRenaming := false;
      isUnnest := false;
      columns := map[];
      isJoin := true;
      var list: seq<Symbol> := [];
      var index: map<string, Symbol> := map[];
      ghost var top: nat := 0;
      var k := 0;
      while k < |extents|
        invariant 0 <= k <= |extents|
        invariant list == extents[..k] && index == NameIndex(extents[..k])
        invariant forall s :: s in list ==> s.rank < top
      {
        index := index[Fold(extents[k].name) := extents[k]];
        list := list + [extents[k]];
        assert extents[..k + 1][..k] == extents[..k];
        if extents[k].rank >= top {
          top := extents[k].rank + 1;
        }
        k := k + 1;
      }
      assert extents[..k] == extents;
      extentList := list;
      nameToExtent := index;
      columnList := [];
      flattenedExtentList := [];
      isNestedJoin := false;
      rank := top;
    }

    /** WriteSql: a symbol flagged for renaming first takes the first free
        name `name + i` above the last suffix registered for its current
        name, which must be registered; then the current name is written
        (the generator's QuoteIdentifier leaves names as they are). */
    method WriteSql(writer: SqlWriter, columnNames: NameRegistry) returns (o: Outcome, ghost events: seq<WriteEvent>)
      requires writer.Valid()
      modifies this`newName, this`needsRenaming, columnNames, writer`text, writer`atBeginningOfLine, writer`log
      ensures writer.Valid() && writer.log == old(writer.log) + events
      ensures o.Throw? <==> old(needsRenaming) && Fold(old(newName)) !in old(columnNames.names)
      ensures o.Throw? ==> o.error == KeyNotFound && events == [] && newName == old(newName)
                           && needsRenaming && columnNames.names == old(columnNames.names)
      ensures !old(needsRenaming) ==> newName == old(newName) && columnNames.names == old(columnNames.names)
      ensures o.Done? ==> !needsRenaming && events == [Str(newName, writer.indent)]
      ensures o.Done? && old(needsRenaming) ==>
                exists i :: IsFirstFree(old(columnNames.names), name, old(columnNames.names)[Fold(old(newName))], i) &&
                            newName == name + IntToString(i) &&
                            columnNames.names == Registered(old(columnNames.names), old(newName), name, i)
    {
      events := [];
      if needsRenaming {
        if Fold(newName) !in columnNames.names {
          o := Throw(KeyNotFound);
          return;
        }
        var start := columnNames.names[Fold(newName)];
        var i := columnNames.FirstFreeSuffix(name, start);
        columnNames.Set(newName, i);
        needsRenaming := false;
        newName := name + IntToString(i);
        columnNames.Set(newName, 0);
      }
      writer.Write(newName);
      events := [Str(newName, writer.indent)];
      o := Done;
    }
  }

  /** The extents by name ignoring case; of several with the same name the
      last one counts. */
  function NameIndex(extents: seq<Symbol>): (r: map<string, Symbol>)
    ensures forall k :: k in r ==> r[k] in extents
  {
    if |extents| == 0 then map[]
    else
      var last := extents[|extents| - 1];
      NameIndex(extents[..|extents| - 1])[Fold(last.name) := last]
  }

  /** Every extent is found under its name, ignoring case, unless a later
      extent has the same name. */
  lemma {:induction false} NameIndexFinds(extents: seq<Symbol>, k: nat)
    requires k < |extents|
    requires forall j :: k < j < |extents| ==> !EqualsIgnoreCase(extents[j].name, extents[k].name)
    ensures Fold(extents[k].name) in NameIndex(extents)
    ensures NameIndex(extents)[Fold(extents[k].name)] == extents[k]
  {
    var n := |extents| - 1;
    if k < n {
      assert forall j :: k < j < n ==> extents[..n][j] == extents[j];
      assert extents[..n][k] == extents[k];
      NameIndexFinds(extents[..n], k);
    }
  }

  /** Every key of the index is the name of one of the extents. */
  lemma {:induction false} NameIndexKeys(extents: seq<Symbol>, key: string) returns (k: nat)
    requires key in NameIndex(extents)
    ensures k < |extents| && key == Fold(extents[k].name) && NameIndex(extents)[key] == extents[k]
  {
    var n := |extents| - 1;
    if key == Fold(extents[n].name) {
      k := n;
    } else {
      k := NameIndexKeys(extents[..n], key);
      assert extents[..n][k] == extents[k];
    }
  }
}
