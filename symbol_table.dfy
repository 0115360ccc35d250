// SymbolTable: a stack of scopes, each binding names (ignoring case) to
// symbols; lookups search from the innermost scope outwards.
module SymbolTables {
  import opened Errors
  import opened Text
  import opened Symbols

  /** The binding of `key` in the innermost of `scopes` that binds it. */
  function Resolve(scopes: seq<map<string, Symbol>>, key: string): (r: Option<Symbol>)
    ensures r.Some? ==> exists i :: 0 <= i < |scopes| && key in scopes[i] && r.value == scopes[i][key]
  {
    if |scopes| == 0 then None
    else if key in scopes[|scopes| - 1] then Some(scopes[|scopes| - 1][key])
    else Resolve(scopes[..|scopes| - 1], key)
  }

  /** Resolve finds a binding iff some scope binds the key, and the one it
      finds belongs to a scope no inner scope of which binds the key. */
  lemma {:induction false} ResolveInnermost(scopes: seq<map<string, Symbol>>, key: string)
    ensures Resolve(scopes, key).None? <==> forall i :: 0 <= i < |scopes| ==> key !in scopes[i]
    ensures Resolve(scopes, key).Some? ==>
              exists i :: 0 <= i < |scopes| && key in scopes[i] && Resolve(scopes, key).value == scopes[i][key] &&
                          forall j :: i < j < |scopes| ==> key !in scopes[j]
  {
    if |scopes| > 0 {
      var n := |scopes| - 1;
      if key !in scopes[n] {
        ResolveInnermost(scopes[..n], key);
        assert forall i :: 0 <= i < n ==> scopes[..n][i] == scopes[i];
        if Resolve(scopes, key).Some? {
          var i :| 0 <= i < n && key in scopes[..n][i] && Resolve(scopes[..n], key).value == scopes[..n][i][key] &&
                   forall j :: i < j < n ==> key !in scopes[..n][j];
          assert forall j :: i < j < |scopes| ==> key !in scopes[j];
        }
      }
    }
  }

  /** After an Add, the name resolves to the symbol just bound. */
  lemma AddThenResolve(scopes: seq<map<string, Symbol>>, key: string, value: Symbol)
    requires |scopes| > 0
    ensures Resolve(scopes[..|scopes| - 1] + [scopes[|scopes| - 1][key := value]], key) == Some(value)
  {
  }

  /** Entering a scope shadows nothing, and an Add in the innermost scope
      leaves every other name resolving as before. */
  lemma {:induction false} ResolveUnaffected(scopes: seq<map<string, Symbol>>, key: string, other: string, value: Symbol)
    requires |scopes| > 0 && other != key
    ensures Resolve(scopes + [map[]], other) == Resolve(scopes, other)
    ensures Resolve(scopes[..|scopes| - 1] + [scopes[|scopes| - 1][key := value]], other) == Resolve(scopes, other)
  {
    var n := |scopes| - 1;
    assert (scopes + [map[]])[..|scopes|] == scopes;
    var updated := scopes[..n] + [scopes[n][key := value]];
    assert updated[..n] == scopes[..n];
  }

  class SymbolTable {
    /** The scopes, outermost first; keys are folded names. */
    var scopes: seq<map<string, Symbol>>

    constructor ()
      ensures scopes == []
    {
      scopes := [];
    }

    /** Every symbol bound in some scope. */
    function Bound(): (r: set<Symbol>)
      reads this
      ensures forall i, k :: 0 <= i < |scopes| && k in scopes[i] ==> scopes[i][k] in r
    {
      set i, k | 0 <= i < |scopes| && k in scopes[i] :: scopes[i][k]
    }

    /** EnterScope: a new empty innermost scope. */
    method EnterScope()
      modifies this
      ensures scopes == old(scopes) + [map[]]
    {
      scopes := scopes + [map[]];
    }

    /** ExitScope: drops exactly the innermost scope; with no scope open,
        RemoveAt(-1) is an ArgumentOutOfRangeException. */
    method ExitScope() returns (o: Outcome)
      modifies this
      ensures |old(scopes)| == 0 ==> o == Throw(ArgumentOutOfRange) && scopes == old(scopes)
      ensures |old(scopes)| > 0 ==> o == Done && scopes == old(scopes)[..|old(scopes)| - 1]
    {
      if |scopes| == 0 {
        o := Throw(ArgumentOutOfRange);
      } else {
        scopes := scopes[..|scopes| - 1];
        o := Done;
      }
    }

    /** Add: binds the name in the innermost scope only, replacing a binding
        of the same name (ignoring case) there; with no scope open the
        indexer fails. */
    method Add(name: string, value: Symbol) returns (o: Outcome)
      modifies this
      ensures |old(scopes)| == 0 ==> o == Throw(ArgumentOutOfRange) && scopes == old(scopes)
      ensures |old(scopes)| > 0 ==>
                o == Done &&
                scopes == old(scopes)[..|old(scopes)| - 1] + [old(scopes)[|old(scopes)| - 1][Fold(name) := value]]
      ensures |old(scopes)| > 0 ==> Resolve(scopes, Fold(name)) == Some(value)
    {
      if |scopes| == 0 {
        o := Throw(ArgumentOutOfRange);
      } else {
        var n := |scopes| - 1;
        scopes := scopes[..n] + [scopes[n][Fold(name) := value]];
        AddThenResolve(old(scopes), Fold(name), value);
        o := Done;
      }
    }

    /** Lookup: searches the scopes from the innermost outwards and returns
        the first binding of the name, ignoring case, or null. */
    method Lookup(name: string) returns (r: Option<Symbol>)
      ensures r == Resolve(scopes, Fold(name))
      ensures r.Some? ==> r.value in Bound()
    {
      var key := Fold(name);
      var i := |scopes|;
      assert scopes[..i] == scopes;
      while i > 0
        invariant 0 <= i <= |scopes|
        invariant Resolve(scopes, key) == Resolve(scopes[..i], key)
      {
        assert scopes[..i][..i - 1] == scopes[..i - 1];
        if key in scopes[i - 1] {
          return Some(scopes[i - 1][key]);
        }
        i := i - 1;
      }
      r := None;
    }
  }
}
