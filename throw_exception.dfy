// Argument guards: each either throws or returns with no effect.
module ThrowException {
  import opened Errors
  import opened Text

  /** IfNull, for a reference or for a nullable struct (both are an
      `Option` here): throws ArgumentNullException naming the parameter
      exactly when the value is null. */
  function IfNull<T>(value: Option<T>, parameterName: string): (r: Outcome)
    ensures r.Throw? <==> value.None?
    ensures r.Throw? ==> r.error == ArgumentNull(parameterName)
  {
    match value
    case None => Throw(ArgumentNull(parameterName))
    case Some(_) => Done
  }

  /** string.IsNullOrWhiteSpace for a present string. */
  predicate IsWhiteSpaceOnly(s: string)
    decreases |s|
  {
    s == [] || (IsWhiteSpace(s[0]) && IsWhiteSpaceOnly(s[1..]))
  }

  /** IfNullNorEmpty: throws ArgumentException when the string is null,
      empty or only white space. */
  function IfNullNorEmpty(value: Option<string>, parameterName: string): (r: Outcome)
    ensures r.Throw? <==> (value.None? || forall i :: 0 <= i < |value.value| ==> IsWhiteSpace(value.value[i]))
    ensures r.Throw? ==> r.error == Argument(parameterName)
  {
    if value.None? then Throw(Argument(parameterName))
    else
      WhiteSpaceOnlyMeans(value.value);
      if IsWhiteSpaceOnly(value.value) then Throw(Argument(parameterName)) else Done
  }

  lemma {:induction false} WhiteSpaceOnlyMeans(s: string)
    ensures IsWhiteSpaceOnly(s) <==> forall i :: 0 <= i < |s| ==> IsWhiteSpace(s[i])
  {
    if s != [] {
      WhiteSpaceOnlyMeans(s[1..]);
      assert forall i :: 1 <= i < |s| ==> s[i] == s[1..][i - 1];
    }
  }
}
