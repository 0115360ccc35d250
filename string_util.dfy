// String helpers used when the generator formats lists and messages.
module StringUtil {
  import opened Errors
  import opened Text

  const DefaultDelimiter: string := ", "

  /** The text BuildDelimitedList produces: the converted values joined by
      the delimiter, with the documented defaults for a missing converter
      or delimiter and the empty text for a missing sequence. */
  function DelimitedList<T>(values: Option<seq<T>>, converter: Option<T -> string>,
                            invariantToString: T -> string, delimiter: Option<string>): string
  {
    match values
    case None => ""
    case Some(vs) =>
      var conv := if converter.Some? then converter.value else invariantToString;
      var sep := if delimiter.Some? then delimiter.value else DefaultDelimiter;
      Join(Converted(vs, conv), sep)
  }

  /** The values, each passed through the converter. */
  function Converted<T>(vs: seq<T>, conv: T -> string): (r: seq<string>)
    ensures |r| == |vs|
    ensures forall i :: 0 <= i < |vs| ==> r[i] == conv(vs[i])
  {
    if vs == [] then [] else [conv(vs[0])] + Converted(vs[1..], conv)
  }

  /** Joins the converted values, writing the delimiter before every
      element except the first. The invariant-culture conversion used when
      no converter is given is the parameter `invariantToString`. */
  method BuildDelimitedList<T>(values: Option<seq<T>>, converter: Option<T -> string>,
                               invariantToString: T -> string, delimiter: Option<string>)
    returns (r: string)
    ensures r == DelimitedList(values, converter, invariantToString, delimiter)
  {
    if values.None? {
      return "";
    }
    var vs := values.value;
    var conv: T -> string := if converter.Some? then converter.value else invariantToString;
    var sep := if delimiter.Some? then delimiter.value else DefaultDelimiter;
    ghost var items := Converted(vs, conv);
    r := "";
    var first := true;
    var k := 0;
    while k < |vs|
      invariant 0 <= k <= |vs|
      invariant first <==> k == 0
      invariant r == Join(items[..k], sep)
    {
      if first {
        first := false;
      } else {
        r := r + sep;
      }
      r := r + conv(vs[k]);
      assert items[k] == conv(vs[k]);
      if k > 0 {
        JoinSnoc(items[..k], sep, items[k]);
      }
      assert items[..k + 1] == items[..k] + [items[k]];
      k := k + 1;
    }
    assert items[..k] == items;
  }

  /** A joined list never starts with the separator: it starts with the
      first item. */
  lemma {:induction false} JoinStartsWithFirst(items: seq<string>, sep: string)
    requires |items| > 0
    ensures |Join(items, sep)| >= |items[0]|
    ensures Join(items, sep)[..|items[0]|] == items[0]
  {
    if |items| > 1 {
      var init := items[..|items| - 1];
      JoinStartsWithFirst(init, sep);
      assert init[0] == items[0];
      var j := Join(init, sep);
      assert Join(items, sep) == j + sep + items[|items| - 1];
      assert (j + sep + items[|items| - 1])[..|items[0]|] == j[..|items[0]|];
    }
  }

  /** A joined list ends with its last item, not with the separator. */
  lemma JoinEndsWithLast(items: seq<string>, sep: string)
    requires |items| > 0
    ensures |Join(items, sep)| >= |items[|items| - 1]|
    ensures Join(items, sep)[|Join(items, sep)| - |items[|items| - 1]|..] == items[|items| - 1]
  {
  }

  /** The joined text is as long as the items plus one separator between
      each consecutive pair. */
  lemma {:induction false} JoinLength(items: seq<string>, sep: string)
    requires |items| > 0
    ensures |Join(items, sep)| == TotalLength(items) + (|items| - 1) * |sep|
  {
    if |items| > 1 {
      var init := items[..|items| - 1];
      JoinLength(init, sep);
      TotalLengthSnoc(init, items[|items| - 1]);
      assert init + [items[|items| - 1]] == items;
    }
  }

  function TotalLength(items: seq<string>): nat {
    if items == [] then 0 else |items[0]| + TotalLength(items[1..])
  }

  lemma {:induction false} TotalLengthSnoc(items: seq<string>, x: string)
    ensures TotalLength(items + [x]) == TotalLength(items) + |x|
  {
    if items != [] {
      assert (items + [x])[1..] == items[1..] + [x];
      TotalLengthSnoc(items[1..], x);
    } else {
      assert [x][1..] == [];
    }
  }

  /** FormatIndex: the array variable name followed by the index in brackets. */
  function FormatIndex(arrayVarName: string, index: int): (r: string)
    ensures |r| == |arrayVarName| + |IntToString(index)| + 2
    ensures r[..|arrayVarName|] == arrayVarName
    ensures r[|arrayVarName|] == '[' && r[|r| - 1] == ']'
    ensures r[|arrayVarName| + 1..|r| - 1] == IntToString(index)
  {
    arrayVarName + "[" + IntToString(index) + "]"
  }

  /** Appends a newline and then four spaces per indentation level; a
      level of zero or less adds no spaces. */
  method IndentNewLine(builder: string, indent: int) returns (r: string)
    ensures |r| == |builder| + |NewLine| + 4 * (if indent > 0 then indent else 0)
    ensures r[..|builder|] == builder
    ensures r[|builder|..|builder| + |NewLine|] == NewLine
    ensures forall j :: |builder| + |NewLine| <= j < |r| ==> r[j] == ' '
  {
    r := builder + NewLine;
    var i := 0;
    while i < indent
      invariant 0 <= i && (indent > 0 ==> i <= indent) && (indent <= 0 ==> i == 0)
      invariant |r| == |builder| + |NewLine| + 4 * i
      invariant r[..|builder|] == builder
      invariant r[|builder|..|builder| + |NewLine|] == NewLine
      invariant forall j :: |builder| + |NewLine| <= j < |r| ==> r[j] == ' '
    {
      r := r + "    ";
      i := i + 1;
    }
  }

  /** Every character of `v` at an index in [from, to) is white space. */
  predicate AllWhiteSpace(v: string, from: int, to: int)
    requires to <= |v|
  {
    forall i :: from <= i < to && 0 <= i ==> IsWhiteSpace(v[i])
  }

  /** IsNullOrEmptyOrWhiteSpace(value): null, empty or only white space. */
  method IsNullOrEmptyOrWhiteSpace(value: Option<string>) returns (r: bool)
    ensures r <==> (value.None? || forall i :: 0 <= i < |value.value| ==> IsWhiteSpace(value.value[i]))
  {
    var res := IsNullOrEmptyOrWhiteSpaceFrom(value, 0);
    r := res.value;
  }

  /** IsNullOrEmptyOrWhiteSpace(value, offset): scans from `offset` to the
      end; a negative offset indexes out of range as soon as the scan
      starts on a non-empty string. */
  method IsNullOrEmptyOrWhiteSpaceFrom(value: Option<string>, offset: int) returns (r: Result<bool>)
    ensures value.None? ==> r == Ok(true)
    ensures value.Some? && offset < 0 && offset < |value.value| ==> r == Fail(IndexOutOfRange)
    ensures value.Some? && (offset >= 0 || offset >= |value.value|) ==>
              r == Ok(AllWhiteSpace(value.value, offset, |value.value|))
  {
    if value.Some? {
      var v := value.value;
      var i := offset;
      while i < |v|
        invariant offset <= i
        invariant i > offset ==> offset >= 0
        invariant forall j :: offset <= j < i && 0 <= j < |v| ==> IsWhiteSpace(v[j])
      {
        if i < 0 {
          return Fail(IndexOutOfRange);
        }
        if !IsWhiteSpace(v[i]) {
          return Ok(false);
        }
        i := i + 1;
      }
    }
    return Ok(true);
  }

  /** IsNullOrEmptyOrWhiteSpace(value, offset, length): `length` is clipped
      to the string's length and used as the END of the scan, not as a
      count of characters after `offset`. */
  method IsNullOrEmptyOrWhiteSpaceRange(value: Option<string>, offset: int, length: int) returns (r: Result<bool>)
    ensures value.None? ==> r == Ok(true)
    ensures value.Some? ==>
              var end := if |value.value| < length then |value.value| else length;
              if offset < 0 && offset < end then r == Fail(IndexOutOfRange)
              else r == Ok(AllWhiteSpace(value.value, offset, end))
  {
    if value.Some? {
      var v := value.value;
      var end := if |v| < length then |v| else length;
      var i := offset;
      while i < end
        invariant offset <= i
        invariant i > offset ==> offset >= 0
        invariant forall j :: offset <= j < i && 0 <= j < |v| ==> IsWhiteSpace(v[j])
      {
        if i < 0 {
          return Fail(IndexOutOfRange);
        }
        if !IsWhiteSpace(v[i]) {
          return Ok(false);
        }
        i := i + 1;
      }
    }
    return Ok(true);
  }

  // ---- Ordinal sorting, the order of StringComparer.Ordinal ----

  /** a sorts no later than b when compared char by char (as Dafny chars; .NET compares UTF-16 code units),
      a proper prefix first. */
  predicate OrdinalLe(a: string, b: string) {
    if a == [] then true
    else if b == [] then false
    else if a[0] != b[0] then a[0] < b[0]
    else OrdinalLe(a[1..], b[1..])
  }

  lemma {:induction false} OrdinalTotal(a: string, b: string)
    ensures OrdinalLe(a, b) || OrdinalLe(b, a)
  {
    if a != [] && b != [] && a[0] == b[0] {
      OrdinalTotal(a[1..], b[1..]);
    }
  }

  lemma {:induction false} OrdinalAntisymmetric(a: string, b: string)
    requires OrdinalLe(a, b) && OrdinalLe(b, a)
    ensures a == b
  {
    if a != [] && b != [] {
      OrdinalAntisymmetric(a[1..], b[1..]);
      assert a == [a[0]] + a[1..];
      assert b == [b[0]] + b[1..];
    }
  }

  predicate SortedOrdinal(s: seq<string>) {
    forall i :: 0 < i < |s| ==> OrdinalLe(s[i - 1], s[i])
  }

  function InsertOrdinal(x: string, s: seq<string>): (r: seq<string>)
    ensures |r| == |s| + 1
    ensures r[0] == x || (|s| > 0 && r[0] == s[0])
    ensures multiset(r) == multiset(s) + multiset{x}
  {
    if s == [] then [x]
    else if OrdinalLe(x, s[0]) then [x] + s
    else
      assert s == [s[0]] + s[1..];
      [s[0]] + InsertOrdinal(x, s[1..])
  }

  /** List<string>.Sort(StringComparer.Ordinal), as an insertion sort. */
  function SortOrdinal(s: seq<string>): seq<string> {
    if s == [] then [] else InsertOrdinal(s[0], SortOrdinal(s[1..]))
  }

  lemma {:induction false} InsertOrdinalSorted(x: string, s: seq<string>)
    requires SortedOrdinal(s)
    ensures SortedOrdinal(InsertOrdinal(x, s))
  {
    if s != [] && !OrdinalLe(x, s[0]) {
      OrdinalTotal(x, s[0]);
      InsertOrdinalSorted(x, s[1..]);
      var t := InsertOrdinal(x, s[1..]);
      assert t[0] == x || t[0] == s[1];
      assert OrdinalLe(s[0], t[0]);
    }
  }

  /** The ordinal sort returns a sorted permutation of its input. */
  lemma {:induction false} SortOrdinalCorrect(s: seq<string>)
    ensures SortedOrdinal(SortOrdinal(s))
    ensures multiset(SortOrdinal(s)) == multiset(s)
  {
    if s != [] {
      SortOrdinalCorrect(s[1..]);
      InsertOrdinalSorted(s[0], SortOrdinal(s[1..]));
      assert s == [s[0]] + s[1..];
    }
  }

  // ---- ToSeparatedString and its wrappers ----

  /** The strings ToSeparatedStringPrivate writes for a list: null items
      replaced by `nullValue`, others by their invariant text, sorted
      ordinally when `toSort`. A list item is `None` for null and
      `Some(t)` for an object whose invariant text is `t`. */
  function Arranged(list: seq<Option<string>>, nullValue: string, toSort: bool): seq<string>
  {
    var strs := seq(|list|, i requires 0 <= i < |list| => if list[i].None? then nullValue else list[i].value);
    if toSort then SortOrdinal(strs) else strs
  }

  /** The text appended by ToSeparatedStringPrivate. */
  function SeparatedText(list: Option<seq<Option<string>>>, separator: string, nullValue: string, toSort: bool): string
  {
    if list.None? then "" else Join(Arranged(list.value, nullValue, toSort), separator)
  }

  /** Appends the arranged items to `builder`, the separator only between
      items; a null list appends nothing. */
  method ToSeparatedStringPrivate(builder: string, list: Option<seq<Option<string>>>,
                                  separator: string, nullValue: string, toSort: bool)
    returns (r: string)
    ensures r == builder + SeparatedText(list, separator, nullValue, toSort)
  {
    r := builder;
    if list.Some? {
      var items := list.value;
      var strs: seq<string> := [];
      var k := 0;
      while k < |items|
        invariant 0 <= k <= |items|
        invariant strs == seq(k, i requires 0 <= i < k => if items[i].None? then nullValue else items[i].value)
      {
        var str := if items[k].None? then nullValue else items[k].value;
        strs := strs + [str];
        k := k + 1;
      }
      if toSort {
        strs := SortOrdinal(strs);
      }
      assert strs == Arranged(items, nullValue, toSort);
      var first := true;
      var m := 0;
      while m < |strs|
        invariant 0 <= m <= |strs|
        invariant first <==> m == 0
        invariant r == builder + Join(strs[..m], separator)
      {
        if !first {
          r := r + separator;
        }
        r := r + strs[m];
        first := false;
        if m > 0 {
          JoinSnoc(strs[..m], separator, strs[m]);
        }
        assert strs[..m + 1] == strs[..m] + [strs[m]];
        m := m + 1;
      }
      assert strs[..m] == strs;
    }
  }

  /** The items joined by `separator`, in list order. */
  method ToSeparatedString(list: Option<seq<Option<string>>>, separator: string, nullValue: string) returns (r: string)
    ensures r == SeparatedText(list, separator, nullValue, false)
  {
    r := ToSeparatedStringPrivate("", list, separator, nullValue, false);
  }

  /** Appends the items to `builder`, null items as the empty string. */
  method AppendSeparatedString(builder: string, list: Option<seq<Option<string>>>, separator: string) returns (r: string)
    ensures r == builder + SeparatedText(list, separator, "", false)
  {
    r := ToSeparatedStringPrivate(builder, list, separator, "", false);
  }

  /** Appends the items to `builder`, null items as `nullValue`. */
  method AppendSeparatedStringOrNull(builder: string, list: Option<seq<Option<string>>>, separator: string, nullValue: string)
    returns (r: string)
    ensures r == builder + SeparatedText(list, separator, nullValue, false)
  {
    r := ToSeparatedStringPrivate(builder, list, separator, nullValue, false);
  }

  /** The items sorted ordinally and joined by `separator`. */
  method ToSeparatedStringSorted(list: Option<seq<Option<string>>>, separator: string, nullValue: string) returns (r: string)
    ensures r == SeparatedText(list, separator, nullValue, true)
  {
    r := ToSeparatedStringPrivate("", list, separator, nullValue, true);
  }

  /** Appends the items, sorted ordinally, to `builder`. */
  method AppendSeparatedStringSorted(builder: string, list: Option<seq<Option<string>>>, separator: string) returns (r: string)
    ensures r == builder + SeparatedText(list, separator, "", true)
  {
    r := ToSeparatedStringPrivate(builder, list, separator, "", true);
  }

  /** The items joined by ", ", null items as the empty string. */
  method ToCommaSeparatedString(list: Option<seq<Option<string>>>) returns (r: string)
    ensures r == SeparatedText(list, ", ", "", false)
  {
    r := ToSeparatedString(list, ", ", "");
  }

  /** Appends the items joined by ", " to `builder`. */
  method AppendCommaSeparatedString(builder: string, list: Option<seq<Option<string>>>) returns (r: string)
    ensures r == builder + SeparatedText(list, ", ", "", false)
  {
    r := ToSeparatedStringPrivate(builder, list, ", ", "", false);
  }

  /** The items sorted ordinally and joined by ", ". */
  method ToCommaSeparatedStringSorted(list: Option<seq<Option<string>>>) returns (r: string)
    ensures r == SeparatedText(list, ", ", "", true)
  {
    r := ToSeparatedStringSorted(list, ", ", "");
  }

  /** Appends the items, sorted ordinally and joined by ", ", to `builder`. */
  method AppendCommaSeparatedStringSorted(builder: string, list: Option<seq<Option<string>>>) returns (r: string)
    ensures r == builder + SeparatedText(list, ", ", "", true)
  {
    r := ToSeparatedStringPrivate(builder, list, ", ", "", true);
  }

  /** The members joined by ", " inside braces. */
  method MembersToCommaSeparatedString(members: Option<seq<Option<string>>>) returns (r: string)
    ensures r == "{" + SeparatedText(members, ", ", "", false) + "}"
  {
    var b := "{";
    b := AppendCommaSeparatedString(b, members);
    r := b + "}";
  }

  /** The sorted text is a sorted permutation of the items' texts. */
  lemma SortedSeparatedText(list: seq<Option<string>>, nullValue: string)
    ensures SortedOrdinal(Arranged(list, nullValue, true))
    ensures multiset(Arranged(list, nullValue, true)) == multiset(Arranged(list, nullValue, false))
  {
    SortOrdinalCorrect(Arranged(list, nullValue, false));
  }
}
