// Text primitives of the .NET base library that the provider relies on:
// invariant-culture number formatting, ordinal case folding, String.Replace,
// char.IsWhiteSpace and the platform newline.
module Text {

  /** Environment.NewLine on the Windows hosts the provider runs on. */
  const NewLine: string := "\r\n"

  function Digit(d: nat): (c: char)
    requires d < 10
    ensures '0' <= c <= '9'
  {
    "0123456789"[d]
  }

  function Pow10(k: nat): (p: nat)
    ensures p >= 1
  {
    if k == 0 then 1 else 10 * Pow10(k - 1)
  }

  /** Int32.ToString(CultureInfo.InvariantCulture) for a non-negative value. */
  function NatToString(n: nat): (s: string)
    ensures |s| >= 1
    ensures forall i :: 0 <= i < |s| ==> '0' <= s[i] <= '9'
    ensures s[|s| - 1] == Digit(n % 10)
  {
    if n < 10 then [Digit(n)] else NatToString(n / 10) + [Digit(n % 10)]
  }

  /** Int32.ToString(CultureInfo.InvariantCulture): a leading '-' for negatives. */
  function IntToString(i: int): (s: string)
    ensures |s| >= 1
    ensures (s[0] == '-') <==> i < 0
  {
    if i < 0 then "-" + NatToString(-i) else NatToString(i)
  }

  /** A number with at least k+1 digits is written with more than k characters. */
  lemma {:induction false} NatToStringLength(n: nat, k: nat)
    requires n >= Pow10(k)
    ensures |NatToString(n)| > k
  {
    if k > 0 {
      NatToStringLength(n / 10, k - 1);
    }
  }

  /** Distinct numbers are written differently. */
  lemma {:induction false} NatToStringInjective(a: nat, b: nat)
    requires NatToString(a) == NatToString(b)
    ensures a == b
  {
    var s := NatToString(a);
    if a >= 10 && b >= 10 {
      assert NatToString(a / 10) == s[..|s| - 1] == NatToString(b / 10);
      NatToStringInjective(a / 10, b / 10);
      DigitInjective(a % 10, b % 10);
    } else if a < 10 && b < 10 {
      DigitInjective(a, b);
    }
  }

  /** Distinct integers are written differently. */
  lemma IntToStringInjective(a: int, b: int)
    requires IntToString(a) == IntToString(b)
    ensures a == b
  {
    if a < 0 {
      assert b < 0;
      var na, nb: nat := -a, -b;
      assert IntToString(a) == "-" + NatToString(na) && IntToString(b) == "-" + NatToString(nb);
      assert NatToString(na) == IntToString(a)[1..] == IntToString(b)[1..] == NatToString(nb);
      NatToStringInjective(na, nb);
    } else {
      assert b >= 0;
      NatToStringInjective(a, b);
    }
  }

  lemma DigitInjective(a: nat, b: nat)
    requires a < 10 && b < 10 && Digit(a) == Digit(b)
    ensures a == b
  {
  }

  /** Upper-case fold of one ASCII letter; the key comparison of
      StringComparer.OrdinalIgnoreCase restricted to ASCII. */
  function FoldChar(c: char): (u: char)
    ensures 'a' <= c <= 'z' ==> 'A' <= u <= 'Z'
    ensures !('a' <= c <= 'z') ==> u == c
  {
    if 'a' <= c <= 'z' then (c as int - 32) as char else c
  }

  /** The case-insensitive key of a name: two names are the same key of an
      ignore-case dictionary iff their folds are equal. */
  function Fold(s: string): (f: string)
    ensures |f| == |s|
    ensures forall i :: 0 <= i < |s| ==> f[i] == FoldChar(s[i])
  {
    if s == [] then [] else [FoldChar(s[0])] + Fold(s[1..])
  }

  /** Folding a concatenation folds each part. */
  lemma FoldAppend(a: string, b: string)
    ensures Fold(a + b) == Fold(a) + Fold(b)
  {
    assert forall i :: 0 <= i < |a + b| ==> Fold(a + b)[i] == (Fold(a) + Fold(b))[i] by {
      forall i | 0 <= i < |a + b| ensures Fold(a + b)[i] == (Fold(a) + Fold(b))[i] {
        if i < |a| { assert (a + b)[i] == a[i]; } else { assert (a + b)[i] == b[i - |a|]; }
      }
    }
  }

  /** Numbers are written without lower-case letters, so folding leaves
      them as they are. */
  lemma FoldIntToString(n: int)
    ensures Fold(IntToString(n)) == IntToString(n)
  {
    var s := IntToString(n);
    if n < 0 {
      assert forall i :: 1 <= i < |s| ==> s[i] == NatToString(-n)[i - 1];
    }
    assert forall i :: 0 <= i < |s| ==> Fold(s)[i] == s[i];
  }

  /** A base name followed by distinct numbers gives keys that differ even
      ignoring case. */
  lemma FoldSuffixInjective(base: string, a: int, b: int)
    requires Fold(base + IntToString(a)) == Fold(base + IntToString(b))
    ensures a == b
  {
    FoldAppend(base, IntToString(a));
    FoldAppend(base, IntToString(b));
    FoldIntToString(a);
    FoldIntToString(b);
    assert (Fold(base) + IntToString(a))[|base|..] == IntToString(a);
    assert (Fold(base) + IntToString(b))[|base|..] == IntToString(b);
    IntToStringInjective(a, b);
  }

  /** Lower-case mapping of one ASCII letter (ToLowerInvariant restricted
      to ASCII). */
  function LowerChar(c: char): (l: char)
    ensures 'A' <= c <= 'Z' ==> 'a' <= l <= 'z'
    ensures !('A' <= c <= 'Z') ==> l == c
  {
    if 'A' <= c <= 'Z' then (c as int + 32) as char else c
  }

  /** string.ToLowerInvariant, ASCII letters only. */
  function ToLower(s: string): (l: string)
    ensures |l| == |s|
    ensures forall i :: 0 <= i < |s| ==> l[i] == LowerChar(s[i])
  {
    if s == [] then [] else [LowerChar(s[0])] + ToLower(s[1..])
  }

  /** A string without upper-case ASCII letters is its own lower case. */
  lemma ToLowerKeeps(s: string)
    requires forall i :: 0 <= i < |s| ==> !('A' <= s[i] <= 'Z')
    ensures ToLower(s) == s
  {
    assert forall i :: 0 <= i < |s| ==> ToLower(s)[i] == s[i];
  }

  predicate EqualsIgnoreCase(a: string, b: string) {
    Fold(a) == Fold(b)
  }

  /** string.StartsWith(prefix, StringComparison.OrdinalIgnoreCase). */
  predicate StartsWithIgnoreCase(s: string, prefix: string) {
    |prefix| <= |s| && EqualsIgnoreCase(s[..|prefix|], prefix)
  }

  /** string.EndsWith(suffix, StringComparison.OrdinalIgnoreCase). */
  predicate EndsWithIgnoreCase(s: string, suffix: string) {
    |suffix| <= |s| && EqualsIgnoreCase(s[|s| - |suffix|..], suffix)
  }

  /** char.IsWhiteSpace: the Unicode White_Space characters. */
  predicate IsWhiteSpace(c: char) {
    ('\U{0009}' <= c <= '\U{000D}') || c == '\U{0020}' || c == '\U{0085}' || c == '\U{00A0}'
    || c == '\U{1680}' || ('\U{2000}' <= c <= '\U{200A}') || c == '\U{2028}' || c == '\U{2029}'
    || c == '\U{202F}' || c == '\U{205F}' || c == '\U{3000}'
  }

  /** `n` copies of `s` (a loop of Append(s)). */
  function Repeat(s: string, n: nat): (r: string)
    ensures |r| == n * |s|
  {
    if n == 0 then "" else Repeat(s, n - 1) + s
  }

  /** The items with `sep` between consecutive ones and at neither end. */
  function Join(items: seq<string>, sep: string): string
  {
    if |items| == 0 then ""
    else if |items| == 1 then items[0]
    else Join(items[..|items| - 1], sep) + sep + items[|items| - 1]
  }

  /** Join of one more item appends the separator and the item. */
  lemma JoinSnoc(items: seq<string>, sep: string, x: string)
    requires |items| > 0
    ensures Join(items + [x], sep) == Join(items, sep) + sep + x
  {
    assert (items + [x])[..|items|] == items;
  }

  /** String.Replace(pat, rep): every occurrence of `pat`, scanning from
      the left and not overlapping, is replaced by `rep`. */
  function Replace(s: string, pat: string, rep: string): string
    requires |pat| > 0
    decreases |s|
  {
    if |s| < |pat| then s
    else if s[..|pat|] == pat then rep + Replace(s[|pat|..], pat, rep)
    else [s[0]] + Replace(s[1..], pat, rep)
  }

  /** A string free of `c` is left unchanged by replacing `c`. */
  lemma {:induction false} ReplaceAbsent(s: string, c: char, rep: string)
    requires c !in s
    ensures Replace(s, [c], rep) == s
  {
    if |s| >= 1 {
      assert s[0] in s;
      assert s[..1] != [c];
      ReplaceAbsent(s[1..], c, rep);
    }
  }

  /** Doubling a one-character delimiter and then un-doubling it gives the
      original string back. */
  lemma {:induction false} ReplaceDoubleUndouble(s: string, c: char)
    ensures Replace(Replace(s, [c], [c, c]), [c, c], [c]) == s
  {
    if |s| > 0 {
      var tail := Replace(s[1..], [c], [c, c]);
      ReplaceDoubleUndouble(s[1..], c);
      if s[0] == c {
        assert s[..1] == [c];
        assert Replace(s, [c], [c, c]) == [c, c] + tail;
        assert ([c, c] + tail)[..2] == [c, c];
        assert ([c, c] + tail)[2..] == tail;
      } else {
        assert s[..1] != [c];
        assert Replace(s, [c], [c, c]) == [s[0]] + tail;
        if |[s[0]] + tail| >= 2 {
          assert ([s[0]] + tail)[0] == s[0];
          assert ([s[0]] + tail)[..2] != [c, c];
        }
        assert ([s[0]] + tail)[1..] == tail;
      }
      assert s == [s[0]] + s[1..];
    }
  }

  /** The number of times `c` occurs in `s`. */
  function Count(s: string, c: char): nat {
    if s == [] then 0 else (if s[0] == c then 1 else 0) + Count(s[1..], c)
  }

  /** Replacing a one-character string lengthens the text by the extra
      length of the replacement at each occurrence. */
  lemma {:induction false} ReplaceCharLength(s: string, c: char, rep: string)
    ensures |Replace(s, [c], rep)| == |s| + Count(s, c) * (|rep| - 1)
  {
    if |s| > 0 {
      ReplaceCharLength(s[1..], c, rep);
      if s[0] == c {
        assert s[..1] == [c];
      } else {
        assert s[..1] != [c];
      }
    }
  }
}
