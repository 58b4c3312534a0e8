/** The JavaScript string operations the handlers use: `startsWith`,
    `indexOf`, `split(sep)[k]`, `replace` with a string pattern, and the
    decimal rendering of a status code inside a template literal. */
module Strings {
  import opened Wrappers

  /** `s.startsWith(prefix)` */
  predicate StartsWith(s: string, prefix: string)
    ensures StartsWith(s, prefix) <==> |prefix| <= |s| && s == prefix + s[|prefix|..]
  {
    |prefix| <= |s| && s[..|prefix|] == prefix
  }

  /** `s.endsWith(suffix)` */
  predicate EndsWith(s: string, suffix: string) {
    |suffix| <= |s| && s[|s| - |suffix|..] == suffix
  }

  /** `p` occurs in `s` starting at index `i`. */
  predicate OccursAt(s: string, p: string, i: nat) {
    i + |p| <= |s| && s[i..i + |p|] == p
  }

  ghost predicate Contains(s: string, p: string) {
    exists i: nat :: OccursAt(s, p, i)
  }

  /** The first index at or after `from` where `p` occurs. */
  function IndexFrom(s: string, p: string, from: nat): (r: Option<nat>)
    decreases |s| - from
    ensures r.Some? ==> from <= r.value && OccursAt(s, p, r.value)
    ensures r.Some? ==> forall j: nat :: from <= j < r.value ==> !OccursAt(s, p, j)
    ensures r.None? ==> forall j: nat :: from <= j ==> !OccursAt(s, p, j)
  {
    if |s| < from + |p| then None
    else if s[from..from + |p|] == p then Some(from)
    else IndexFrom(s, p, from + 1)
  }

  /** `s.indexOf(p)`, with None for -1: the first occurrence of `p` in `s`. */
  function IndexOf(s: string, p: string): (r: Option<nat>)
    ensures r.Some? ==> OccursAt(s, p, r.value)
    ensures r.Some? ==> forall j: nat :: j < r.value ==> !OccursAt(s, p, j)
    ensures r.None? <==> !Contains(s, p)
  {
    IndexFrom(s, p, 0)
  }

  /** `s.replace(pattern, replacement)` with a string pattern and a
      replacement that contains no `$` (so no `$&`, `$$`, `` $` `` or `$'`
      substitution applies): only the first occurrence is replaced. */
  function ReplaceFirst(s: string, pattern: string, replacement: string): (r: string)
    ensures !Contains(s, pattern) ==> r == s
    ensures Contains(s, pattern) ==> |r| == |s| - |pattern| + |replacement|
  {
    match IndexOf(s, pattern)
    case None => s
    case Some(i) => s[..i] + replacement + s[i + |pattern|..]
  }

  /** Whenever `s` splits as `a + pattern + b` with no occurrence of `pattern`
      starting inside `a`, the replacement takes the place of that occurrence
      and everything else is kept. */
  lemma ReplaceFirstAt(s: string, pattern: string, replacement: string, a: string, b: string)
    requires s == a + pattern + b
    requires forall j: nat :: j < |a| ==> !OccursAt(s, pattern, j)
    ensures ReplaceFirst(s, pattern, replacement) == a + replacement + b
  {
    assert OccursAt(s, pattern, |a|) by {
      assert s[|a|..|a| + |pattern|] == pattern;
    }
    var i := IndexOf(s, pattern).value;
    assert i == |a|;
    assert s[..i] == a;
    assert s[i + |pattern|..] == b;
  }

  /** A string that starts with `prefix` loses exactly that prefix. */
  lemma ReplaceFirstOfPrefix(prefix: string, rest: string)
    ensures ReplaceFirst(prefix + rest, prefix, "") == rest
  {
    ReplaceFirstAt(prefix + rest, prefix, "", "", rest);
  }

  /** `t` is the text of `s` before the first occurrence of `sep`, or all of
      `s` when there is none. */
  ghost predicate FieldBefore(s: string, sep: string, t: string) {
    && StartsWith(s, t)
    && (forall j: nat :: j < |t| ==> !OccursAt(s, sep, j))
    && (|t| == |s| || OccursAt(s, sep, |t|))
  }

  function Before(s: string, sep: string): (t: string)
  {
    match IndexOf(s, sep)
    case None => s
    case Some(i) => s[..i]
  }

  /** Before is exactly the text up to the first separator (both directions). */
  lemma BeforeIsFirstField(s: string, sep: string, t: string)
    requires sep != ""
    ensures Before(s, sep) == t <==> FieldBefore(s, sep, t)
  {
    match IndexOf(s, sep)
    case None =>
      assert !OccursAt(s, sep, |t|);
    case Some(i) =>
      assert |t| < i ==> !OccursAt(s, sep, |t|);
      assert FieldBefore(s, sep, t) && i < |t| ==> !OccursAt(s, sep, i);
  }

  /** A field holds no occurrence of the separator. */
  lemma FieldBeforeHasNoSeparator(s: string, sep: string, t: string)
    requires sep != ""
    requires FieldBefore(s, sep, t)
    ensures !Contains(t, sep)
  {
    forall j: nat ensures !OccursAt(t, sep, j) {
      if j + |sep| <= |t| {
        assert t == s[..|t|];
        assert t[j..j + |sep|] == s[j..j + |sep|];
        assert j < |t| && !OccursAt(s, sep, j);
      }
    }
  }

  /** `s.split(sep)[k]`, with None for undefined (fewer than k + 1 fields). */
  function SplitPart(s: string, sep: string, k: nat): (r: Option<string>)
    requires sep != ""
    decreases k
    ensures k == 0 ==> r == Some(Before(s, sep))
    ensures k > 0 ==> (r.Some? ==> Contains(s, sep))
  {
    if k == 0 then Some(Before(s, sep))
    else
      match IndexOf(s, sep)
      case None => None
      case Some(i) => SplitPart(s[i + |sep|..], sep, k - 1)
  }

  /** The second field exists exactly when the separator occurs, and is the
      text between its first occurrence and the next one (or the end). */
  lemma SplitSecondField(s: string, sep: string)
    requires sep != ""
    ensures SplitPart(s, sep, 1).Some? <==> Contains(s, sep)
    ensures Contains(s, sep) ==>
      var i := IndexOf(s, sep).value;
      SplitPart(s, sep, 1) == Some(Before(s[i + |sep|..], sep))
  {
  }

  /** One decimal digit. */
  function DigitChar(d: nat): (c: char)
    requires d < 10
    ensures '0' <= c <= '9' && c as int - '0' as int == d
  {
    "0123456789"[d]
  }

  predicate IsDigits(s: string) {
    forall i :: 0 <= i < |s| ==> '0' <= s[i] <= '9'
  }

  /** The number a string of decimal digits reads as. */
  function DigitsValue(s: string): (n: nat)
    requires IsDigits(s)
  {
    if s == [] then 0
    else DigitsValue(s[..|s| - 1]) * 10 + (s[|s| - 1] as int - '0' as int)
  }

  /** `String(n)` for a natural number: its decimal digits, no leading zero. */
  function NatToString(n: nat): (s: string)
    decreases n
    ensures |s| >= 1 && IsDigits(s)
    ensures |s| > 1 ==> s[0] != '0'
  {
    if n < 10 then [DigitChar(n)]
    else NatToString(n / 10) + [DigitChar(n % 10)]
  }

  /** Reading the rendered digits back gives the number. */
  lemma {:induction false} NatToStringRoundTrip(n: nat)
    ensures DigitsValue(NatToString(n)) == n
  {
    var s := NatToString(n);
    if n >= 10 {
      NatToStringRoundTrip(n / 10);
      assert s[..|s| - 1] == NatToString(n / 10);
    }
  }
}
