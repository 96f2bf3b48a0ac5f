/**
 * Substring search and the first-occurrence replacement performed by
 * `String.prototype.replace` when its pattern is a string, with the `$`
 * patterns a replacement string may hold (GetSubstitution).
 */
module Text {
  import opened Js

  /** `pat` occurs in `s` starting at index `i`. */
  predicate PrefixAt(s: string, i: int, pat: string)
  {
    0 <= i && i + |pat| <= |s| && s[i..i + |pat|] == pat
  }

  /** The first index at or after `from` where `pat` occurs (`s.indexOf(pat, from)`). */
  function IndexOf(s: string, pat: string, from: nat): (r: Option<nat>)
    ensures r.Some? ==> from <= r.value && PrefixAt(s, r.value, pat)
    ensures r.Some? ==> forall j :: from <= j < r.value ==> !PrefixAt(s, j, pat)
    ensures r.None? ==> forall j :: from <= j ==> !PrefixAt(s, j, pat)
    decreases |s| - from
  {
    if from + |pat| > |s| then None
    else if PrefixAt(s, from, pat) then Some(from)
    else IndexOf(s, pat, from + 1)
  }

  predicate Contains(s: string, pat: string)
  {
    exists i :: 0 <= i <= |s| && PrefixAt(s, i, pat)
  }

  lemma IndexOfFindsContained(s: string, pat: string)
    ensures IndexOf(s, pat, 0).Some? <==> Contains(s, pat)
  {
  }

  /** The first occurrence at or after `from` is at `i` when `pat` occurs there and nowhere between. */
  lemma IndexOfIs(s: string, pat: string, from: nat, i: nat)
    requires from <= i && PrefixAt(s, i, pat)
    requires forall k :: from <= k < i ==> !PrefixAt(s, k, pat)
    ensures IndexOf(s, pat, from) == Some(i)
  {
  }

  predicate EndsWith(s: string, suffix: string)
  {
    |suffix| <= |s| && s[|s| - |suffix|..] == suffix
  }

  /** An occurrence of `a + b` is an occurrence of `a` followed by one of `b`. */
  lemma PrefixAtSplit(s: string, i: nat, a: string, b: string)
    requires PrefixAt(s, i, a + b)
    ensures PrefixAt(s, i, a) && PrefixAt(s, i + |a|, b)
  {
    assert s[i..i + |a|] == s[i..i + |a| + |b|][..|a|];
    assert s[i + |a|..i + |a| + |b|] == s[i..i + |a| + |b|][|a|..];
  }

  /** The middle part of a three-part concatenation occurs where the first part ends. */
  lemma PrefixAtJoin(a: string, b: string, c: string)
    ensures PrefixAt(a + b + c, |a|, b)
    ensures EndsWith(a + b, b)
  {
    assert (a + b + c)[|a|..|a| + |b|] == b;
    assert (a + b)[|a|..] == b;
  }

  /**
   * `s.replace(pat, () => rep)`: the first occurrence of `pat` replaced by
   * `rep` taken literally; `s` itself when `pat` does not occur.
   */
  function ReplaceFirst(s: string, pat: string, rep: string): (r: string)
    ensures IndexOf(s, pat, 0).None? ==> r == s
    ensures IndexOf(s, pat, 0).Some? ==>
              var i := IndexOf(s, pat, 0).value;
              r == s[..i] + rep + s[i + |pat|..]
  {
    match IndexOf(s, pat, 0)
    case None => s
    case Some(i) => s[..i] + rep + s[i + |pat|..]
  }

  /**
   * GetSubstitution for a string pattern (no capture groups): `$$` is `$`,
   * `$&` the matched text, `` $` `` the text before the match, `$'` the text
   * after it; every other `$` stands for itself.
   */
  function Substitute(rep: string, matched: string, before: string, after: string): (r: string)
    ensures (forall i :: 0 <= i < |rep| ==> rep[i] != '$') ==> r == rep
    decreases |rep|
  {
    if rep == [] then []
    else if rep[0] == '$' && |rep| >= 2 && rep[1] == '$' then "$" + Substitute(rep[2..], matched, before, after)
    else if rep[0] == '$' && |rep| >= 2 && rep[1] == '&' then matched + Substitute(rep[2..], matched, before, after)
    else if rep[0] == '$' && |rep| >= 2 && rep[1] == '`' then before + Substitute(rep[2..], matched, before, after)
    else if rep[0] == '$' && |rep| >= 2 && rep[1] == '\'' then after + Substitute(rep[2..], matched, before, after)
    else [rep[0]] + Substitute(rep[1..], matched, before, after)
  }

  /** `s.replace(pat, rep)` with a string pattern and a replacement string. */
  function ReplaceFirstString(s: string, pat: string, rep: string): (r: string)
    ensures IndexOf(s, pat, 0).None? ==> r == s
    ensures (forall i :: 0 <= i < |rep| ==> rep[i] != '$') ==> r == ReplaceFirst(s, pat, rep)
  {
    match IndexOf(s, pat, 0)
    case None => s
    case Some(i) => s[..i] + Substitute(rep, pat, s[..i], s[i + |pat|..]) + s[i + |pat|..]
  }
}
