/**
 * The `<template tag="...">` markers the two partial-hydration
 * preprocessors look for, matched as their regular expressions match: at
 * the leftmost position where the pattern matches, the tag name running up
 * to the next `"`.
 */
module TemplateTags {
  import opened Js
  import opened Text

  /** A match of a tag pattern: the matched text is `s[start..end]`, `tag` the captured name. */
  datatype TagMatch = TagMatch(start: nat, end: nat, tag: string)

  const OpenPrefix: string := "<template tag=\""

  /** A pattern tried at one position, as a regular expression without the `g` flag is. */
  type Matcher = (string, nat) -> Option<TagMatch>

  /**
   * `<template tag="([^"]+)"` at position `i`: the name is everything up to
   * the next `"`, and must not be empty.
   */
  function TagOpeningAt(s: string, i: nat): (r: Option<TagMatch>)
    ensures r.Some? ==>
              && r.value.start == i && i <= r.value.end <= |s|
              && PrefixAt(s, i, OpenPrefix)
              && r.value.tag != [] && '"' !in r.value.tag
              && s[i..r.value.end] == OpenPrefix + r.value.tag + "\""
  {
    if !PrefixAt(s, i, OpenPrefix) then None
    else
      var j := i + |OpenPrefix|;
      match IndexOf(s, "\"", j)
      case None => None
      case Some(q) =>
        if q == j then None
        else
          assert forall k :: j <= k < q ==> s[k] != '"' by {
            forall k | j <= k < q ensures s[k] != '"' {
              assert !PrefixAt(s, k, "\"");
            }
          }
          assert s[i..q + 1] == s[i..j] + s[j..q] + s[q..q + 1];
          Some(TagMatch(i, q + 1, s[j..q]))
  }

  /** Every `<template tag="x"` at `i`, with a non-empty name free of `"`, matches there with name `x`. */
  lemma TagOpeningFound(s: string, i: nat, x: string)
    requires x != [] && '"' !in x && PrefixAt(s, i, OpenPrefix + x + "\"")
    ensures TagOpeningAt(s, i) == Some(TagMatch(i, i + |OpenPrefix| + |x| + 1, x))
  {
    NamedOpening(s, i, x);
  }

  /** The parts of such a text: the opening prefix, the name, and the first `"` after the prefix closing it. */
  lemma NamedOpening(s: string, i: nat, x: string)
    requires x != [] && '"' !in x && PrefixAt(s, i, OpenPrefix + x + "\"")
    ensures var j := i + |OpenPrefix|;
            && PrefixAt(s, i, OpenPrefix) && IndexOf(s, "\"", j) == Some(j + |x|) && s[j..j + |x|] == x
  {
    var j := i + |OpenPrefix|;
    var w := OpenPrefix + x + "\"";
    assert forall k | 0 <= k < |w| :: s[i + k] == w[k] by {
      forall k | 0 <= k < |w| ensures s[i + k] == w[k] {
        assert s[i..i + |w|][k] == w[k];
      }
    }
    assert s[i..j] == OpenPrefix by {
      forall k | 0 <= k < |OpenPrefix| ensures s[i..j][k] == OpenPrefix[k] {
        assert w[k] == OpenPrefix[k];
      }
    }
    forall k | 0 <= k < |x| ensures s[j + k] == x[k] {
      assert w[|OpenPrefix| + k] == x[k];
    }
    assert s[j..j + |x|] == x;
    assert s[j + |x|] == w[|OpenPrefix| + |x|] == '"';
    assert s[j + |x|..j + |x| + 1] == "\"";
    forall k | j <= k < j + |x| ensures !PrefixAt(s, k, "\"") {
      assert s[k] == x[k - j];
    }
    IndexOfIs(s, "\"", j, j + |x|);
  }

  /**
   * `<template tag="([^"]+)"( [^>])?>` at position `i`: the opening above,
   * then `>` directly, or a space, one character other than `>`, and `>`.
   * The match ends just after that `>`.
   */
  function TemplateElementOpenAt(s: string, i: nat): (r: Option<TagMatch>)
    ensures r.Some? ==>
              && TagOpeningAt(s, i).Some?
              && var q := TagOpeningAt(s, i).value.end;
              && r.value.start == i && r.value.tag == TagOpeningAt(s, i).value.tag
              && ((r.value.end == q + 1 <= |s| && s[q] == '>')
                  || (r.value.end == q + 3 <= |s| && s[q] == ' ' && s[q + 1] != '>' && s[q + 2] == '>'))
  {
    match TagOpeningAt(s, i)
    case None => None
    case Some(m) =>
      var q := m.end;
      if q + 3 <= |s| && s[q] == ' ' && s[q + 1] != '>' && s[q + 2] == '>' then
        Some(TagMatch(i, q + 3, m.tag))
      else if q + 1 <= |s| && s[q] == '>' then
        Some(TagMatch(i, q + 1, m.tag))
      else None
  }

  /**
   * Every `<template tag="x">` and `<template tag="x" c>` (with `c` not `>`)
   * at `i` matches there, with name `x`, up to and including its `>`.
   */
  lemma TemplateElementOpenFound(s: string, i: nat, x: string, close: string)
    requires x != [] && '"' !in x
    requires close == ">" || (|close| == 3 && close[0] == ' ' && close[1] != '>' && close[2] == '>')
    requires PrefixAt(s, i, OpenPrefix + x + "\"" + close)
    ensures TemplateElementOpenAt(s, i) == Some(TagMatch(i, i + |OpenPrefix| + |x| + 1 + |close|, x))
  {
    var w := OpenPrefix + x + "\"";
    var q := i + |w|;
    PrefixAtSplit(s, i, w, close);
    TagOpeningFound(s, i, x);
    forall k | 0 <= k < |close| ensures s[q + k] == close[k] {
      assert s[q..q + |close|][k] == close[k];
    }
  }

  /** The leftmost position at or after `from` where `pattern` matches, as `String.prototype.replace` finds it. */
  function Search(s: string, pattern: Matcher, from: nat): (r: Option<nat>)
    ensures r.Some? ==> from <= r.value <= |s| && pattern(s, r.value).Some?
    ensures r.Some? ==> forall j :: from <= j < r.value ==> pattern(s, j).None?
    ensures r.None? ==> forall j :: from <= j <= |s| ==> pattern(s, j).None?
    decreases |s| + 1 - from
  {
    if from > |s| then None
    else if pattern(s, from).Some? then Some(from)
    else Search(s, pattern, from + 1)
  }

  /** The first `<template tag="X"` in `s`. */
  function FirstTagOpening(s: string): (r: Option<TagMatch>)
    ensures r.Some? ==> r.value.start <= r.value.end <= |s| && TagOpeningAt(s, r.value.start) == r
    ensures r.Some? ==> forall j :: 0 <= j < r.value.start ==> TagOpeningAt(s, j).None?
    ensures r.None? ==> forall j :: 0 <= j <= |s| ==> TagOpeningAt(s, j).None?
  {
    match Search(s, TagOpeningAt, 0)
    case None => None
    case Some(i) => TagOpeningAt(s, i)
  }

  /** The first `<template tag="X">` or `<template tag="X" c>` in `s`. */
  function FirstTemplateOpen(s: string): (r: Option<TagMatch>)
    ensures r.Some? ==> r.value.start <= r.value.end <= |s| && TemplateElementOpenAt(s, r.value.start) == r
    ensures r.Some? ==> forall j :: 0 <= j < r.value.start ==> TemplateElementOpenAt(s, j).None?
    ensures r.None? ==> forall j :: 0 <= j <= |s| ==> TemplateElementOpenAt(s, j).None?
  {
    match Search(s, TemplateElementOpenAt, 0)
    case None => None
    case Some(i) => TemplateElementOpenAt(s, i)
  }

  /** A `<template tag="x"` anywhere in `s` is found: the first opening starts there or earlier. */
  lemma FirstTagOpeningFinds(s: string, i: nat, x: string)
    requires x != [] && '"' !in x && PrefixAt(s, i, OpenPrefix + x + "\"")
    ensures FirstTagOpening(s).Some? && FirstTagOpening(s).value.start <= i
  {
    TagOpeningFound(s, i, x);
  }

  /** A full opening tag anywhere in `s` is found: the first one starts there or earlier. */
  lemma FirstTemplateOpenFinds(s: string, i: nat, x: string, close: string)
    requires x != [] && '"' !in x
    requires close == ">" || (|close| == 3 && close[0] == ' ' && close[1] != '>' && close[2] == '>')
    requires PrefixAt(s, i, OpenPrefix + x + "\"" + close)
    ensures FirstTemplateOpen(s).Some? && FirstTemplateOpen(s).value.start <= i
  {
    TemplateElementOpenFound(s, i, x, close);
  }

  /** `s.replace(pattern, callback)` where the callback returns `rep`: the first match replaced. */
  function ReplaceMatch(s: string, m: TagMatch, rep: string): (r: string)
    requires m.start <= m.end <= |s|
    ensures |r| == |s| - (m.end - m.start) + |rep|
    ensures r[..m.start] == s[..m.start] && r[m.start + |rep|..] == s[m.end..]
    ensures r[m.start..m.start + |rep|] == rep
  {
    s[..m.start] + rep + s[m.end..]
  }
}
