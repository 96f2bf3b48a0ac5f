/**
 * The `markup` preprocessor of
 * src/tooling/partialHydration/removeTemplatePreprocessor.ts, used for the
 * client build: it strips the first `<template tag="...">` opening tag and
 * the first `</template>`, leaving the component's own markup.
 */
module RemoveTemplate {
  import opened Js
  import opened Text
  import opened TemplateTags

  const CloseTag: string := "</template>"

  /** The first replace: the leftmost `<template tag="X">` (or `<template tag="X" c>`) removed. */
  function StripOpening(content: string): (r: string)
    ensures FirstTemplateOpen(content).None? ==> r == content
    ensures FirstTemplateOpen(content).Some? ==>
              var m := FirstTemplateOpen(content).value;
              m.start < m.end <= |content| && r == content[..m.start] + content[m.end..]
  {
    match FirstTemplateOpen(content)
    case None => content
    case Some(m) => ReplaceMatch(content, m, "")
  }

  /** `markup({ content })`: the code with the opening tag and then the first `</template>` removed. */
  function Markup(content: string): (code: string)
    ensures var t := StripOpening(content);
            && (IndexOf(t, CloseTag, 0).None? ==> code == t)
            && (IndexOf(t, CloseTag, 0).Some? ==>
                  var i := IndexOf(t, CloseTag, 0).value;
                  code == t[..i] + t[i + |CloseTag|..])
  {
    ReplaceFirstString(StripOpening(content), CloseTag, "")
  }

  /** The rewrite only deletes: the code is never longer than the content, and shorter whenever a marker was found. */
  lemma MarkupNeverLonger(content: string)
    ensures |Markup(content)| <= |content|
    ensures FirstTemplateOpen(content).Some? || Contains(content, CloseTag) ==>
              |Markup(content)| < |content|
  {
    var t := StripOpening(content);
    IndexOfFindsContained(t, CloseTag);
    IndexOfFindsContained(content, CloseTag);
    if FirstTemplateOpen(content).None? && Contains(content, CloseTag) {
      assert t == content;
    }
  }

  /** Content without either marker comes back unchanged. */
  lemma MarkupWithoutMarkersIsIdentity(content: string)
    requires FirstTemplateOpen(content).None?
    requires !Contains(content, CloseTag)
    ensures Markup(content) == content
  {
    IndexOfFindsContained(content, CloseTag);
  }

  /**
   * Only the first `</template>` goes: everything after it is kept, later
   * closing tags included.
   */
  lemma LaterClosingTagsKept(content: string)
    ensures var t := StripOpening(content);
            IndexOf(t, CloseTag, 0).Some? ==>
              var i := IndexOf(t, CloseTag, 0).value;
              Markup(content)[..i] == t[..i] && Markup(content)[i..] == t[i + |CloseTag|..]
  {
  }

  /** `<template tag="X"><p>hi</p></template>` becomes `<p>hi</p>`. */
  lemma WrapperRemoved(x: string, inner: string)
    requires x != [] && '"' !in x
    requires !Contains(inner, CloseTag)
    ensures Markup(OpenPrefix + x + "\">" + inner + CloseTag) == inner
  {
    var content := OpenPrefix + x + "\">" + inner + CloseTag;
    var t := inner + CloseTag;
    assert content == OpenPrefix + x + "\">" + t;
    OpeningStripped(x, t);
    ClosingFound(inner);
    assert t[..|inner|] == inner && t[|inner| + |CloseTag|..] == [];
  }

  /** The opening tag of `<template tag="X">rest` is found at the start and removed. */
  lemma OpeningStripped(x: string, rest: string)
    requires x != [] && '"' !in x
    ensures StripOpening(OpenPrefix + x + "\">" + rest) == rest
  {
    var content := OpenPrefix + x + "\">" + rest;
    var q := |OpenPrefix| + |x|;
    assert PrefixAt(content, 0, OpenPrefix);
    assert IndexOf(content, "\"", |OpenPrefix|) == Some(q) by {
      assert PrefixAt(content, q, "\"");
      forall k | |OpenPrefix| <= k < q ensures !PrefixAt(content, k, "\"") {
        assert content[k] == x[k - |OpenPrefix|];
      }
    }
    assert content[|OpenPrefix|..q] == x;
    assert TagOpeningAt(content, 0) == Some(TagMatch(0, q + 1, x));
    assert content[q + 1] == '>';
    assert TemplateElementOpenAt(content, 0) == Some(TagMatch(0, q + 2, x));
    assert content[q + 2..] == rest;
  }

  /** Without a `</template>` of its own, `inner + "</template>"` has its first one at the end. */
  lemma ClosingFound(inner: string)
    requires !Contains(inner, CloseTag)
    ensures IndexOf(inner + CloseTag, CloseTag, 0) == Some(|inner|)
  {
    PrefixAtJoin(inner, CloseTag, []);
    assert inner + CloseTag + [] == inner + CloseTag;
    NoCloseTagBefore(inner);
    IndexOfIs(inner + CloseTag, CloseTag, 0, |inner|);
  }

  lemma NoCloseTagBefore(inner: string)
    requires !Contains(inner, CloseTag)
    ensures forall k :: 0 <= k < |inner| ==> !PrefixAt(inner + CloseTag, k, CloseTag)
  {
    forall k | 0 <= k < |inner| ensures !PrefixAt(inner + CloseTag, k, CloseTag) {
      if PrefixAt(inner + CloseTag, k, CloseTag) {
        CloseTagSpansEnd(inner, k);
      }
    }
  }

  /** An occurrence of `</template>` starting inside `inner` in `inner + "</template>"` lies in `inner`. */
  lemma CloseTagSpansEnd(inner: string, k: nat)
    requires k < |inner| && PrefixAt(inner + CloseTag, k, CloseTag)
    ensures Contains(inner, CloseTag)
  {
    var t := inner + CloseTag;
    assert t[|inner|] == '<';
    assert forall d | 0 < d < |CloseTag| :: CloseTag[d] != '<';
    assert k + |CloseTag| <= |inner|;
    assert inner[k..k + |CloseTag|] == t[k..k + |CloseTag|];
    assert PrefixAt(inner, k, CloseTag);
  }
}
