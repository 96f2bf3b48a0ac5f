/**
 * The `markup` preprocessor of
 * src/tooling/partialHydration/addPartialHydrationServerInfoPreprocessor.ts,
 * used for the server build: the `<template tag="X"` wrapper of a
 * partially hydrated component becomes a `<svelte:head>` block announcing
 * the component's client bundle followed by an `X` element tagged with the
 * component's id, and the module script exports that id as `svId`.
 *
 * `process.cwd()` joined with `src/client` is the parameter `clientDir`.
 */
module ServerInfo {
  import opened Js
  import opened Text
  import opened TemplateTags

  /** What `markup` returns: the new code, and `dependencies` (`None` for `undefined`). */
  datatype Preprocessed = Preprocessed(code: string, dependencies: Option<seq<string>>)

  const CloseTag: string := "</template>"
  const ModuleScript: string := "<script context=\"module\">"

  /**
   * `svId`: the file name with the first occurrence of the client source
   * directory removed and a final `.svelte` turned into `.js`.
   */
  function SvId(filename: string, clientDir: string): (r: string)
    ensures !EndsWith(r, ".svelte")
    ensures EndsWith(ReplaceFirst(filename, clientDir, ""), ".svelte") ==> EndsWith(r, ".js")
  {
    var t := ReplaceFirst(filename, clientDir, "");
    if EndsWith(t, ".svelte") then
      var r := t[..|t| - 7] + ".js";
      assert r[|r| - 3..] == ".js";
      assert |r| < 7 || r[|r| - 7..][4..] == ".js";
      r
    else t
  }

  /** A component at `<clientDir><path>.svelte` gets the id `<path>.js`. */
  lemma SvIdOfComponent(clientDir: string, path: string)
    ensures SvId(clientDir + path + ".svelte", clientDir) == path + ".js"
  {
    var filename := clientDir + path + ".svelte";
    assert PrefixAt(filename, 0, clientDir);
    assert IndexOf(filename, clientDir, 0) == Some(0);
    var t := ReplaceFirst(filename, clientDir, "");
    assert t == path + ".svelte";
    assert t[..|t| - 7] == path;
  }

  /** Only a final `.svelte` is rewritten: an id for a file with another extension is the path itself. */
  lemma SvIdKeepsOtherExtensions(clientDir: string, path: string)
    requires !EndsWith(path, ".svelte")
    ensures SvId(clientDir + path, clientDir) == path
  {
    var filename := clientDir + path;
    assert PrefixAt(filename, 0, clientDir);
    assert ReplaceFirst(filename, clientDir, "") == path;
  }

  /** The indentation and `<svelte:head>` line that open the head block. */
  const HeadOpen: string := "\n              <svelte:head>\n                "

  /** The line break and indentation between the two links of the head block. */
  const LinkIndent: string := "\n                "

  /** The `</svelte:head>` line that closes the head block, and the indentation of the next line. */
  const HeadClose: string := "\n              </svelte:head>\n              "

  /**
   * The text the first replace's callback returns for component tag `tag`:
   * a preload link to the bundle `/<locale><svId>` first, on the next line
   * the `svComponent` link to the same bundle tagged with the id, and the
   * opening of the `tag` element carrying `data-sv-id` last, so the
   * template's own attributes follow it.
   */
  function HeadBlock(locale: string, svId: string, tag: string): (r: string)
    ensures PrefixAt(r, |HeadOpen|, "<link rel=\"preload\" href=\"/" + locale + svId + "\">")
    ensures var after := |HeadOpen| + |"<link rel=\"preload\" href=\"/" + locale + svId + "\">"| + |LinkIndent|;
            PrefixAt(r, after, "<link rel=\"svComponent\" href=\"/" + locale + svId + "\" data-sv-id=\"" + svId + "\">")
    ensures EndsWith(r, "<" + tag + " data-sv-id=\"" + svId + "\"\n            ")
    ensures PrefixAt(r, 0, HeadOpen)
    ensures var component := "<link rel=\"svComponent\" href=\"/" + locale + svId + "\" data-sv-id=\"" + svId + "\">";
            var after := |HeadOpen| + |"<link rel=\"preload\" href=\"/" + locale + svId + "\">"| + |LinkIndent| + |component|;
            PrefixAt(r, after, HeadClose)
  {
    var preload := "<link rel=\"preload\" href=\"/" + locale + svId + "\">";
    var component := "<link rel=\"svComponent\" href=\"/" + locale + svId + "\" data-sv-id=\"" + svId + "\">";
    var element := "<" + tag + " data-sv-id=\"" + svId + "\"\n            ";
    BlockParts(HeadOpen, preload, LinkIndent, component, HeadClose, element);
    HeadOpen + preload + LinkIndent + component + HeadClose + element
  }

  /** Where each part of a six-part concatenation sits. */
  lemma BlockParts(a: string, b: string, c: string, d: string, e: string, f: string)
    ensures var r := a + b + c + d + e + f;
            && PrefixAt(r, 0, a) && PrefixAt(r, |a|, b) && PrefixAt(r, |a| + |b| + |c|, d)
            && PrefixAt(r, |a| + |b| + |c| + |d|, e) && EndsWith(r, f)
  {
  }

  /** `export const svId = ${JSON.stringify(svId)};` */
  function ExportSvId(svId: string): (r: string)
    ensures PrefixAt(r, 0, "export const svId = \"") && EndsWith(r, "\";")
    ensures Plain(svId) ==> r == "export const svId = \"" + svId + "\";"
  {
    "export const svId = " + JsonQuote(svId) + ";"
  }

  /** Two components export the same `svId` line only when their ids are equal. */
  lemma ExportSvIdInjective(a: string, b: string)
    ensures ExportSvId(a) == ExportSvId(b) <==> a == b
  {
    if ExportSvId(a) == ExportSvId(b) {
      var p := "export const svId = ";
      assert ExportSvId(a) == p + (JsonQuote(a) + ";");
      assert ExportSvId(b) == p + (JsonQuote(b) + ";");
      CancelPrefix(p, JsonQuote(a) + ";", JsonQuote(b) + ";");
      JsonQuoteSplit(a, b, ";", ";");
    }
  }

  /**
   * `markup({ content, filename })`. `componentTag` is set by the first
   * replace's callback, and only when `<template tag="X"` occurs; the
   * second replace reads it, so without a template the closing tag becomes
   * `</undefined>`.
   */
  method Markup(locale: string, clientDir: string, content: string, filename: string) returns (result: Preprocessed)
    ensures var id := SvId(filename, clientDir);
            var m := FirstTagOpening(content);
            var tagged := if m.Some? then ReplaceMatch(content, m.value, HeadBlock(locale, id, m.value.tag)) else content;
            var closed := ReplaceFirstString(tagged, CloseTag, "</" + (if m.Some? then m.value.tag else "undefined") + ">");
            && (IndexOf(closed, ModuleScript, 0).Some? ==>
                  var e := IndexOf(closed, ModuleScript, 0).value + |ModuleScript|;
                  result.code == closed[..e] + ExportSvId(id) + closed[e..])
            && (IndexOf(closed, ModuleScript, 0).None? ==>
                  result.code == ModuleScript + ExportSvId(id) + "</script>" + closed)
    ensures Contains(result.code, ModuleScript + ExportSvId(SvId(filename, clientDir)))
    ensures result.dependencies == if FirstTagOpening(content).Some? then Some([]) else None
  {
    var componentTag: Option<string> := None;
    var svId := SvId(filename, clientDir);
    var code := content;
    var m := FirstTagOpening(content);
    if m.Some? {
      componentTag := Some(if m.value.tag != "" then m.value.tag else "div");
      code := ReplaceMatch(content, m.value, HeadBlock(locale, svId, componentTag.value));
    }
    var closing := "</" + (if componentTag.Some? then componentTag.value else "undefined") + ">";
    code := ReplaceFirstString(code, CloseTag, closing);
    code := WithExport(code, ExportSvId(svId));
    result := Preprocessed(code, if componentTag.Some? then Some([]) else None);
  }

  /**
   * The export statement placed right after the first module script tag,
   * or in a module script of its own put before the code when there is none.
   */
  function WithExport(code: string, exportSvId: string): (r: string)
    ensures Contains(r, ModuleScript + exportSvId)
    ensures IndexOf(code, ModuleScript, 0).Some? ==> |r| == |code| + |exportSvId|
    ensures IndexOf(code, ModuleScript, 0).None? ==> EndsWith(r, code)
  {
    match IndexOf(code, ModuleScript, 0)
    case Some(at) =>
      var e := at + |ModuleScript|;
      InsertedAfter(code, at, ModuleScript, exportSvId);
      code[..e] + exportSvId + code[e..]
    case None =>
      var r := ModuleScript + exportSvId + "</script>" + code;
      assert PrefixAt(r, 0, ModuleScript + exportSvId);
      assert r[|r| - |code|..] == code;
      r
  }

  /** Text inserted right after an occurrence of `pat` follows it directly. */
  lemma InsertedAfter(s: string, i: nat, pat: string, ins: string)
    requires PrefixAt(s, i, pat)
    ensures PrefixAt(s[..i + |pat|] + ins + s[i + |pat|..], i, pat + ins)
  {
    var t := s[..i + |pat|] + ins + s[i + |pat|..];
    assert t[i..i + |pat|] == s[i..i + |pat|];
    assert t[i + |pat|..i + |pat| + |ins|] == ins;
    assert t[i..i + |pat| + |ins|] == t[i..i + |pat|] + t[i + |pat|..i + |pat| + |ins|];
  }

  /**
   * A tag name without `$` (`undefined` included) is taken literally: the
   * first `</template>` becomes `</tag>` and nothing else changes.
   */
  lemma LiteralClosingTag(s: string, tag: string)
    requires '$' !in tag
    ensures var closed := ReplaceFirstString(s, CloseTag, "</" + tag + ">");
            && (IndexOf(s, CloseTag, 0).None? ==> closed == s)
            && (IndexOf(s, CloseTag, 0).Some? ==>
                  var i := IndexOf(s, CloseTag, 0).value;
                  closed == s[..i] + "</" + tag + ">" + s[i + |CloseTag|..])
  {
    var rep := "</" + tag + ">";
    forall i | 0 <= i < |rep| ensures rep[i] != '$' {
      if 2 <= i < 2 + |tag| {
        assert rep[i] == tag[i - 2];
      }
    }
  }

  /**
   * A closing-tag replacement is a replacement string, so `$` patterns in a
   * tag name are expanded: tag `$&` closes with `</</template>>`.
   */
  lemma DollarInTagExpanded()
    ensures ReplaceFirstString(CloseTag, CloseTag, "</$&>") == "</" + CloseTag + ">"
  {
    assert PrefixAt(CloseTag, 0, CloseTag);
    assert IndexOf(CloseTag, CloseTag, 0) == Some(0);
    var rep := "</$&>";
    assert rep[2..] == "$&>" && rep[4..] == ">";
    assert Substitute(">", CloseTag, "", "") == ">";
    assert Substitute("$&>", CloseTag, "", "") == CloseTag + ">";
    assert Substitute("/$&>", CloseTag, "", "") == "/" + CloseTag + ">";
  }
}
