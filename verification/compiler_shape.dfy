/**
 * The shape of what `buildCallExpression` and `buildTemplateLiteral` emit in
 * src/tooling/intl/babelIntlPlugin.js: the helper a call invokes and its
 * arguments, the keys of the options object, and the expressions of a
 * template literal.
 */
module CompilerShape {
  import opened Js
  import opened IntlKeys
  import opened IcuAst
  import opened JsAst
  import opened CompilerSpec

  /**
   * Every element compiled by `buildCallExpression` becomes a call of the
   * helper `CalleeName(n)` whose first argument is the element's parameter;
   * a select or plural passes its options object last, with one property
   * per option, and an offset in between only when it is non-zero.
   */
  lemma CallShape(n: Node, stack: seq<Frame>)
    requires CallReady(n, |stack|)
    ensures var e := CallSpec(n, stack);
            && e.Call? && e.callee == CalleeName(n) && |e.args| >= 1 && e.args[0] == Ident(n.name)
            && (!IsFormatter(n) ==>
                  && |e.args| == (if n.Plural? && n.offset != 0 then 3 else 2)
                  && e.args[|e.args| - 1].ObjectExpr? && |e.args[|e.args| - 1].props| == |n.cases|)
  {
  }

  /**
   * `{x}`, `{x, number, s}`, `{x, date, s}` and `{x, time, s}` call their
   * `HELPERS_MAP` helper on `x`, with the style as a second argument only
   * when it is a non-empty string.
   */
  lemma FormatterCallShape(n: Node, stack: seq<Frame>)
    requires IsFormatter(n)
    ensures var e := CallSpec(n, stack);
            && e.Call? && HelperName(n).Some? && e.callee == HelperName(n).value
            && 1 <= |e.args| <= 2 && e.args[0] == Ident(n.name)
            && (|e.args| == 2 <==> StyleOf(n).Some? && StyleOf(n).value != "")
            && (|e.args| == 2 ==> e.args[1] == StringLit(StyleOf(n).value))
  {
  }

  /**
   * A plural calls `__offsetPlural(x, offset, options)` when its offset is
   * non-zero and `__plural(x, options)` when it is zero; the helper recorded
   * for the call is that one and never the other.
   */
  lemma PluralCallShape(x: string, offset: int, cs: seq<Case>, stack: seq<Frame>)
    requires CallReady(Plural(x, offset, cs), |stack|)
    ensures var n := Plural(x, offset, cs);
            var e := CallSpec(n, stack);
            && e.Call? && e.args[0] == Ident(x) && e.args[|e.args| - 1].ObjectExpr?
            && (offset != 0 ==> e.callee == "__offsetPlural" && |e.args| == 3 && e.args[1] == NumericLit(offset))
            && (offset == 0 ==> e.callee == "__plural" && |e.args| == 2)
            && CalleeName(n) in CallHelpers(n)
            && ("__plural" == CalleeName(n) <==> offset == 0)
            && ("__offsetPlural" == CalleeName(n) <==> offset != 0)
  {
  }

  /** The keys of a sequence of properties, in order. */
  function KeysOf(props: seq<Property>): (r: seq<PropKey>)
    ensures |r| == |props|
    ensures forall j :: 0 <= j < |props| ==> r[j] == props[j].key
  {
    if props == [] then [] else KeysOf(props[..|props| - 1]) + [props[|props| - 1].key]
  }

  /** The normalised selectors of the first `k` options, in order. */
  function SelectorKeys(cs: seq<Case>, plural: bool, k: nat): (r: seq<PropKey>)
    requires k <= |cs|
    ensures |r| == k
  {
    if k == 0 then [] else SelectorKeys(cs, plural, k - 1) + [OptionKey(cs[k - 1].key, plural)]
  }

  lemma KeysOfAppend(props: seq<Property>, p: Property)
    ensures KeysOf(props + [p]) == KeysOf(props) + [p.key]
  {
    assert (props + [p])[..|props|] == props;
  }

  /**
   * The options object has one property per option, in order, keyed by the
   * normalised selector: `normalizePluralKey` under a plural, `normalizeKey`
   * under a select.
   */
  lemma {:induction false} OptionKeysInOrder(cs: seq<Case>, plural: bool, stack: seq<Frame>, k: nat)
    requires k <= |cs| && CasesReady(cs, |stack|)
    ensures KeysOf(OptionsSpec(cs, plural, stack, k)) == SelectorKeys(cs, plural, k)
    decreases k
  {
    if k > 0 {
      OptionKeysInOrder(cs, plural, stack, k - 1);
      var prev := OptionsSpec(cs, plural, stack, k - 1);
      var p := OptionsSpec(cs, plural, stack, k)[k - 1];
      assert OptionsSpec(cs, plural, stack, k) == prev + [p];
      assert p.key == OptionKey(cs[k - 1].key, plural);
      KeysOfAppend(prev, p);
    }
  }

  /** The number of elements among the first `k` that push an expression: all but literals and unknown kinds. */
  function Placeholders(ast: seq<Node>, k: nat): (r: nat)
    requires k <= |ast|
    ensures r <= k
  {
    if k == 0 then 0
    else Placeholders(ast, k - 1) + (if ast[k - 1].Literal? || ast[k - 1].Unrecognised? then 0 else 1)
  }

  /** Each placeholder pushes exactly one expression, so there are as many expressions as placeholders. */
  lemma {:induction false} ExprsPerPlaceholder(ast: seq<Node>, stack: seq<Frame>, k: nat)
    requires k <= |ast| && TemplateReady(ast, |stack|)
    ensures |TemplateExprs(ast, stack, k)| == Placeholders(ast, k)
    decreases k
  {
    if k > 0 {
      ExprsPerPlaceholder(ast, stack, k - 1);
      assert TemplateNodeReady(ast[k - 1], |stack|);
      var prev := TemplateExprs(ast, stack, k - 1);
      var more := ElementExprs(ast[k - 1], stack);
      assert TemplateExprs(ast, stack, k) == prev + more;
    }
  }

  /** Expressions are appended: the first `k` elements' expressions begin those of the first `m`. */
  lemma {:induction false} ExprsPrefix(ast: seq<Node>, stack: seq<Frame>, k: nat, m: nat)
    requires k <= m <= |ast| && TemplateReady(ast, |stack|)
    ensures TemplateExprs(ast, stack, k) <= TemplateExprs(ast, stack, m)
    decreases m - k
  {
    if k < m {
      ExprsPrefix(ast, stack, k, m - 1);
      assert TemplateNodeReady(ast[m - 1], |stack|);
      var prev := TemplateExprs(ast, stack, m - 1);
      var more := ElementExprs(ast[m - 1], stack);
      assert TemplateExprs(ast, stack, m) == prev + more;
      PrefixExtends(TemplateExprs(ast, stack, k), prev, more);
    }
  }

  lemma PrefixExtends<T>(a: seq<T>, b: seq<T>, c: seq<T>)
    requires a <= b
    ensures a <= b + c
  {
    assert (b + c)[..|a|] == b[..|a|];
  }

  lemma IndexAfterPrefix<T>(a: seq<T>, x: T, whole: seq<T>)
    requires a + [x] <= whole
    ensures |a| < |whole| && whole[|a|] == x
  {
    assert whole[|a|] == (a + [x])[|a|];
  }

  /**
   * In source order: the call built for a formatting, select or plural
   * element `i` is expression number `Placeholders(ast, i)` of the template.
   */
  lemma ExprsInSourceOrder(ast: seq<Node>, stack: seq<Frame>, i: nat)
    requires i < |ast| && TemplateReady(ast, |stack|)
    requires IsFormatter(ast[i]) || ast[i].Select? || ast[i].Plural?
    ensures CallReady(ast[i], |stack|)
    ensures Placeholders(ast, i) < |TemplateExprs(ast, stack, |ast|)|
    ensures TemplateExprs(ast, stack, |ast|)[Placeholders(ast, i)] == CallSpec(ast[i], stack)
  {
    assert TemplateNodeReady(ast[i], |stack|);
    ExprsPerPlaceholder(ast, stack, i);
    ExprsPrefix(ast, stack, i + 1, |ast|);
    var before := TemplateExprs(ast, stack, i);
    var call := CallSpec(ast[i], stack);
    assert ElementExprs(ast[i], stack) == [call];
    assert TemplateExprs(ast, stack, i + 1) == before + [call];
    IndexAfterPrefix(before, call, TemplateExprs(ast, stack, |ast|));
  }
  /**
   * The helper is chosen per plural, so a message with one plural without
   * offset and one with an offset records both `__plural` and
   * `__offsetPlural`.
   */
  lemma BothPluralHelpersRecorded(a: string, b: string)
    ensures var ast := [Plural(a, 0, [Case("other", [Literal("x")])]), Plural(b, 1, [Case("other", [Literal("y")])])];
            FunctionReady(ast) && {"__plural", "__offsetPlural"} <= FunctionHelpers(ast)
  {
    var ast := [Plural(a, 0, [Case("other", [Literal("x")])]), Plural(b, 1, [Case("other", [Literal("y")])])];
    assert CallReady(ast[0], 0) && CallReady(ast[1], 0);
    assert TemplateHelpers(ast, 2) == TemplateHelpers(ast, 1) + ElementHelpers(ast[1]);
    assert "__plural" in ElementHelpers(ast[0]) && "__offsetPlural" in ElementHelpers(ast[1]);
  }
}
