/**
 * What the message compiler of src/tooling/intl/babelIntlPlugin.js produces,
 * as functions of the AST and of the stack of enclosing plurals:
 * the emitted expression (`buildCallExpression`, `buildTemplateLiteral`,
 * `buildFunction`), the helper names it records in `usedHelpers`, and the
 * parameter names it records in `currentFunctionParams`. The imperative
 * compiler in module MessageCompiler is proved to compute exactly these.
 */
module CompilerSpec {
  import opened Js
  import opened IntlKeys
  import opened IcuAst
  import opened JsAst
  import opened Order

  /** An entry of `pluralsStack`: the plural's argument name and its offset. */
  datatype Frame = Frame(param: string, offset: int)

  /** `HELPERS_MAP`: the helper a kind 1 to 6 element is compiled to (before the offset rule). */
  function HelperName(n: Node): Option<string>
  {
    match n
    case Argument(_) => Some("__interpolate")
    case NumberArg(_, _) => Some("__number")
    case DateArg(_, _) => Some("__date")
    case TimeArg(_, _) => Some("__time")
    case Select(_, _) => Some("__select")
    case Plural(_, _, _) => Some("__plural")
    case _ => None
  }

  /** The helper the emitted call invokes: `__offsetPlural` for a plural with a non-zero offset. */
  function CalleeName(n: Node): string
  {
    if n.Plural? && n.offset != 0 then "__offsetPlural"
    else match HelperName(n) case Some(f) => f case None => ""
  }

  // ---------------------------------------------------------------------------
  // Which ASTs the compiler can handle without throwing. `buildCallExpression`
  // on a literal, a `#` or an unknown element reaches `Object.keys(undefined)`;
  // a `#` with no enclosing plural reads `.offset` of `undefined`.
  // ---------------------------------------------------------------------------

  /** `buildCallExpression(n)` completes when `depth` plurals enclose it. */
  predicate CallReady(n: Node, depth: nat)
    decreases NodeSize(n), 0, 0
  {
    match n
    case Select(_, cs) => CasesReady(cs, depth)
    case Plural(_, _, cs) => CasesReady(cs, depth + 1)
    case _ => IsFormatter(n)
  }

  predicate CasesReady(cs: seq<Case>, depth: nat)
    decreases CasesSize(cs), 0, 0
  {
    forall i | 0 <= i < |cs| :: ValueReady(cs[i].value, depth)
  }

  /** An option's sub-message: one literal, one element compiled by call, or a template. */
  predicate ValueReady(v: seq<Node>, depth: nat)
    decreases NodesSize(v), 2, 0
  {
    if |v| == 1 then v[0].Literal? || CallReady(v[0], depth)
    else TemplateReady(v, depth)
  }

  /** `buildTemplateLiteral(ast)` completes. */
  predicate TemplateReady(ast: seq<Node>, depth: nat)
    decreases NodesSize(ast), 1, 0
  {
    forall i | 0 <= i < |ast| :: TemplateNodeReady(ast[i], depth)
  }

  predicate TemplateNodeReady(n: Node, depth: nat)
    decreases NodeSize(n), 1, 0
  {
    match n
    case Pound => depth > 0
    case Select(_, _) => CallReady(n, depth)
    case Plural(_, _, _) => CallReady(n, depth)
    case _ => true
  }

  /** `buildFunction(ast)` completes. */
  predicate FunctionReady(ast: seq<Node>)
  {
    if |ast| == 1 then CallReady(ast[0], 0) else TemplateReady(ast, 0)
  }

  // ---------------------------------------------------------------------------
  // The emitted expressions.
  // ---------------------------------------------------------------------------

  /** A `#`: the innermost plural's argument, minus its offset when that is non-zero. */
  function PoundExpr(stack: seq<Frame>): Expr
    requires |stack| > 0
  {
    var top := stack[|stack| - 1];
    if top.offset != 0 then Minus(Ident(top.param), NumericLit(top.offset)) else Ident(top.param)
  }

  /** The style argument, passed only when the style is a non-empty string. */
  function StyleArgs(style: Option<string>): seq<Expr>
  {
    if style.Some? && style.value != "" then [StringLit(style.value)] else []
  }

  /** The `style` of a kind 2 to 4 element; an argument element has none. */
  function StyleOf(n: Node): Option<string>
  {
    match n
    case NumberArg(_, s) => s
    case DateArg(_, s) => s
    case TimeArg(_, s) => s
    case _ => None
  }

  /** The stack the options of `n` are compiled under: a plural pushes itself. */
  function InnerStack(n: Node, stack: seq<Frame>): (r: seq<Frame>)
    requires n.Select? || n.Plural?
    ensures |r| == if n.Plural? then |stack| + 1 else |stack|
  {
    if n.Plural? then stack + [Frame(n.name, n.offset)] else stack
  }

  /** The expression `buildCallExpression(n)` returns. */
  function CallSpec(n: Node, stack: seq<Frame>): Expr
    requires CallReady(n, |stack|)
    decreases NodeSize(n), 0, 0
  {
    if IsFormatter(n) then Call(CalleeName(n), [Ident(n.name)] + StyleArgs(StyleOf(n)))
    else
      var options := ObjectExpr(OptionsSpec(n.cases, n.Plural?, InnerStack(n, stack), |n.cases|));
      var offset := if n.Plural? && n.offset != 0 then [NumericLit(n.offset)] else [];
      Call(CalleeName(n), [Ident(n.name)] + offset + [options])
  }

  /** The object property built for an option. */
  function OptionKey(key: string, plural: bool): PropKey
  {
    if plural then NormalizePluralKey(key) else NormalizeKey(key)
  }

  /** The properties built for the first `k` options. */
  function OptionsSpec(cs: seq<Case>, plural: bool, stack: seq<Frame>, k: nat): (r: seq<Property>)
    requires k <= |cs| && CasesReady(cs, |stack|)
    ensures |r| == k
    decreases CasesSize(cs), 0, k
  {
    if k == 0 then []
    else
      OptionsSpec(cs, plural, stack, k - 1)
        + [Property(OptionKey(cs[k - 1].key, plural), ValueSpec(cs[k - 1].value, stack))]
  }

  /** One more option: its helpers and parameters are added. */
  lemma CasesCollectStep(cs: seq<Case>, i: nat)
    requires i < |cs|
    ensures CasesHelpers(cs, i + 1) == CasesHelpers(cs, i) + ValueHelpers(cs[i].value)
    ensures CasesParams(cs, i + 1) == CasesParams(cs, i) + ValueParams(cs[i].value)
  {
  }

  /** One more option: its property is appended, and its helpers and parameters added. */
  lemma OptionsStep(cs: seq<Case>, plural: bool, stack: seq<Frame>, i: nat)
    requires i < |cs| && CasesReady(cs, |stack|)
    ensures ValueReady(cs[i].value, |stack|)
    ensures OptionsSpec(cs, plural, stack, i + 1)
            == OptionsSpec(cs, plural, stack, i) + [Property(OptionKey(cs[i].key, plural), ValueSpec(cs[i].value, stack))]
    ensures CasesHelpers(cs, i + 1) == CasesHelpers(cs, i) + ValueHelpers(cs[i].value)
    ensures CasesParams(cs, i + 1) == CasesParams(cs, i) + ValueParams(cs[i].value)
  {
    CasesCollectStep(cs, i);
  }

  /** The value built for an option's sub-message. */
  function ValueSpec(v: seq<Node>, stack: seq<Frame>): Expr
    requires ValueReady(v, |stack|)
    decreases NodesSize(v), 2, 0
  {
    if |v| == 1 && v[0].Literal? then StringLit(v[0].text)
    else if |v| == 1 then CallSpec(v[0], stack)
    else TemplateSpec(v, stack)
  }

  /** The template literal `buildTemplateLiteral(ast)` returns. */
  function TemplateSpec(ast: seq<Node>, stack: seq<Frame>): (r: Expr)
    requires TemplateReady(ast, |stack|)
    ensures r.TemplateLit?
    ensures |ast| > 0 ==> |r.quasis| > 0 && r.quasis[|r.quasis| - 1].tail
    ensures forall j :: 0 <= j < |r.quasis| - 1 ==> !r.quasis[j].tail
    decreases NodesSize(ast), 1, 0
  {
    QuasisTail(ast, |ast|);
    TemplateLit(Quasis(ast, |ast|), TemplateExprs(ast, stack, |ast|))
  }

  /**
   * The quasis pushed for element `i` of a template: the last element
   * always pushes one, and it is the only one marked `tail`.
   */
  function QuasiPart(ast: seq<Node>, i: nat): (r: seq<TemplateElement>)
    requires i < |ast|
    ensures i == |ast| - 1 ==> |r| > 0
    ensures forall j :: 0 <= j < |r| ==> (r[j].tail <==> i == |ast| - 1 && j == |r| - 1)
  {
    var last := i == |ast| - 1;
    (match ast[i]
     case Literal(t) => [TemplateElement(t, last)]
     case Argument(_) => if i == 0 then [TemplateElement("", false)] else []
     case Pound => if i == 0 then [TemplateElement("", false)] else []
     case _ => [])
    + (if last && !ast[i].Literal? then [TemplateElement("", true)] else [])
  }

  /** The quasis pushed for the first `k` elements. */
  function Quasis(ast: seq<Node>, k: nat): seq<TemplateElement>
    requires k <= |ast|
  {
    if k == 0 then [] else Quasis(ast, k - 1) + QuasiPart(ast, k - 1)
  }

  /** Only the quasi pushed for the last element is marked `tail`, and there always is one. */
  lemma {:induction false} QuasisTail(ast: seq<Node>, k: nat)
    requires k <= |ast|
    ensures k < |ast| ==> forall j :: 0 <= j < |Quasis(ast, k)| ==> !Quasis(ast, k)[j].tail
    ensures k == |ast| > 0 ==>
              var q := Quasis(ast, k);
              |q| > 0 && q[|q| - 1].tail && forall j :: 0 <= j < |q| - 1 ==> !q[j].tail
  {
    if k > 0 {
      QuasisTail(ast, k - 1);
      var prev, part := Quasis(ast, k - 1), QuasiPart(ast, k - 1);
      assert Quasis(ast, k) == prev + part;
      if k < |ast| {
        assert forall j :: 0 <= j < |part| ==> !part[j].tail;
      } else {
        assert |part| > 0 && part[|part| - 1].tail;
        assert forall j :: 0 <= j < |part| - 1 ==> !part[j].tail;
      }
    }
  }

  /**
   * The expressions element `n` of a template pushes: one for a placeholder,
   * none for a literal or an element of unknown kind.
   */
  function ElementExprs(n: Node, stack: seq<Frame>): (r: seq<Expr>)
    requires TemplateNodeReady(n, |stack|)
    ensures |r| == if n.Literal? || n.Unrecognised? then 0 else 1
    decreases NodeSize(n), 1, 0
  {
    match n
    case Pound => [PoundExpr(stack)]
    case Select(_, _) => [CallSpec(n, stack)]
    case Plural(_, _, _) => [CallSpec(n, stack)]
    case Literal(_) => []
    case Unrecognised(_) => []
    case _ => [CallSpec(n, stack)]
  }

  /** The expressions pushed for the first `k` elements. */
  function TemplateExprs(ast: seq<Node>, stack: seq<Frame>, k: nat): seq<Expr>
    requires k <= |ast| && TemplateReady(ast, |stack|)
    decreases NodesSize(ast), 0, k
  {
    if k == 0 then []
    else
      assert TemplateNodeReady(ast[k - 1], |stack|);
      TemplateExprs(ast, stack, k - 1) + ElementExprs(ast[k - 1], stack)
  }

  /** One more template element: its quasis, expressions, helpers and parameters are appended. */
  lemma TemplateStep(ast: seq<Node>, stack: seq<Frame>, i: nat)
    requires i < |ast| && TemplateReady(ast, |stack|)
    ensures TemplateNodeReady(ast[i], |stack|)
    ensures Quasis(ast, i + 1) == Quasis(ast, i) + QuasiPart(ast, i)
    ensures TemplateExprs(ast, stack, i + 1) == TemplateExprs(ast, stack, i) + ElementExprs(ast[i], stack)
    ensures TemplateHelpers(ast, i + 1) == TemplateHelpers(ast, i) + ElementHelpers(ast[i])
    ensures TemplateParams(ast, i + 1) == TemplateParams(ast, i) + ElementParams(ast[i])
  {
  }

  /** The body `buildFunction(ast)` wraps in an arrow function. */
  function BodySpec(ast: seq<Node>): Expr
    requires FunctionReady(ast)
  {
    if |ast| == 1 then CallSpec(ast[0], []) else TemplateSpec(ast, [])
  }

  /** The arrow function `buildFunction(ast)` returns. */
  function FunctionSpec(ast: seq<Node>): (r: Expr)
    requires FunctionReady(ast)
    ensures r.Arrow? && StrictlySorted(r.params) && |r.params| == |FunctionParams(ast)|
    ensures forall x :: x in r.params <==> x in FunctionParams(ast)
  {
    Arrow(SortedNames(FunctionParams(ast)), BodySpec(ast))
  }

  // ---------------------------------------------------------------------------
  // The helper names added to `usedHelpers`.
  // ---------------------------------------------------------------------------

  function CallHelpers(n: Node): set<string>
    decreases NodeSize(n), 0, 0
  {
    if n.Select? || n.Plural? then {CalleeName(n)} + CasesHelpers(n.cases, |n.cases|)
    else if IsFormatter(n) then {CalleeName(n)}
    else {}
  }

  function CasesHelpers(cs: seq<Case>, k: nat): set<string>
    requires k <= |cs|
    decreases CasesSize(cs), 0, k
  {
    if k == 0 then {} else CasesHelpers(cs, k - 1) + ValueHelpers(cs[k - 1].value)
  }

  function ValueHelpers(v: seq<Node>): set<string>
    decreases NodesSize(v), 2, 0
  {
    if |v| == 1 && v[0].Literal? then {}
    else if |v| == 1 then CallHelpers(v[0])
    else TemplateHelpers(v, |v|)
  }

  /** The helpers element `n` of a template adds: those of its call, if it is compiled to one. */
  function ElementHelpers(n: Node): set<string>
    decreases NodeSize(n), 1, 0
  {
    if IsFormatter(n) || n.Select? || n.Plural? then CallHelpers(n) else {}
  }

  function TemplateHelpers(ast: seq<Node>, k: nat): set<string>
    requires k <= |ast|
    decreases NodesSize(ast), 1, k
  {
    if k == 0 then {} else TemplateHelpers(ast, k - 1) + ElementHelpers(ast[k - 1])
  }

  function FunctionHelpers(ast: seq<Node>): set<string>
  {
    if |ast| == 1 then CallHelpers(ast[0]) else TemplateHelpers(ast, |ast|)
  }

  // ---------------------------------------------------------------------------
  // The parameter names added to `currentFunctionParams`. A kind 1 to 4 element
  // adds its name only when it sits in a template (the template loop adds it);
  // `buildCallExpression` adds the name of a select or plural.
  // ---------------------------------------------------------------------------

  function CallParams(n: Node): set<string>
    decreases NodeSize(n), 0, 0
  {
    if n.Select? || n.Plural? then {n.name} + CasesParams(n.cases, |n.cases|) else {}
  }

  function CasesParams(cs: seq<Case>, k: nat): set<string>
    requires k <= |cs|
    decreases CasesSize(cs), 0, k
  {
    if k == 0 then {} else CasesParams(cs, k - 1) + ValueParams(cs[k - 1].value)
  }

  function ValueParams(v: seq<Node>): set<string>
    decreases NodesSize(v), 2, 0
  {
    if |v| == 1 && v[0].Literal? then {}
    else if |v| == 1 then CallParams(v[0])
    else TemplateParams(v, |v|)
  }

  /** The parameters element `n` of a template adds: its own name for kinds 1 to 4. */
  function ElementParams(n: Node): set<string>
    decreases NodeSize(n), 1, 0
  {
    if IsFormatter(n) then {n.name} else if n.Select? || n.Plural? then CallParams(n) else {}
  }

  function TemplateParams(ast: seq<Node>, k: nat): set<string>
    requires k <= |ast|
    decreases NodesSize(ast), 1, k
  {
    if k == 0 then {} else TemplateParams(ast, k - 1) + ElementParams(ast[k - 1])
  }

  function FunctionParams(ast: seq<Node>): set<string>
  {
    if |ast| == 1 then CallParams(ast[0]) else TemplateParams(ast, |ast|)
  }
}
