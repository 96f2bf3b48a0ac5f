/**
 * Properties of the compiled messages described in module CompilerSpec:
 * the helpers a compiled message calls are exactly those recorded for the
 * import, the arrow function's parameters are all read by its body, the
 * body reads only the message's own arguments, and the shape of the
 * template literals. Also the places where the compiler as written
 * deviates from what it evidently aims at.
 */
module CompilerProps {
  import opened Js
  import opened IntlKeys
  import opened IcuAst
  import opened JsAst
  import opened Order
  import opened CompilerSpec

  // ---------------------------------------------------------------------------
  // Unions over a sequence.
  // ---------------------------------------------------------------------------

  function UnionOver<T>(xs: seq<T>, f: T -> set<string>): set<string>
  {
    set i, x | 0 <= i < |xs| && x in f(xs[i]) :: x
  }

  lemma UnionOverAppend<T>(a: seq<T>, b: seq<T>, f: T -> set<string>)
    ensures UnionOver(a + b, f) == UnionOver(a, f) + UnionOver(b, f)
  {
    var ab := a + b;
    forall x | x in UnionOver(ab, f)
      ensures x in UnionOver(a, f) + UnionOver(b, f)
    {
      var i :| 0 <= i < |ab| && x in f(ab[i]);
      if i < |a| {
        assert ab[i] == a[i];
      } else {
        assert ab[i] == b[i - |a|];
      }
    }
    forall x | x in UnionOver(a, f) + UnionOver(b, f)
      ensures x in UnionOver(ab, f)
    {
      if x in UnionOver(a, f) {
        var i :| 0 <= i < |a| && x in f(a[i]);
        assert ab[i] == a[i];
      } else {
        var i :| 0 <= i < |b| && x in f(b[i]);
        assert ab[|a| + i] == b[i];
      }
    }
  }

  lemma UnionOverSingleton<T>(e: T, f: T -> set<string>)
    ensures UnionOver([e], f) == f(e)
  {
    var s := [e];
    assert forall x :: x in f(e) ==> 0 <= 0 < |s| && x in f(s[0]);
  }

  function PropCallees(p: Property): set<string> { Callees(p.value) }

  function PropRefs(p: Property): set<string> { Refs(p.value) }

  lemma CalleesCall(f: string, args: seq<Expr>)
    ensures Callees(Call(f, args)) == {f} + UnionOver(args, Callees)
  {
    forall x | x in UnionOver(args, Callees)
      ensures x in Callees(Call(f, args))
    {
      var i :| 0 <= i < |args| && x in Callees(args[i]);
    }
  }

  lemma CalleesObject(props: seq<Property>)
    ensures Callees(ObjectExpr(props)) == UnionOver(props, PropCallees)
  {
    forall x | x in UnionOver(props, PropCallees)
      ensures x in Callees(ObjectExpr(props))
    {
      var i :| 0 <= i < |props| && x in PropCallees(props[i]);
    }
    forall x | x in Callees(ObjectExpr(props))
      ensures x in UnionOver(props, PropCallees)
    {
      var i :| 0 <= i < |props| && x in Callees(props[i].value);
      assert x in PropCallees(props[i]);
    }
  }

  lemma CalleesTemplate(quasis: seq<TemplateElement>, es: seq<Expr>)
    ensures Callees(TemplateLit(quasis, es)) == UnionOver(es, Callees)
  {
    forall x | x in UnionOver(es, Callees)
      ensures x in Callees(TemplateLit(quasis, es))
    {
      var i :| 0 <= i < |es| && x in Callees(es[i]);
    }
  }

  lemma RefsCall(f: string, args: seq<Expr>)
    ensures Refs(Call(f, args)) == UnionOver(args, Refs)
  {
    forall x | x in UnionOver(args, Refs)
      ensures x in Refs(Call(f, args))
    {
      var i :| 0 <= i < |args| && x in Refs(args[i]);
    }
  }

  lemma RefsObject(props: seq<Property>)
    ensures Refs(ObjectExpr(props)) == UnionOver(props, PropRefs)
  {
    forall x | x in UnionOver(props, PropRefs)
      ensures x in Refs(ObjectExpr(props))
    {
      var i :| 0 <= i < |props| && x in PropRefs(props[i]);
    }
    forall x | x in Refs(ObjectExpr(props))
      ensures x in UnionOver(props, PropRefs)
    {
      var i :| 0 <= i < |props| && x in Refs(props[i].value);
      assert x in PropRefs(props[i]);
    }
  }

  lemma RefsTemplate(quasis: seq<TemplateElement>, es: seq<Expr>)
    ensures Refs(TemplateLit(quasis, es)) == UnionOver(es, Refs)
  {
    forall x | x in UnionOver(es, Refs)
      ensures x in Refs(TemplateLit(quasis, es))
    {
      var i :| 0 <= i < |es| && x in Refs(es[i]);
    }
  }

  // ---------------------------------------------------------------------------
  // The import is exact: a compiled message calls precisely the helpers the
  // compiler recorded in `usedHelpers` for it.
  // ---------------------------------------------------------------------------

  /** The call built for `n` invokes exactly the helpers recorded for `n`. */
  lemma {:induction false} CallCallees(n: Node, stack: seq<Frame>)
    requires CallReady(n, |stack|)
    ensures Callees(CallSpec(n, stack)) == CallHelpers(n)
    decreases NodeSize(n), 0, 1
  {
    if IsFormatter(n) {
      FormatterCallees(n, stack);
    } else {
      ChoiceCallees(n, stack);
    }
  }

  lemma FormatterCallees(n: Node, stack: seq<Frame>)
    requires IsFormatter(n)
    ensures Callees(CallSpec(n, stack)) == {CalleeName(n)}
  {
    var args := [Ident(n.name)] + StyleArgs(StyleOf(n));
    CalleesCall(CalleeName(n), args);
    UnionOverAppend([Ident(n.name)], StyleArgs(StyleOf(n)), Callees);
    UnionOverSingleton(Ident(n.name), Callees);
    if StyleArgs(StyleOf(n)) != [] {
      UnionOverSingleton(StyleArgs(StyleOf(n))[0], Callees);
    }
  }

  /** The arguments of the call built for a select or plural. */
  lemma ChoiceArgs(n: Node, stack: seq<Frame>)
    requires (n.Select? || n.Plural?) && CallReady(n, |stack|)
    ensures var props := OptionsSpec(n.cases, n.Plural?, InnerStack(n, stack), |n.cases|);
            var offset := if n.Plural? && n.offset != 0 then [NumericLit(n.offset)] else [];
            CallSpec(n, stack) == Call(CalleeName(n), [Ident(n.name)] + offset + [ObjectExpr(props)])
  {
  }

  lemma {:induction false} ChoiceCallees(n: Node, stack: seq<Frame>)
    requires (n.Select? || n.Plural?) && CallReady(n, |stack|)
    ensures Callees(CallSpec(n, stack)) == {CalleeName(n)} + CasesHelpers(n.cases, |n.cases|)
    decreases NodeSize(n), 0, 0
  {
    var inner := InnerStack(n, stack);
    var props := OptionsSpec(n.cases, n.Plural?, inner, |n.cases|);
    var offset := if n.Plural? && n.offset != 0 then [NumericLit(n.offset)] else [];
    var head := [Ident(n.name)] + offset;
    ChoiceArgs(n, stack);
    CalleesCall(CalleeName(n), head + [ObjectExpr(props)]);
    UnionOverAppend(head, [ObjectExpr(props)], Callees);
    UnionOverAppend([Ident(n.name)], offset, Callees);
    UnionOverSingleton(Ident(n.name), Callees);
    if offset != [] {
      UnionOverSingleton(offset[0], Callees);
    }
    assert UnionOver(head, Callees) == {};
    UnionOverSingleton(ObjectExpr(props), Callees);
    CalleesObject(props);
    OptionsCallees(n.cases, n.Plural?, inner, |n.cases|);
  }

  lemma {:induction false} OptionsCallees(cs: seq<Case>, plural: bool, stack: seq<Frame>, k: nat)
    requires k <= |cs| && CasesReady(cs, |stack|)
    ensures UnionOver(OptionsSpec(cs, plural, stack, k), PropCallees) == CasesHelpers(cs, k)
    decreases CasesSize(cs), 0, k
  {
    if k > 0 {
      var v := cs[k - 1].value;
      OptionsStep(cs, plural, stack, k - 1);
      var p := Property(OptionKey(cs[k - 1].key, plural), ValueSpec(v, stack));
      OptionsCallees(cs, plural, stack, k - 1);
      UnionOverAppend(OptionsSpec(cs, plural, stack, k - 1), [p], PropCallees);
      UnionOverSingleton(p, PropCallees);
      ValueCallees(v, stack);
    }
  }

  lemma {:induction false} ValueCallees(v: seq<Node>, stack: seq<Frame>)
    requires ValueReady(v, |stack|)
    ensures Callees(ValueSpec(v, stack)) == ValueHelpers(v)
    decreases NodesSize(v), 2, 0
  {
    if |v| == 1 && v[0].Literal? {
    } else if |v| == 1 {
      assert ValueSpec(v, stack) == CallSpec(v[0], stack);
      CallCallees(v[0], stack);
    } else {
      var quasis, es := Quasis(v, |v|), TemplateExprs(v, stack, |v|);
      assert ValueSpec(v, stack) == TemplateLit(quasis, es);
      CalleesTemplate(quasis, es);
      TemplateCallees(v, stack, |v|);
    }
  }

  lemma {:induction false} TemplateCallees(ast: seq<Node>, stack: seq<Frame>, k: nat)
    requires k <= |ast| && TemplateReady(ast, |stack|)
    ensures UnionOver(TemplateExprs(ast, stack, k), Callees) == TemplateHelpers(ast, k)
    decreases NodesSize(ast), 1, k
  {
    if k > 0 {
      TemplateStep(ast, stack, k - 1);
      TemplateCallees(ast, stack, k - 1);
      UnionOverAppend(TemplateExprs(ast, stack, k - 1), ElementExprs(ast[k - 1], stack), Callees);
      ElementCallees(ast[k - 1], stack);
    }
  }

  lemma {:induction false} ElementCallees(n: Node, stack: seq<Frame>)
    requires TemplateNodeReady(n, |stack|)
    ensures UnionOver(ElementExprs(n, stack), Callees) == ElementHelpers(n)
    decreases NodeSize(n), 1, 0
  {
    var es := ElementExprs(n, stack);
    if es != [] {
      UnionOverSingleton(es[0], Callees);
      if !n.Pound? {
        CallCallees(n, stack);
      }
    }
  }

  /**
   * The arrow function `buildFunction` returns calls exactly the helpers it
   * adds to `usedHelpers`, so the import the `Program` exit hook emits names
   * every helper the compiled messages call and no other.
   */
  lemma FunctionCallees(ast: seq<Node>)
    requires FunctionReady(ast)
    ensures Callees(FunctionSpec(ast)) == FunctionHelpers(ast)
  {
    BodyCallees(ast);
    assert FunctionSpec(ast).body == BodySpec(ast);
  }

  lemma BodyCallees(ast: seq<Node>)
    requires FunctionReady(ast)
    ensures Callees(BodySpec(ast)) == FunctionHelpers(ast)
  {
    if |ast| == 1 {
      assert BodySpec(ast) == CallSpec(ast[0], []);
      CallCallees(ast[0], []);
    } else {
      var quasis, es := Quasis(ast, |ast|), TemplateExprs(ast, [], |ast|);
      assert BodySpec(ast) == TemplateLit(quasis, es);
      CalleesTemplate(quasis, es);
      TemplateCallees(ast, [], |ast|);
    }
  }

  // ---------------------------------------------------------------------------
  // Parameters and the identifiers the body reads.
  // ---------------------------------------------------------------------------

  /** Every argument name that occurs in an element, at any depth. */
  function ArgNames(n: Node): set<string>
    decreases NodeSize(n), 0
  {
    match n
    case Argument(x) => {x}
    case NumberArg(x, _) => {x}
    case DateArg(x, _) => {x}
    case TimeArg(x, _) => {x}
    case Select(x, cs) => {x} + CasesArgNames(cs, |cs|)
    case Plural(x, _, cs) => {x} + CasesArgNames(cs, |cs|)
    case _ => {}
  }

  function CasesArgNames(cs: seq<Case>, k: nat): set<string>
    requires k <= |cs|
    decreases CasesSize(cs), k
  {
    if k == 0 then {} else CasesArgNames(cs, k - 1) + NodesArgNames(cs[k - 1].value, |cs[k - 1].value|)
  }

  function NodesArgNames(ns: seq<Node>, k: nat): set<string>
    requires k <= |ns|
    decreases NodesSize(ns), k
  {
    if k == 0 then {} else NodesArgNames(ns, k - 1) + ArgNames(ns[k - 1])
  }

  /** The argument names of a whole message. */
  function MessageArgs(ast: seq<Node>): set<string>
  {
    NodesArgNames(ast, |ast|)
  }

  /** The plural arguments a `#` may stand for. */
  function FrameNames(stack: seq<Frame>): set<string>
  {
    set i | 0 <= i < |stack| :: stack[i].param
  }

  /**
   * The names a call adds to the parameters are read by the call, and the
   * call reads nothing but argument names of `n` and of the enclosing plurals.
   */
  lemma {:induction false} CallRefs(n: Node, stack: seq<Frame>)
    requires CallReady(n, |stack|)
    ensures CallParams(n) <= Refs(CallSpec(n, stack)) <= ArgNames(n) + FrameNames(stack)
    ensures IsFormatter(n) ==> Refs(CallSpec(n, stack)) == {n.name}
    decreases NodeSize(n), 0, 1
  {
    if IsFormatter(n) {
      FormatterRefs(n, stack);
    } else {
      ChoiceRefs(n, stack);
    }
  }

  lemma FormatterRefs(n: Node, stack: seq<Frame>)
    requires IsFormatter(n)
    ensures Refs(CallSpec(n, stack)) == {n.name}
  {
    var args := [Ident(n.name)] + StyleArgs(StyleOf(n));
    RefsCall(CalleeName(n), args);
    UnionOverAppend([Ident(n.name)], StyleArgs(StyleOf(n)), Refs);
    UnionOverSingleton(Ident(n.name), Refs);
    if StyleArgs(StyleOf(n)) != [] {
      UnionOverSingleton(StyleArgs(StyleOf(n))[0], Refs);
    }
  }

  lemma {:induction false} ChoiceRefs(n: Node, stack: seq<Frame>)
    requires (n.Select? || n.Plural?) && CallReady(n, |stack|)
    ensures {n.name} + CasesParams(n.cases, |n.cases|) <= Refs(CallSpec(n, stack))
    ensures Refs(CallSpec(n, stack)) <= {n.name} + CasesArgNames(n.cases, |n.cases|) + FrameNames(stack)
    decreases NodeSize(n), 0, 0
  {
    var inner := InnerStack(n, stack);
    var props := OptionsSpec(n.cases, n.Plural?, inner, |n.cases|);
    var offset := if n.Plural? && n.offset != 0 then [NumericLit(n.offset)] else [];
    var head := [Ident(n.name)] + offset;
    ChoiceArgs(n, stack);
    RefsCall(CalleeName(n), head + [ObjectExpr(props)]);
    UnionOverAppend(head, [ObjectExpr(props)], Refs);
    UnionOverAppend([Ident(n.name)], offset, Refs);
    UnionOverSingleton(Ident(n.name), Refs);
    if offset != [] {
      UnionOverSingleton(offset[0], Refs);
    }
    assert UnionOver(head, Refs) == {n.name};
    UnionOverSingleton(ObjectExpr(props), Refs);
    RefsObject(props);
    OptionsRefs(n.cases, n.Plural?, inner, |n.cases|);
    FrameNamesPush(stack, n);
  }

  lemma FrameNamesPush(stack: seq<Frame>, n: Node)
    requires n.Select? || n.Plural?
    ensures FrameNames(InnerStack(n, stack)) <= FrameNames(stack) + {n.name}
  {
    var inner := InnerStack(n, stack);
    forall x | x in FrameNames(inner)
      ensures x in FrameNames(stack) + {n.name}
    {
      var i :| 0 <= i < |inner| && inner[i].param == x;
      if i < |stack| {
        assert inner[i] == stack[i];
      }
    }
  }

  lemma {:induction false} OptionsRefs(cs: seq<Case>, plural: bool, stack: seq<Frame>, k: nat)
    requires k <= |cs| && CasesReady(cs, |stack|)
    ensures CasesParams(cs, k) <= UnionOver(OptionsSpec(cs, plural, stack, k), PropRefs)
                               <= CasesArgNames(cs, k) + FrameNames(stack)
    decreases CasesSize(cs), 0, k
  {
    if k > 0 {
      var v := cs[k - 1].value;
      OptionsRefsStep(cs, plural, stack, k - 1);
      OptionsRefs(cs, plural, stack, k - 1);
      ValueRefs(v, stack);
      CasesCollectStep(cs, k - 1);
      assert CasesArgNames(cs, k) == CasesArgNames(cs, k - 1) + NodesArgNames(v, |v|);
      BetweenUnion(CasesParams(cs, k - 1), UnionOver(OptionsSpec(cs, plural, stack, k - 1), PropRefs),
                   CasesArgNames(cs, k - 1), ValueParams(v), Refs(ValueSpec(v, stack)),
                   NodesArgNames(v, |v|), FrameNames(stack));
    }
  }

  /** Two sets squeezed between bounds: so is their union. */
  lemma BetweenUnion<T>(lo1: set<T>, mid1: set<T>, hi1: set<T>, lo2: set<T>, mid2: set<T>, hi2: set<T>, extra: set<T>)
    requires lo1 <= mid1 <= hi1 + extra && lo2 <= mid2 <= hi2 + extra
    ensures lo1 + lo2 <= mid1 + mid2 <= (hi1 + hi2) + extra
  {
  }

  /** One more option adds the identifiers its value reads. */
  lemma OptionsRefsStep(cs: seq<Case>, plural: bool, stack: seq<Frame>, i: nat)
    requires i < |cs| && CasesReady(cs, |stack|)
    ensures ValueReady(cs[i].value, |stack|)
    ensures UnionOver(OptionsSpec(cs, plural, stack, i + 1), PropRefs)
            == UnionOver(OptionsSpec(cs, plural, stack, i), PropRefs) + Refs(ValueSpec(cs[i].value, stack))
  {
    OptionsStep(cs, plural, stack, i);
    var p := Property(OptionKey(cs[i].key, plural), ValueSpec(cs[i].value, stack));
    UnionOverAppend(OptionsSpec(cs, plural, stack, i), [p], PropRefs);
    UnionOverSingleton(p, PropRefs);
  }

  lemma {:induction false} ValueRefs(v: seq<Node>, stack: seq<Frame>)
    requires ValueReady(v, |stack|)
    ensures ValueParams(v) <= Refs(ValueSpec(v, stack)) <= NodesArgNames(v, |v|) + FrameNames(stack)
    decreases NodesSize(v), 2, 0
  {
    if |v| == 1 && v[0].Literal? {
    } else if |v| == 1 {
      assert ValueSpec(v, stack) == CallSpec(v[0], stack);
      CallRefs(v[0], stack);
      assert NodesArgNames(v, 1) == NodesArgNames(v, 0) + ArgNames(v[0]);
    } else {
      var quasis, es := Quasis(v, |v|), TemplateExprs(v, stack, |v|);
      assert ValueSpec(v, stack) == TemplateLit(quasis, es);
      RefsTemplate(quasis, es);
      TemplateRefs(v, stack, |v|);
    }
  }

  lemma {:induction false} TemplateRefs(ast: seq<Node>, stack: seq<Frame>, k: nat)
    requires k <= |ast| && TemplateReady(ast, |stack|)
    ensures TemplateParams(ast, k) <= UnionOver(TemplateExprs(ast, stack, k), Refs)
                                   <= NodesArgNames(ast, k) + FrameNames(stack)
    decreases NodesSize(ast), 1, k
  {
    if k > 0 {
      TemplateRefsStep(ast, stack, k - 1);
      TemplateRefs(ast, stack, k - 1);
      ElementRefs(ast[k - 1], stack);
      assert NodesArgNames(ast, k) == NodesArgNames(ast, k - 1) + ArgNames(ast[k - 1]);
      BetweenUnion(TemplateParams(ast, k - 1), UnionOver(TemplateExprs(ast, stack, k - 1), Refs),
                   NodesArgNames(ast, k - 1), ElementParams(ast[k - 1]),
                   UnionOver(ElementExprs(ast[k - 1], stack), Refs), ArgNames(ast[k - 1]), FrameNames(stack));
    }
  }

  /** One more template element adds the identifiers its expressions read. */
  lemma TemplateRefsStep(ast: seq<Node>, stack: seq<Frame>, i: nat)
    requires i < |ast| && TemplateReady(ast, |stack|)
    ensures TemplateNodeReady(ast[i], |stack|)
    ensures TemplateParams(ast, i + 1) == TemplateParams(ast, i) + ElementParams(ast[i])
    ensures UnionOver(TemplateExprs(ast, stack, i + 1), Refs)
            == UnionOver(TemplateExprs(ast, stack, i), Refs) + UnionOver(ElementExprs(ast[i], stack), Refs)
  {
    TemplateStep(ast, stack, i);
    UnionOverAppend(TemplateExprs(ast, stack, i), ElementExprs(ast[i], stack), Refs);
  }

  lemma {:induction false} ElementRefs(n: Node, stack: seq<Frame>)
    requires TemplateNodeReady(n, |stack|)
    ensures ElementParams(n) <= UnionOver(ElementExprs(n, stack), Refs) <= ArgNames(n) + FrameNames(stack)
    decreases NodeSize(n), 1, 0
  {
    var es := ElementExprs(n, stack);
    if es != [] {
      UnionOverSingleton(es[0], Refs);
      if n.Pound? {
        var top := stack[|stack| - 1];
        assert top.param in FrameNames(stack);
      } else {
        CallRefs(n, stack);
      }
    }
  }

  /**
   * The compiled arrow function's parameters are all read by its body, and
   * the body reads only arguments of the message: no `#` escapes its plural.
   */
  lemma FunctionRefs(ast: seq<Node>)
    requires FunctionReady(ast)
    ensures FunctionParams(ast) <= Refs(BodySpec(ast)) <= MessageArgs(ast)
  {
    assert FrameNames([]) == {};
    if |ast| == 1 {
      assert BodySpec(ast) == CallSpec(ast[0], []);
      CallRefs(ast[0], []);
      assert NodesArgNames(ast, 1) == NodesArgNames(ast, 0) + ArgNames(ast[0]);
    } else {
      var quasis, es := Quasis(ast, |ast|), TemplateExprs(ast, [], |ast|);
      assert BodySpec(ast) == TemplateLit(quasis, es);
      RefsTemplate(quasis, es);
      TemplateRefs(ast, [], |ast|);
    }
  }

  /**
   * As written, a message that is a single `{x}` compiles to an arrow
   * function with no parameters whose body reads `x`: the name is never
   * bound to the value `format` passes.
   */
  lemma LoneArgumentUnbound(x: string)
    ensures FunctionReady([Argument(x)])
    ensures FunctionSpec([Argument(x)]) == Arrow([], Call("__interpolate", [Ident(x)]))
    ensures x in Refs(BodySpec([Argument(x)])) && x in MessageArgs([Argument(x)])
  {
    SortedNamesEmpty();
    RefsCall("__interpolate", [Ident(x)]);
    UnionOverSingleton(Ident(x), Refs);
    assert NodesArgNames([Argument(x)], 1) == NodesArgNames([Argument(x)], 0) + ArgNames(Argument(x));
  }

  lemma SortedNamesEmpty()
    ensures SortedNames({}) == []
  {
  }

  // ---------------------------------------------------------------------------
  // Template literals.
  // ---------------------------------------------------------------------------

  /** A template whose literals and placeholders alternate, opening with a literal, `{x}` or `#`. */
  predicate Alternating(ast: seq<Node>)
  {
    |ast| > 0
    && (ast[0].Literal? || ast[0].Argument? || ast[0].Pound?)
    && (forall i :: 0 <= i < |ast| ==> !ast[i].Unrecognised?)
    && (forall i :: 0 < i < |ast| ==> ast[i].Literal? != ast[i - 1].Literal?)
  }

  /** For such a template the emitted literal has one more quasi than expressions. */
  lemma TemplateBalanced(ast: seq<Node>, stack: seq<Frame>)
    requires TemplateReady(ast, |stack|) && Alternating(ast)
    ensures |Quasis(ast, |ast|)| == |TemplateExprs(ast, stack, |ast|)| + 1
  {
    BalancedPrefix(ast, stack, |ast|);
  }

  lemma {:induction false} BalancedPrefix(ast: seq<Node>, stack: seq<Frame>, k: nat)
    requires TemplateReady(ast, |stack|) && Alternating(ast) && 1 <= k <= |ast|
    ensures |Quasis(ast, k)| == |TemplateExprs(ast, stack, k)|
              + (if ast[k - 1].Literal? then 1 else 0)
              + (if k == |ast| && !ast[k - 1].Literal? then 1 else 0)
  {
    TemplateStep(ast, stack, k - 1);
    assert !ast[k - 1].Unrecognised?;
    if k > 1 {
      BalancedPrefix(ast, stack, k - 1);
      assert ast[k - 1].Literal? != ast[k - 2].Literal?;
    }
  }

  /** `{a}{b}`: two placeholders with nothing between them give as many quasis as expressions. */
  lemma AdjacentPlaceholdersUnbalanced()
    ensures TemplateReady([Argument("a"), Argument("b")], 0)
    ensures Quasis([Argument("a"), Argument("b")], 2) == [TemplateElement("", false), TemplateElement("", true)]
    ensures |TemplateExprs([Argument("a"), Argument("b")], [], 2)| == 2
  {
    var ast := [Argument("a"), Argument("b")];
    TemplateStep(ast, [], 0);
    TemplateStep(ast, [], 1);
  }

  /** `{n, number} items`: a leading number gets no empty quasi before it. */
  lemma LeadingNumberUnbalanced()
    ensures var ast := [NumberArg("n", None), Literal(" items")];
            TemplateReady(ast, 0)
            && Quasis(ast, 2) == [TemplateElement(" items", true)]
            && |TemplateExprs(ast, [], 2)| == 1
  {
    var ast := [NumberArg("n", None), Literal(" items")];
    TemplateStep(ast, [], 0);
    TemplateStep(ast, [], 1);
  }

  // ---------------------------------------------------------------------------
  // Options, `#`, and the inputs the compiler rejects.
  // ---------------------------------------------------------------------------

  /**
   * An option's value is the string itself for a lone literal, the call of
   * its only element, or a template literal otherwise.
   */
  lemma ValueShape(v: seq<Node>, stack: seq<Frame>)
    requires ValueReady(v, |stack|)
    ensures |v| == 1 && v[0].Literal? ==> ValueSpec(v, stack) == StringLit(v[0].text)
    ensures |v| == 1 && !v[0].Literal? ==> ValueSpec(v, stack).Call? && ValueSpec(v, stack).callee == CalleeName(v[0])
    ensures |v| != 1 <==> ValueSpec(v, stack).TemplateLit?
  {
  }

  /**
   * A `#` directly in an option of plural `x` with offset `off` reads `x`,
   * minus `off` when it is non-zero, whatever plurals enclose `x`.
   */
  lemma PoundBindsInnermost(x: string, off: int, cases: seq<Case>, stack: seq<Frame>)
    ensures PoundExpr(InnerStack(Plural(x, off, cases), stack))
            == if off != 0 then Minus(Ident(x), NumericLit(off)) else Ident(x)
    ensures Refs(PoundExpr(InnerStack(Plural(x, off, cases), stack))) == {x}
  {
  }

  /** A message that is a lone `#`, or with a `#` outside any plural, makes the compiler throw. */
  lemma PoundOutsidePluralRejected(t: string)
    ensures !FunctionReady([Pound])
    ensures !FunctionReady([Literal(t), Pound])
  {
    assert !TemplateNodeReady([Literal(t), Pound][1], 0);
  }

  /** An option whose whole value is `#` also makes the compiler throw, even inside a plural. */
  lemma LonePoundOptionRejected(x: string, key: string)
    ensures !FunctionReady([Plural(x, 0, [Case(key, [Pound])])])
  {
    var cs := [Case(key, [Pound])];
    assert !CallReady(Pound, 1);
    assert !ValueReady(cs[0].value, 1);
    assert !CasesReady(cs, 1);
  }
}
