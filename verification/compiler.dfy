/**
 * The Babel plugin's compiler state and passes (src/tooling/intl/babelIntlPlugin.js):
 * `usedHelpers`, `currentFunctionParams` and `pluralsStack` are fields of
 * one `MessageCompiler` object, and `buildCallExpression`,
 * `buildTemplateLiteral`, `buildFunction`, the `Program` enter/exit hooks
 * and the `CallExpression` visitor are its methods. Each method is proved to
 * return what the functions of module CompilerSpec describe.
 */
module MessageCompiler {
  import opened Js
  import opened IntlKeys
  import opened IcuAst
  import opened JsAst
  import opened Order
  import opened CompilerSpec
  import opened Catalog

  /** What the message parser gives for a text: the AST, or the syntax error it throws. */
  datatype ParseResult = Parsed(ast: seq<Node>) | SyntaxError

  /** A call site `callee(first, ...)`: the callee's name and its first argument, if any. */
  datatype CallSite = CallSite(callee: string, first: Option<SiteArg>)

  /** The first argument: a string literal, or any other expression. */
  datatype SiteArg = StringArg(value: string) | OtherArg

  /** What the visitor does to a call site. */
  datatype Rewrite =
    | Unchanged                  // not a `_("...")` call
    | Replaced(message: Expr)    // the first argument is replaced by this expression
    | ParseFailed                // the parser throws on the translated text
    | CompileFailed              // the compiler throws on the AST

  /** The import the `Program` exit hook adds: helper names, sorted, from the runtime module's path. */
  datatype ImportDecl = ImportDecl(names: seq<string>, source: string)

  /** The visitor applies to `_` called with a string literal first. */
  predicate IsMessageCall(site: CallSite)
  {
    site.callee == "_" && site.first.Some? && site.first.value.StringArg?
  }

  /**
   * What the visitor produces for translated text `text` parsed as `parsed`:
   * a parse error propagates, a literal-only message becomes the text
   * itself, any other message an arrow function unless compiling it throws.
   */
  function RewriteSpec(text: string, parsed: ParseResult): (r: Rewrite)
    ensures r != Unchanged
    ensures r == ParseFailed <==> parsed.SyntaxError?
    ensures parsed.Parsed? && |parsed.ast| == 1 && parsed.ast[0].Literal? ==> r == Replaced(StringLit(text))
    ensures r == CompileFailed <==>
              parsed.Parsed? && !(|parsed.ast| == 1 && parsed.ast[0].Literal?) && !FunctionReady(parsed.ast)
    ensures r.Replaced? ==> r.message == StringLit(text) || r.message.Arrow?
  {
    match parsed
    case SyntaxError => ParseFailed
    case Parsed(ast) =>
      if |ast| == 1 && ast[0].Literal? then Replaced(StringLit(text))
      else if FunctionReady(ast) then Replaced(FunctionSpec(ast))
      else CompileFailed
  }

  lemma UnionAssoc<T>(a: set<T>, b: set<T>, c: set<T>)
    ensures a + b + c == a + (b + c)
  {
  }

  lemma UnionSwap<T>(a: set<T>, b: set<T>, c: set<T>)
    ensures a + b + c == a + (c + b)
  {
  }

  class Compiler {
    var usedHelpers: set<string>
    var params: set<string>
    var plurals: seq<Frame>

    constructor()
      ensures usedHelpers == {} && params == {} && plurals == []
    {
      usedHelpers := {};
      params := {};
      plurals := [];
    }

    /** `buildCallExpression(entry)`. */
    method BuildCallExpression(entry: Node) returns (e: Expr)
      requires CallReady(entry, |plurals|)
      modifies this
      ensures e == CallSpec(entry, old(plurals))
      ensures usedHelpers == old(usedHelpers) + CallHelpers(entry)
      ensures params == old(params) + CallParams(entry)
      ensures plurals == old(plurals)
      decreases NodeSize(entry), 0
    {
      var fnName := CalleeName(entry);
      usedHelpers := usedHelpers + {fnName};
      if IsFormatter(entry) {
        var callArgs := [Ident(entry.name)];
        var style := StyleOf(entry);
        if style.Some? && style.value != "" {
          callArgs := callArgs + [StringLit(style.value)];
        }
        return Call(fnName, callArgs);
      }
      var plural := entry.Plural?;
      if plural {
        plurals := plurals + [Frame(entry.name, entry.offset)];
      }
      assert plurals == InnerStack(entry, old(plurals));
      var props := BuildOptions(entry.cases, plural);
      if plural {
        plurals := plurals[..|plurals| - 1];
      }
      assert props == OptionsSpec(entry.cases, plural, InnerStack(entry, old(plurals)), |entry.cases|);
      params := params + {entry.name};
      var callArgs := [Ident(entry.name)];
      if plural && entry.offset != 0 {
        callArgs := callArgs + [NumericLit(entry.offset)];
      }
      e := Call(fnName, callArgs + [ObjectExpr(props)]);
      assert callArgs == [Ident(entry.name)] + if plural && entry.offset != 0 then [NumericLit(entry.offset)] else [];
      UnionAssoc(old(usedHelpers), {fnName}, CasesHelpers(entry.cases, |entry.cases|));
      UnionSwap(old(params), CasesParams(entry.cases, |entry.cases|), {entry.name});
    }

    /** The `Object.keys(entry.options).map(...)` of `buildCallExpression`. */
    method BuildOptions(cs: seq<Case>, plural: bool) returns (props: seq<Property>)
      requires CasesReady(cs, |plurals|)
      modifies this
      ensures props == OptionsSpec(cs, plural, old(plurals), |cs|)
      ensures usedHelpers == old(usedHelpers) + CasesHelpers(cs, |cs|)
      ensures params == old(params) + CasesParams(cs, |cs|)
      ensures plurals == old(plurals)
      decreases CasesSize(cs), 1
    {
      props := [];
      var i := 0;
      while i < |cs|
        invariant 0 <= i <= |cs|
        invariant plurals == old(plurals)
        invariant props == OptionsSpec(cs, plural, plurals, i)
        invariant usedHelpers == old(usedHelpers) + CasesHelpers(cs, i)
        invariant params == old(params) + CasesParams(cs, i)
      {
        OptionsStep(cs, plural, plurals, i);
        var value := BuildOptionValue(cs[i].value);
        props := props + [Property(OptionKey(cs[i].key, plural), value)];
        UnionAssoc(old(usedHelpers), CasesHelpers(cs, i), ValueHelpers(cs[i].value));
        UnionAssoc(old(params), CasesParams(cs, i), ValueParams(cs[i].value));
        i := i + 1;
      }
    }

    /** The value of one option: a string literal, the call of its single element, or a template. */
    method BuildOptionValue(v: seq<Node>) returns (value: Expr)
      requires ValueReady(v, |plurals|)
      modifies this
      ensures value == ValueSpec(v, old(plurals))
      ensures usedHelpers == old(usedHelpers) + ValueHelpers(v)
      ensures params == old(params) + ValueParams(v)
      ensures plurals == old(plurals)
      decreases NodesSize(v), 2
    {
      if |v| == 1 && v[0].Literal? {
        value := StringLit(v[0].text);
      } else if |v| == 1 {
        value := BuildCallExpression(v[0]);
      } else {
        value := BuildTemplateLiteral(v);
      }
    }

    /** `buildTemplateLiteral(ast)`. */
    method BuildTemplateLiteral(ast: seq<Node>) returns (e: Expr)
      requires TemplateReady(ast, |plurals|)
      modifies this
      ensures e == TemplateSpec(ast, old(plurals))
      ensures usedHelpers == old(usedHelpers) + TemplateHelpers(ast, |ast|)
      ensures params == old(params) + TemplateParams(ast, |ast|)
      ensures plurals == old(plurals)
      decreases NodesSize(ast), 1
    {
      var quasis: seq<TemplateElement> := [];
      var exprs: seq<Expr> := [];
      var i := 0;
      while i < |ast|
        invariant 0 <= i <= |ast|
        invariant plurals == old(plurals)
        invariant quasis == Quasis(ast, i)
        invariant exprs == TemplateExprs(ast, plurals, i)
        invariant usedHelpers == old(usedHelpers) + TemplateHelpers(ast, i)
        invariant params == old(params) + TemplateParams(ast, i)
      {
        TemplateStep(ast, plurals, i);
        var qs, es := BuildTemplateElement(ast, i);
        quasis := quasis + qs;
        exprs := exprs + es;
        UnionAssoc(old(usedHelpers), TemplateHelpers(ast, i), ElementHelpers(ast[i]));
        UnionAssoc(old(params), TemplateParams(ast, i), ElementParams(ast[i]));
        i := i + 1;
      }
      e := TemplateLit(quasis, exprs);
    }

    /** One pass of the `switch` in `buildTemplateLiteral`, on element `i`. */
    method BuildTemplateElement(ast: seq<Node>, i: nat) returns (qs: seq<TemplateElement>, es: seq<Expr>)
      requires i < |ast| && TemplateNodeReady(ast[i], |plurals|)
      modifies this
      ensures qs == QuasiPart(ast, i)
      ensures es == ElementExprs(ast[i], old(plurals))
      ensures usedHelpers == old(usedHelpers) + ElementHelpers(ast[i])
      ensures params == old(params) + ElementParams(ast[i])
      ensures plurals == old(plurals)
      decreases NodeSize(ast[i]), 1
    {
      var entry := ast[i];
      qs, es := [], [];
      match entry {
        case Literal(t) =>
          qs := [TemplateElement(t, i == |ast| - 1)];
        case Argument(x) =>
          var c := BuildCallExpression(entry);
          es := [c];
          params := params + {x};
          if i == 0 {
            qs := [TemplateElement("", false)];
          }
        case NumberArg(x, _) =>
          var c := BuildCallExpression(entry);
          es := [c];
          params := params + {x};
        case DateArg(x, _) =>
          var c := BuildCallExpression(entry);
          es := [c];
          params := params + {x};
        case TimeArg(x, _) =>
          var c := BuildCallExpression(entry);
          es := [c];
          params := params + {x};
        case Select(_, _) =>
          var c := BuildCallExpression(entry);
          es := [c];
        case Plural(_, _, _) =>
          var c := BuildCallExpression(entry);
          es := [c];
        case Pound =>
          var top := plurals[|plurals| - 1];
          if top.offset != 0 {
            es := [Minus(Ident(top.param), NumericLit(top.offset))];
          } else {
            es := [Ident(top.param)];
          }
          if i == 0 {
            qs := [TemplateElement("", false)];
          }
        case Unrecognised(_) =>
      }
      if i == |ast| - 1 && !entry.Literal? {
        qs := qs + [TemplateElement("", true)];
      }
    }

    /** `buildFunction(ast)`: an arrow function over the sorted parameters the body collected. */
    method BuildFunction(ast: seq<Node>) returns (e: Expr)
      requires FunctionReady(ast)
      modifies this
      ensures e == FunctionSpec(ast)
      ensures usedHelpers == old(usedHelpers) + FunctionHelpers(ast)
      ensures params == FunctionParams(ast) && plurals == []
    {
      params := {};
      plurals := [];
      var body: Expr;
      if |ast| == 1 {
        body := BuildCallExpression(ast[0]);
        assert params == {} + CallParams(ast[0]) == FunctionParams(ast);
      } else {
        body := BuildTemplateLiteral(ast);
        assert params == {} + TemplateParams(ast, |ast|) == FunctionParams(ast);
      }
      assert body == BodySpec(ast);
      e := Arrow(SortedNames(params), body);
    }

    /** The `Program` enter hook. */
    method ProgramEnter()
      modifies this
      ensures usedHelpers == {} && params == old(params) && plurals == old(plurals)
    {
      usedHelpers := {};
    }

    /**
     * The `Program` exit hook: `usesIntl`, and the import of every used
     * helper in sorted order from `runtimePath` (the relative path the hook
     * computes from the file's directory).
     */
    method ProgramExit(runtimePath: string) returns (usesIntl: bool, decl: Option<ImportDecl>)
      ensures usesIntl <==> usedHelpers != {}
      ensures decl.None? <==> usedHelpers == {}
      ensures decl.Some? ==> decl.value == ImportDecl(SortedNames(usedHelpers), runtimePath)
    {
      usesIntl := |usedHelpers| > 0;
      if |usedHelpers| > 0 {
        decl := Some(ImportDecl(SortedNames(usedHelpers), runtimePath));
      } else {
        decl := None;
      }
    }

    /**
     * The `CallExpression` visitor on `site`, with the locale's translation
     * manager and the message parser. A literal-only message is replaced by
     * the translated text itself; any other message by its compiled arrow
     * function.
     */
    method RewriteCall(site: CallSite, translations: TranslationManager, parse: string -> ParseResult)
      returns (outcome: Rewrite)
      requires translations.Valid()
      modifies this, translations, translations.messages
      ensures translations.Valid()
      ensures !IsMessageCall(site) ==>
                outcome == Unchanged && usedHelpers == old(usedHelpers)
                && translations.messages.entries == old(translations.messages.entries)
      ensures IsMessageCall(site) ==>
                var text := Translation(old(translations.messages.entries), site.first.value.value);
                outcome == RewriteSpec(text, parse(text))
                && translations.messages.entries == old(translations.messages.entries)[site.first.value.value := text]
      ensures IsMessageCall(site) && outcome.Replaced? && outcome.message.Arrow? ==>
                var ast := parse(Translation(old(translations.messages.entries), site.first.value.value)).ast;
                usedHelpers == old(usedHelpers) + FunctionHelpers(ast)
      ensures outcome.Replaced? && outcome.message.StringLit? ==> usedHelpers == old(usedHelpers)
      ensures translations.messages == old(translations.messages) && translations.written == old(translations.written)
      ensures IsMessageCall(site) && NeedsSeeding(old(translations.messages.entries), site.first.value.value) ==>
                translations.throttle == Some(old(translations.nextTimer))
                && translations.timers == map[old(translations.nextTimer) := translations.messages]
      ensures !(IsMessageCall(site) && NeedsSeeding(old(translations.messages.entries), site.first.value.value)) ==>
                translations.throttle == old(translations.throttle) && translations.timers == old(translations.timers)
                && translations.nextTimer == old(translations.nextTimer)
    {
      if !IsMessageCall(site) {
        return Unchanged;
      }
      var text := translations.Get(site.first.value.value);
      match parse(text) {
        case SyntaxError =>
          outcome := ParseFailed;
        case Parsed(ast) =>
          if |ast| == 1 && ast[0].Literal? {
            outcome := Replaced(StringLit(text));
          } else if FunctionReady(ast) {
            var f := BuildFunction(ast);
            outcome := Replaced(f);
          } else {
            outcome := CompileFailed;
          }
      }
    }
  }
}
