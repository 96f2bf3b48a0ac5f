/**
 * The JavaScript expressions the message compiler emits, standing for the
 * Babel nodes it builds with `t.stringLiteral`, `t.numericLiteral`,
 * `t.identifier`, `t.callExpression`, `t.binaryExpression("-", ...)`,
 * `t.objectExpression`, `t.templateLiteral` and `t.arrowFunctionExpression`.
 */
module JsAst {
  import opened IntlKeys

  datatype Expr =
    | StringLit(value: string)
    | NumericLit(n: int)
    | Ident(name: string)
    | Call(callee: string, args: seq<Expr>)
    | Minus(left: Expr, right: Expr)
    | ObjectExpr(props: seq<Property>)
    | TemplateLit(quasis: seq<TemplateElement>, exprs: seq<Expr>)
    | Arrow(params: seq<string>, body: Expr)

  datatype Property = Property(key: PropKey, value: Expr)

  /** A quasi of a template literal; `tail` marks the one that closes it. */
  datatype TemplateElement = TemplateElement(text: string, tail: bool)

  /** The helper functions an expression calls. */
  function Callees(e: Expr): set<string>
  {
    match e
    case Call(f, args) => {f} + (set i, x | 0 <= i < |args| && x in Callees(args[i]) :: x)
    case Minus(l, r) => Callees(l) + Callees(r)
    case ObjectExpr(props) => set i, x | 0 <= i < |props| && x in Callees(props[i].value) :: x
    case TemplateLit(_, es) => set i, x | 0 <= i < |es| && x in Callees(es[i]) :: x
    case Arrow(_, b) => Callees(b)
    case _ => {}
  }

  /** The identifiers an expression reads as values (callees and property keys excluded). */
  function Refs(e: Expr): set<string>
  {
    match e
    case Ident(x) => {x}
    case Call(_, args) => set i, x | 0 <= i < |args| && x in Refs(args[i]) :: x
    case Minus(l, r) => Refs(l) + Refs(r)
    case ObjectExpr(props) => set i, x | 0 <= i < |props| && x in Refs(props[i].value) :: x
    case TemplateLit(_, es) => set i, x | 0 <= i < |es| && x in Refs(es[i]) :: x
    case Arrow(_, b) => Refs(b)
    case _ => {}
  }
}
