/**
 * The message AST the ICU MessageFormat parser hands to the compiler: a
 * sequence of elements with numeric kind codes 0 to 7. Parsing itself is done
 * by a foreign library and is not part of this model.
 */
module IcuAst {
  import opened Js

  datatype Node =
    | Literal(text: string)                                 // kind 0
    | Argument(name: string)                                // kind 1: {x}
    | NumberArg(name: string, style: Option<string>)        // kind 2: {x, number, style}
    | DateArg(name: string, style: Option<string>)          // kind 3: {x, date, style}
    | TimeArg(name: string, style: Option<string>)          // kind 4: {x, time, style}
    | Select(name: string, cases: seq<Case>)                // kind 5
    | Plural(name: string, offset: int, cases: seq<Case>)   // kind 6
    | Pound                                                 // kind 7: `#` inside a plural
    | Unrecognised(kind: OtherKind)                         // an element of any other kind

  /** A kind code outside 0 to 7: the parser never gives one of those to an element of another shape. */
  type OtherKind = k: int | k < 0 || 7 < k witness 8

  /** One option of a select or plural: its selector and its sub-message. */
  datatype Case = Case(key: string, value: seq<Node>)

  /** The numeric `type` code the parser gives the element. */
  function Kind(n: Node): int
  {
    match n
    case Literal(_) => 0
    case Argument(_) => 1
    case NumberArg(_, _) => 2
    case DateArg(_, _) => 3
    case TimeArg(_, _) => 4
    case Select(_, _) => 5
    case Plural(_, _, _) => 6
    case Pound => 7
    case Unrecognised(k) => k
  }

  /** Kinds 1 to 4: elements compiled to a call of one formatting helper on their argument. */
  predicate IsFormatter(n: Node)
  {
    n.Argument? || n.NumberArg? || n.DateArg? || n.TimeArg?
  }

  // Sizes used as termination measures; every part is strictly smaller than its whole.

  function NodeSize(n: Node): nat
  {
    match n
    case Select(_, cs) => 1 + CasesSize(cs)
    case Plural(_, _, cs) => 1 + CasesSize(cs)
    case _ => 1
  }

  function NodesSize(ns: seq<Node>): (r: nat)
    ensures r >= 1
    ensures forall i :: 0 <= i < |ns| ==> NodeSize(ns[i]) < r
  {
    if ns == [] then 1 else NodeSize(ns[0]) + NodesSize(ns[1..])
  }

  function CasesSize(cs: seq<Case>): (r: nat)
    ensures r >= 1
    ensures forall i :: 0 <= i < |cs| ==> NodesSize(cs[i].value) < r
  {
    if cs == [] then 1 else NodesSize(cs[0].value) + CasesSize(cs[1..])
  }
}
