/**
 * The abstract syntax tree shared by the parser, the interpreter and the
 * CPS transformer.  One constructor per node type of the language.
 */
module Ast {
  import opened Wrappers

  /** One binding of a `let`: a name and an optional definition. */
  datatype Binding = Binding(name: string, def: Option<Node>)

  datatype Node =
    | Int(n: int)                                                // integer literal
    | Str(s: string)                                             // string literal
    | Bool(b: bool)                                              // boolean literal
    | Var(name: string)                                          // variable reference
    | Assign(op: string, left: Node, right: Node)                // `left = right`
    | Binary(op: string, left: Node, right: Node)                // `left op right`
    | Negation(body: Node)                                       // `! body`
    | Sequence(items: seq<Node>)                                 // `{ a; b; c }`
    | Call(func: Node, args: seq<Node>)                          // `func(args)`
    | Function(fname: Option<string>, params: seq<string>, body: Node)  // function literal
    | Conditional(cond: Node, conseq: Node, alt: Option<Node>)   // `if c then a else b`
    | Declaration(bindings: seq<Binding>, body: Node)            // `let (x = e, ...) body`

  /** Literals and variables: the nodes that need no evaluation of sub-nodes. */
  predicate IsAtomic(e: Node) {
    e.Int? || e.Str? || e.Bool? || e.Var?
  }

  /**
   * A size that strictly decreases from a node to each of its sub-nodes, and
   * that weights each `let` binding heavily enough that rewriting a `let` into
   * a call of a one-parameter function also makes it decrease.
   */
  function Size(e: Node): (s: nat)
    ensures s >= 1
  {
    match e
    case Int(_) => 1
    case Str(_) => 1
    case Bool(_) => 1
    case Var(_) => 1
    case Assign(_, l, r) => 1 + Size(l) + Size(r)
    case Binary(_, l, r) => 1 + Size(l) + Size(r)
    case Negation(b) => 1 + Size(b)
    case Sequence(items) => 1 + SizeAll(items)
    case Call(f, args) => 1 + Size(f) + SizeAll(args)
    case Function(_, _, b) => 1 + Size(b)
    case Conditional(c, t, alt) => 1 + Size(c) + Size(t) + OptionSize(alt)
    case Declaration(bs, b) => 1 + Size(b) + BindingsSize(bs)
  }

  function SizeAll(es: seq<Node>): nat
  {
    if es == [] then 0 else Size(es[0]) + SizeAll(es[1..])
  }

  /** An absent part counts as the Boolean `false` node that stands in for it. */
  function OptionSize(o: Option<Node>): nat
  {
    match o
    case None => 1
    case Some(e) => Size(e)
  }

  function BindingsSize(bs: seq<Binding>): nat
  {
    if bs == [] then 0 else 4 + OptionSize(bs[0].def) + BindingsSize(bs[1..])
  }

  lemma {:induction false} SizeAllElement(es: seq<Node>, i: nat)
    requires i < |es|
    ensures Size(es[i]) <= SizeAll(es)
  {
    if i > 0 {
      SizeAllElement(es[1..], i - 1);
    }
  }
}
