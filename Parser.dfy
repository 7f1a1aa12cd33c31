/**
 * The recursive-descent parser (`parse`) over the token stream the
 * tokenizer produces.  The grammar is given twice: as functions over the
 * token sequence and a position (what each parse function consumes and
 * builds, or the error it throws), and as methods that advance a shared
 * token stream step by step, as the source does, each proved to agree with
 * its function.
 */
module Parser {
  import opened Wrappers
  import opened Ast

  datatype Punct = ExprOpen | ExprClose | BlockOpen | BlockClose | Delimiter | EndExpr

  /** `if`, `then`, `else`, `let`, the function keyword and its `ε` spelling, `true`, `false`. */
  datatype Keyword = If | Then | Else | Let | Fn | Lambda | True | False

  datatype Token =
    | PunctTok(p: Punct)
    | KeywordTok(k: Keyword)
    | OpTok(op: string)
    | VarTok(name: string)
    | IntTok(n: int)
    | StrTok(s: string)

  /**
   * The operator precedence table: `None` for an operator without an entry
   * (such as `!`), which never continues a binary expression.
   */
  type Prec = string -> Option<int>

  /**
   * What `parse` throws.  `EndOfInput` is the host's type error when a parse
   * function dereferences the token the exhausted stream returns; the
   * unexpected-token error carries the token after the offending one, which
   * is what its message prints.
   */
  datatype ParseError =
    | NoPunctuator(expected: Punct)
    | NoKeyword(keyword: Keyword)
    | NoVarName
    | UnexpectedToken(following: Option<Token>)
    | EndOfInput

  /** A parsed value and the position of the first token after it. */
  datatype Parsed<T> = Parsed(value: T, next: nat)

  /** What the item parser handed to `delimited` produces. */
  datatype ItemKind = ExprKind | NameKind | BindingKind

  datatype Item = ExprItem(node: Node) | NameItem(name: string) | BindingItem(binding: Binding)

  predicate OfKind(it: Item, kind: ItemKind) {
    match kind
    case ExprKind => it.ExprItem?
    case NameKind => it.NameItem?
    case BindingKind => it.BindingItem?
  }

  predicate AllOfKind(items: seq<Item>, kind: ItemKind) {
    forall i | 0 <= i < |items| :: OfKind(items[i], kind)
  }

  function Exprs(items: seq<Item>): (r: seq<Node>)
    requires AllOfKind(items, ExprKind)
    ensures |r| == |items| && forall i | 0 <= i < |r| :: items[i] == ExprItem(r[i])
  {
    seq(|items|, i requires 0 <= i < |items| => items[i].node)
  }

  function Names(items: seq<Item>): (r: seq<string>)
    requires AllOfKind(items, NameKind)
    ensures |r| == |items| && forall i | 0 <= i < |r| :: items[i] == NameItem(r[i])
  {
    seq(|items|, i requires 0 <= i < |items| => items[i].name)
  }

  function Bindings(items: seq<Item>): (r: seq<Binding>)
    requires AllOfKind(items, BindingKind)
    ensures |r| == |items| && forall i | 0 <= i < |r| :: items[i] == BindingItem(r[i])
  {
    seq(|items|, i requires 0 <= i < |items| => items[i].binding)
  }

  // ---------------------------------------------------------------------
  // Looking at the next token
  // ---------------------------------------------------------------------

  /** `input.peek()`: the token at `pos`, or nothing at the end. */
  function PeekAt(toks: seq<Token>, pos: nat): Option<Token> {
    if pos < |toks| then Some(toks[pos]) else None
  }

  predicate IsPunct(toks: seq<Token>, pos: nat, p: Punct) {
    pos < |toks| && toks[pos] == PunctTok(p)
  }

  predicate IsKeyword(toks: seq<Token>, pos: nat, k: Keyword) {
    pos < |toks| && toks[pos] == KeywordTok(k)
  }

  predicate IsOperator(toks: seq<Token>, pos: nat, op: string) {
    pos < |toks| && toks[pos] == OpTok(op)
  }

  /** `passPunctuator(p)`: consume `p` or fail. */
  function SkipPunct(toks: seq<Token>, pos: nat, p: Punct): (r: Result<nat, ParseError>)
    ensures r.Ok? <==> IsPunct(toks, pos, p)
    ensures r.Ok? ==> r.value == pos + 1
    ensures r.Err? ==> r.error == NoPunctuator(p)
  {
    if IsPunct(toks, pos, p) then Ok(pos + 1) else Err(NoPunctuator(p))
  }

  /** `passKeyword(k)`: consume `k` or fail. */
  function SkipKeyword(toks: seq<Token>, pos: nat, k: Keyword): (r: Result<nat, ParseError>)
    ensures r.Ok? <==> IsKeyword(toks, pos, k)
    ensures r.Ok? ==> r.value == pos + 1
    ensures r.Err? ==> r.error == NoKeyword(k)
  {
    if IsKeyword(toks, pos, k) then Ok(pos + 1) else Err(NoKeyword(k))
  }

  /** The operator at `pos` with its precedence, if that precedence exceeds `level`. */
  predicate Absorbs(toks: seq<Token>, prec: Prec, pos: nat, level: int) {
    pos < |toks| && toks[pos].OpTok? && prec(toks[pos].op).Some? && prec(toks[pos].op).value > level
  }

  /** The node for operator `op`: the assignment operator builds an assignment, any other a binary node. */
  function OperatorNode(op: string, left: Node, right: Node): Node {
    if op == "=" then Assign(op, left, right) else Binary(op, left, right)
  }

  // ---------------------------------------------------------------------
  // The grammar, as functions of the token sequence and a position
  // ---------------------------------------------------------------------

  /** `parseVariable`: one variable token, its name. */
  function Name(toks: seq<Token>, pos: nat): (r: Result<Parsed<string>, ParseError>)
    requires pos <= |toks|
    ensures r.Ok? ==> pos < r.value.next <= |toks|
    ensures r.Ok? <==> pos < |toks| && toks[pos].VarTok?
    ensures r.Ok? ==> r.value == Parsed(toks[pos].name, pos + 1)
    ensures r.Err? ==> r.error == (if pos < |toks| then NoVarName else EndOfInput)
  {
    if pos >= |toks| then Err(EndOfInput)
    else if toks[pos].VarTok? then Ok(Parsed(toks[pos].name, pos + 1))
    else Err(NoVarName)
  }

  /** `isNextBinary(left, level)`: absorb operators of precedence above `level`, grouping to the left. */
  function BinaryTail(toks: seq<Token>, prec: Prec, left: Node, level: int, pos: nat): (r: Result<Parsed<Node>, ParseError>)
    requires pos <= |toks|
    ensures r.Ok? ==> pos <= r.value.next <= |toks|
    ensures r.Ok? && r.value.next == pos ==> r.value.value == left
    decreases |toks| - pos, 1
  {
    if Absorbs(toks, prec, pos, level) then
      var op := toks[pos].op;
      var metric := prec(op).value;
      var a :- Atom(toks, prec, pos + 1);
      var right :- BinaryTail(toks, prec, a.value, metric, a.next);
      BinaryTail(toks, prec, OperatorNode(op, left, right.value), level, right.next)
    else
      Ok(Parsed(left, pos))
  }

  /**
   * `delimited(begin, end, separator, parser)`: the opening punctuator, then
   * items separated by the separator, an optional trailing separator, and
   * the closing punctuator.
   */
  function Delimited(toks: seq<Token>, prec: Prec, pos: nat, begin: Punct, end: Punct, sep: Punct, kind: ItemKind)
    : (r: Result<Parsed<seq<Item>>, ParseError>)
    requires pos <= |toks|
    ensures r.Ok? ==> pos < r.value.next <= |toks| && AllOfKind(r.value.value, kind)
    decreases |toks| - pos, 1
  {
    var p :- SkipPunct(toks, pos, begin);
    DelimitedLoop(toks, prec, p, end, sep, kind, true, [])
  }

  /** The loop of `delimited`: `first` until an item has been read, `acc` the items so far. */
  function DelimitedLoop(toks: seq<Token>, prec: Prec, pos: nat, end: Punct, sep: Punct, kind: ItemKind,
                         first: bool, acc: seq<Item>)
    : (r: Result<Parsed<seq<Item>>, ParseError>)
    requires pos <= |toks| && AllOfKind(acc, kind)
    ensures r.Ok? ==> pos < r.value.next <= |toks| && AllOfKind(r.value.value, kind)
    decreases |toks| - pos, 8
  {
    if pos >= |toks| || IsPunct(toks, pos, end) then
      var p :- SkipPunct(toks, pos, end);
      Ok(Parsed(acc, p))
    else
      var q :- if first then Ok(pos) else SkipPunct(toks, pos, sep);
      DelimitedItem(toks, prec, q, end, sep, kind, acc)
  }

  /** One turn of the loop of `delimited` after the separator: stop at the closing punctuator, or read an item. */
  function DelimitedItem(toks: seq<Token>, prec: Prec, pos: nat, end: Punct, sep: Punct, kind: ItemKind, acc: seq<Item>)
    : (r: Result<Parsed<seq<Item>>, ParseError>)
    requires pos <= |toks| && AllOfKind(acc, kind)
    ensures r.Ok? ==> pos < r.value.next <= |toks| && AllOfKind(r.value.value, kind)
    decreases |toks| - pos, 7
  {
    if IsPunct(toks, pos, end) then
      Ok(Parsed(acc, pos + 1))
    else
      var it :- ItemAt(toks, prec, pos, kind);
      DelimitedLoop(toks, prec, it.next, end, sep, kind, false, acc + [it.value])
  }

  /** A pass of the loop of `delimited` that reads an item goes on from the position after it. */
  lemma DelimitedItemRead(toks: seq<Token>, prec: Prec, pos: nat, end: Punct, sep: Punct, kind: ItemKind,
                          acc: seq<Item>, it: Item, next: nat)
    requires pos <= |toks| && AllOfKind(acc, kind) && !IsPunct(toks, pos, end)
    requires ItemAt(toks, prec, pos, kind) == Ok(Parsed(it, next))
    ensures pos < next <= |toks| && OfKind(it, kind)
    ensures DelimitedItem(toks, prec, pos, end, sep, kind, acc) == DelimitedLoop(toks, prec, next, end, sep, kind, false, acc + [it])
  {
  }

  /** The item parser handed to `delimited`. */
  function ItemAt(toks: seq<Token>, prec: Prec, pos: nat, kind: ItemKind): (r: Result<Parsed<Item>, ParseError>)
    requires pos <= |toks|
    ensures r.Ok? ==> pos < r.value.next <= |toks| && OfKind(r.value.value, kind)
    decreases |toks| - pos, 6
  {
    match kind
    case ExprKind =>
      var e :- Expression(toks, prec, pos);
      Ok(Parsed(ExprItem(e.value), e.next))
    case NameKind =>
      var n :- Name(toks, pos);
      Ok(Parsed(NameItem(n.value), n.next))
    case BindingKind =>
      var b :- NamedLet(toks, prec, pos);
      Ok(Parsed(BindingItem(b.value), b.next))
  }

  /** `parseCall(func)`: the parenthesised, comma-separated arguments. */
  function CallArgs(toks: seq<Token>, prec: Prec, func: Node, pos: nat): (r: Result<Parsed<Node>, ParseError>)
    requires pos <= |toks|
    ensures r.Ok? ==> pos < r.value.next <= |toks| && r.value.value.Call? && r.value.value.func == func
    decreases |toks| - pos, 2
  {
    var args :- Delimited(toks, prec, pos, ExprOpen, ExprClose, Delimiter, ExprKind);
    Ok(Parsed(Call(func, Exprs(args.value)), args.next))
  }

  /** `parseIfStatement`. */
  function IfStatement(toks: seq<Token>, prec: Prec, pos: nat): (r: Result<Parsed<Node>, ParseError>)
    requires pos <= |toks|
    ensures r.Ok? ==> pos < r.value.next <= |toks| && r.value.value.Conditional?
    decreases |toks| - pos, 1
  {
    var p1 :- SkipKeyword(toks, pos, If);
    var cond :- Expression(toks, prec, p1);
    var p2 :- if IsPunct(toks, cond.next, BlockOpen) then Ok(cond.next) else SkipKeyword(toks, cond.next, Then);
    var conseq :- Expression(toks, prec, p2);
    if IsKeyword(toks, conseq.next, Else) then
      var alt :- Expression(toks, prec, conseq.next + 1);
      Ok(Parsed(Conditional(cond.value, conseq.value, Some(alt.value)), alt.next))
    else
      Ok(Parsed(Conditional(cond.value, conseq.value, None), conseq.next))
  }

  /** `parseResolver`, after the function keyword: an optional name, the parameters, the body. */
  function Resolver(toks: seq<Token>, prec: Prec, pos: nat): (r: Result<Parsed<Node>, ParseError>)
    requires pos <= |toks|
    ensures r.Ok? ==> pos < r.value.next <= |toks| && r.value.value.Function?
    decreases |toks| - pos, 2
  {
    if pos >= |toks| then Err(EndOfInput)
    else
      var fname := if toks[pos].VarTok? then Some(toks[pos].name) else None;
      var p := if toks[pos].VarTok? then pos + 1 else pos;
      var vars :- Delimited(toks, prec, p, ExprOpen, ExprClose, Delimiter, NameKind);
      var body :- Expression(toks, prec, vars.next);
      Ok(Parsed(Function(fname, Names(vars.value), body.value), body.next))
  }

  /** `parseSequence`: a block of `;`-separated expressions. */
  function Block(toks: seq<Token>, prec: Prec, pos: nat): (r: Result<Parsed<Node>, ParseError>)
    requires pos <= |toks|
    ensures r.Ok? ==> pos < r.value.next <= |toks|
    decreases |toks| - pos, 2
  {
    var items :- Delimited(toks, prec, pos, BlockOpen, BlockClose, EndExpr, ExprKind);
    var es := Exprs(items.value);
    if |es| == 0 then Ok(Parsed(Bool(false), items.next))
    else if |es| == 1 then Ok(Parsed(es[0], items.next))
    else Ok(Parsed(Sequence(es), items.next))
  }

  /** `parseNamedLet`: a name, then `= definition` if the assignment operator follows. */
  function NamedLet(toks: seq<Token>, prec: Prec, pos: nat): (r: Result<Parsed<Binding>, ParseError>)
    requires pos <= |toks|
    ensures r.Ok? ==> pos < r.value.next <= |toks|
    decreases |toks| - pos, 2
  {
    var n :- Name(toks, pos);
    if IsOperator(toks, n.next, "=") then
      var d :- Expression(toks, prec, n.next + 1);
      Ok(Parsed(Binding(n.value, Some(d.value)), d.next))
    else
      Ok(Parsed(Binding(n.value, None), n.next))
  }

  /** The definitions of `let` bindings as call arguments, a missing one as `false`. */
  function Definitions(bs: seq<Binding>): seq<Node> {
    seq(|bs|, i requires 0 <= i < |bs| => if bs[i].def.Some? then bs[i].def.value else Bool(false))
  }

  /**
   * `parseLet`: with a name after `let`, a call of a function of that name
   * whose parameters are the bound names, applied to the definitions;
   * without, a `let` node.
   */
  function LetExpr(toks: seq<Token>, prec: Prec, pos: nat): (r: Result<Parsed<Node>, ParseError>)
    requires pos <= |toks|
    ensures r.Ok? ==> pos < r.value.next <= |toks|
    decreases |toks| - pos, 1
  {
    var p :- SkipKeyword(toks, pos, Let);
    if p >= |toks| then Err(EndOfInput)
    else if toks[p].VarTok? then
      var defs :- Delimited(toks, prec, p + 1, ExprOpen, ExprClose, Delimiter, BindingKind);
      var bs := Bindings(defs.value);
      var body :- Expression(toks, prec, defs.next);
      Ok(Parsed(Call(Function(Some(toks[p].name), seq(|bs|, i requires 0 <= i < |bs| => bs[i].name), body.value),
                     Definitions(bs)), body.next))
    else
      var defs :- Delimited(toks, prec, p, ExprOpen, ExprClose, Delimiter, BindingKind);
      var body :- Expression(toks, prec, defs.next);
      Ok(Parsed(Declaration(Bindings(defs.value), body.value), body.next))
  }

  /** The atom forms of `parseAtom`, before the check for a call. */
  function AtomCore(toks: seq<Token>, prec: Prec, pos: nat): (r: Result<Parsed<Node>, ParseError>)
    requires pos <= |toks|
    ensures r.Ok? ==> pos < r.value.next <= |toks|
    decreases |toks| - pos, 3
  {
    if IsPunct(toks, pos, ExprOpen) then
      var e :- Expression(toks, prec, pos + 1);
      var p :- SkipPunct(toks, e.next, ExprClose);
      Ok(Parsed(e.value, p))
    else if IsPunct(toks, pos, BlockOpen) then
      Block(toks, prec, pos)
    else if IsOperator(toks, pos, "!") then
      var b :- Expression(toks, prec, pos + 1);
      Ok(Parsed(Negation(b.value), b.next))
    else if IsKeyword(toks, pos, Let) then
      LetExpr(toks, prec, pos)
    else if IsKeyword(toks, pos, If) then
      IfStatement(toks, prec, pos)
    else if IsKeyword(toks, pos, True) || IsKeyword(toks, pos, False) then
      Ok(Parsed(Bool(toks[pos] == KeywordTok(True)), pos + 1))
    else if IsKeyword(toks, pos, Fn) || IsKeyword(toks, pos, Lambda) then
      Resolver(toks, prec, pos + 1)
    else if pos >= |toks| then
      Err(EndOfInput)
    else
      match toks[pos]
      case VarTok(name) => Ok(Parsed(Var(name), pos + 1))
      case IntTok(n) => Ok(Parsed(Int(n), pos + 1))
      case StrTok(s) => Ok(Parsed(Str(s), pos + 1))
      case _ => Err(UnexpectedToken(PeekAt(toks, pos + 1)))
  }

  /** `parseAtom`: an atom, called once if an opening parenthesis follows. */
  function Atom(toks: seq<Token>, prec: Prec, pos: nat): (r: Result<Parsed<Node>, ParseError>)
    requires pos <= |toks|
    ensures r.Ok? ==> pos < r.value.next <= |toks|
    decreases |toks| - pos, 4
  {
    var c :- AtomCore(toks, prec, pos);
    if IsPunct(toks, c.next, ExprOpen) then CallArgs(toks, prec, c.value, c.next) else Ok(c)
  }

  /** `parseExpression`: an atom and the binary operators after it, called once if `(` follows. */
  function Expression(toks: seq<Token>, prec: Prec, pos: nat): (r: Result<Parsed<Node>, ParseError>)
    requires pos <= |toks|
    ensures r.Ok? ==> pos < r.value.next <= |toks|
    decreases |toks| - pos, 5
  {
    var a :- Atom(toks, prec, pos);
    var b :- BinaryTail(toks, prec, a.value, 0, a.next);
    if IsPunct(toks, b.next, ExprOpen) then CallArgs(toks, prec, b.value, b.next) else Ok(b)
  }

  /** `parseRoot`'s loop: expressions separated by `;`, `acc` the ones read so far. */
  function RootLoop(toks: seq<Token>, prec: Prec, pos: nat, acc: seq<Node>): (r: Result<Node, ParseError>)
    requires pos <= |toks|
    ensures r.Ok? ==> r.value.Sequence? && |acc| <= |r.value.items| && r.value.items[..|acc|] == acc
    ensures r.Ok? && pos < |toks| ==> |acc| < |r.value.items|
    decreases |toks| - pos
  {
    if pos >= |toks| then Ok(Sequence(acc))
    else
      var e :- Expression(toks, prec, pos);
      if e.next >= |toks| then Ok(Sequence(acc + [e.value]))
      else
        var p :- SkipPunct(toks, e.next, EndExpr);
        RootLoop(toks, prec, p, acc + [e.value])
  }

  /** `parse`: the whole token sequence as a sequence of top-level expressions. */
  function Program(toks: seq<Token>, prec: Prec): (r: Result<Node, ParseError>)
    ensures r.Ok? ==> r.value.Sequence? && (|toks| > 0 <==> |r.value.items| > 0)
    ensures |toks| == 0 ==> r == Ok(Sequence([]))
  {
    RootLoop(toks, prec, 0, [])
  }

  // ---------------------------------------------------------------------
  // The parser as the source runs it: methods advancing a token stream
  // ---------------------------------------------------------------------

  /** The stream `parse` reads: the tokens and the position of the next one. */
  class TokenStream {
    const tokens: seq<Token>
    var pos: nat

    ghost predicate Valid()
      reads this
    {
      pos <= |tokens|
    }

    constructor (tokens: seq<Token>)
      ensures this.tokens == tokens && pos == 0 && Valid()
    {
      this.tokens := tokens;
      pos := 0;
    }

    /** `peek`: the next token, or nothing at the end. */
    method Peek() returns (t: Option<Token>)
      requires Valid()
      ensures t == PeekAt(tokens, pos)
    {
      t := if pos < |tokens| then Some(tokens[pos]) else None;
    }

    /** `next`: the next token, consumed; at the end nothing, and the stream stays put. */
    method Next() returns (t: Option<Token>)
      requires Valid()
      modifies this
      ensures Valid()
      ensures t == PeekAt(tokens, old(pos))
      ensures pos == if old(pos) < |tokens| then old(pos) + 1 else old(pos)
    {
      if pos < |tokens| {
        t := Some(tokens[pos]);
        pos := pos + 1;
      } else {
        t := None;
      }
    }

    /** `eof`: whether every token has been consumed. */
    method Eof() returns (b: bool)
      requires Valid()
      ensures b <==> pos >= |tokens|
    {
      var t := Peek();
      b := t.None?;
    }
  }

  /** A method's result and the stream position it leaves agree with a grammar function's. */
  predicate Agrees<T(==)>(r: Result<T, ParseError>, spec: Result<Parsed<T>, ParseError>, pos: nat) {
    match spec
    case Ok(p) => r == Ok(p.value) && pos == p.next
    case Err(e) => r == Err(e)
  }

  /** `isPunctuator(p)`. */
  method AtPunctuator(input: TokenStream, p: Punct) returns (b: bool)
    requires input.Valid()
    ensures b == IsPunct(input.tokens, input.pos, p)
  {
    var t := input.Peek();
    b := t == Some(PunctTok(p));
  }

  /** `isKeyword(k)`. */
  method AtKeyword(input: TokenStream, k: Keyword) returns (b: bool)
    requires input.Valid()
    ensures b == IsKeyword(input.tokens, input.pos, k)
  {
    var t := input.Peek();
    b := t == Some(KeywordTok(k));
  }

  /** `isOperator(op)`. */
  method AtOperator(input: TokenStream, op: string) returns (b: bool)
    requires input.Valid()
    ensures b == IsOperator(input.tokens, input.pos, op)
  {
    var t := input.Peek();
    b := t == Some(OpTok(op));
  }

  /** `passPunctuator(p)`. */
  method PassPunctuator(input: TokenStream, p: Punct) returns (r: Result<(), ParseError>)
    requires input.Valid()
    modifies input
    ensures input.Valid()
    ensures r.Ok? <==> IsPunct(input.tokens, old(input.pos), p)
    ensures r.Ok? ==> input.pos == old(input.pos) + 1
    ensures r.Err? ==> r.error == NoPunctuator(p)
  {
    var b := AtPunctuator(input, p);
    if b {
      var _ := input.Next();
      r := Ok(());
    } else {
      r := Err(NoPunctuator(p));
    }
  }

  /** `passKeyword(k)`. */
  method PassKeyword(input: TokenStream, k: Keyword) returns (r: Result<(), ParseError>)
    requires input.Valid()
    modifies input
    ensures input.Valid()
    ensures r.Ok? <==> IsKeyword(input.tokens, old(input.pos), k)
    ensures r.Ok? ==> input.pos == old(input.pos) + 1
    ensures r.Err? ==> r.error == NoKeyword(k)
  {
    var b := AtKeyword(input, k);
    if b {
      var _ := input.Next();
      r := Ok(());
    } else {
      r := Err(NoKeyword(k));
    }
  }

  /** `parseVariable`. */
  method ParseVariable(input: TokenStream) returns (r: Result<string, ParseError>)
    requires input.Valid()
    modifies input
    ensures input.Valid()
    ensures Agrees(r, Name(input.tokens, old(input.pos)), input.pos)
  {
    var t := input.Next();
    if t.None? {
      return Err(EndOfInput);
    }
    if !t.value.VarTok? {
      return Err(NoVarName);
    }
    return Ok(t.value.name);
  }

  /** `isNextBinary(left, level)`. */
  method IsNextBinary(input: TokenStream, prec: Prec, left: Node, level: int) returns (r: Result<Node, ParseError>)
    requires input.Valid()
    modifies input
    ensures input.Valid()
    ensures Agrees(r, BinaryTail(input.tokens, prec, left, level, old(input.pos)), input.pos)
    decreases |input.tokens| - input.pos, 1
  {
    var t := input.Peek();
    if t.Some? && t.value.OpTok? {
      var metric := prec(t.value.op);
      if metric.Some? && metric.value > level {
        var _ := input.Next();
        var a :- ParseAtom(input, prec);
        var right :- IsNextBinary(input, prec, a, metric.value);
        r := IsNextBinary(input, prec, OperatorNode(t.value.op, left, right), level);
        return;
      }
    }
    r := Ok(left);
  }

  /** What `delimited` still does once it has stopped at `pos`: consume the closing punctuator. */
  function Closing(toks: seq<Token>, pos: nat, end: Punct, items: seq<Item>): Result<Parsed<seq<Item>>, ParseError> {
    if IsPunct(toks, pos, end) then Ok(Parsed(items, pos + 1)) else Err(NoPunctuator(end))
  }

  /** `delimited(begin, end, separator, parser)`, its loop as a loop. */
  method ParseDelimited(input: TokenStream, prec: Prec, begin: Punct, end: Punct, sep: Punct, kind: ItemKind)
    returns (r: Result<seq<Item>, ParseError>)
    requires input.Valid()
    modifies input
    ensures input.Valid()
    ensures var d := Delimited(input.tokens, prec, old(input.pos), begin, end, sep, kind);
            (d.Ok? ==> r == Ok(d.value.value) && input.pos == d.value.next) && (d.Err? ==> r == Err(d.error))
    decreases |input.tokens| - input.pos, 1
  {
    ghost var d := Delimited(input.tokens, prec, input.pos, begin, end, sep, kind);
    var started := PassPunctuator(input, begin);
    if started.Err? {
      r := Err(started.error);
    } else {
      assert d == DelimitedLoop(input.tokens, prec, input.pos, end, sep, kind, true, []);
      r := DelimitedItems(input, prec, end, sep, kind);
    }
  }

  /** The loop of `delimited`, after the opening punctuator. */
  method DelimitedItems(input: TokenStream, prec: Prec, end: Punct, sep: Punct, kind: ItemKind)
    returns (r: Result<seq<Item>, ParseError>)
    requires input.Valid()
    modifies input
    ensures input.Valid()
    ensures var d := DelimitedLoop(input.tokens, prec, old(input.pos), end, sep, kind, true, []);
            (d.Ok? ==> r == Ok(d.value.value) && input.pos == d.value.next) && (d.Err? ==> r == Err(d.error))
    decreases |input.tokens| - input.pos, 10
  {
    ghost var start := input.pos;
    ghost var total := DelimitedLoop(input.tokens, prec, input.pos, end, sep, kind, true, []);
    var items: seq<Item> := [];
    var first := true;
    while true
      invariant input.Valid() && start <= input.pos && AllOfKind(items, kind)
      invariant DelimitedLoop(input.tokens, prec, input.pos, end, sep, kind, first, items) == total
      decreases |input.tokens| - input.pos
    {
      var eof := input.Eof();
      if eof {
        break;
      }
      var atEnd := AtPunctuator(input, end);
      if atEnd {
        break;
      }
      var turn := DelimitedTurn(input, prec, end, sep, kind, first, items);
      match turn
      case Err(e) =>
        return Err(e);
      case Ok(None) =>
        return Ok(items);
      case Ok(Some(it)) =>
        items := items + [it];
        first := false;
    }
    assert total == Closing(input.tokens, input.pos, end, items);
    var closed := PassPunctuator(input, end);
    if closed.Err? {
      return Err(closed.error);
    }
    r := Ok(items);
  }

  /**
   * One pass of the loop of `delimited` that does not stop at once: the
   * separator unless `first`, then nothing if the closing punctuator follows
   * (the stream left after it), else one item.
   */
  method DelimitedTurn(input: TokenStream, prec: Prec, end: Punct, sep: Punct, kind: ItemKind, first: bool, items: seq<Item>)
    returns (r: Result<Option<Item>, ParseError>)
    requires input.Valid() && AllOfKind(items, kind)
    requires input.pos < |input.tokens| && !IsPunct(input.tokens, input.pos, end)
    modifies input
    ensures input.Valid()
    ensures var d := DelimitedLoop(input.tokens, prec, old(input.pos), end, sep, kind, first, items);
            (r.Err? ==> d == Err(r.error)) &&
            (r.Ok? && r.value.None? ==> d == Ok(Parsed(items, input.pos))) &&
            (r.Ok? && r.value.Some? ==>
               old(input.pos) < input.pos && OfKind(r.value.value, kind) &&
               d == DelimitedLoop(input.tokens, prec, input.pos, end, sep, kind, false, items + [r.value.value]))
    decreases |input.tokens| - input.pos, 9
  {
    ghost var total := DelimitedLoop(input.tokens, prec, input.pos, end, sep, kind, first, items);
    if !first {
      var s := PassPunctuator(input, sep);
      if s.Err? {
        return Err(s.error);
      }
    }
    assert total == DelimitedItem(input.tokens, prec, input.pos, end, sep, kind, items);
    r := DelimitedEntry(input, prec, end, sep, kind, items);
  }

  /** The rest of a pass, after the separator: stop at the closing punctuator, or read one item. */
  method DelimitedEntry(input: TokenStream, prec: Prec, end: Punct, sep: Punct, kind: ItemKind, items: seq<Item>)
    returns (r: Result<Option<Item>, ParseError>)
    requires input.Valid() && AllOfKind(items, kind)
    modifies input
    ensures input.Valid()
    ensures var d := DelimitedItem(input.tokens, prec, old(input.pos), end, sep, kind, items);
            (r.Err? ==> d == Err(r.error)) &&
            (r.Ok? && r.value.None? ==> d == Ok(Parsed(items, input.pos))) &&
            (r.Ok? && r.value.Some? ==>
               old(input.pos) < input.pos && OfKind(r.value.value, kind) &&
               d == DelimitedLoop(input.tokens, prec, input.pos, end, sep, kind, false, items + [r.value.value]))
    decreases |input.tokens| - input.pos, 8
  {
    var atEnd := AtPunctuator(input, end);
    if atEnd {
      var _ := input.Next();
      return Ok(None);
    }
    ghost var at := input.pos;
    var item := ParseItem(input, prec, kind);
    if item.Err? {
      return Err(item.error);
    }
    DelimitedItemRead(input.tokens, prec, at, end, sep, kind, items, item.value, input.pos);
    r := Ok(Some(item.value));
  }

  /** The `parser` argument of `delimited`: `parseExpression`, `parseVariable` or `parseNamedLet`. */
  method ParseItem(input: TokenStream, prec: Prec, kind: ItemKind) returns (r: Result<Item, ParseError>)
    requires input.Valid()
    modifies input
    ensures input.Valid()
    ensures Agrees(r, ItemAt(input.tokens, prec, old(input.pos), kind), input.pos)
    decreases |input.tokens| - input.pos, 6
  {
    match kind
    case ExprKind =>
      var e :- ParseExpression(input, prec);
      r := Ok(ExprItem(e));
    case NameKind =>
      var n :- ParseVariable(input);
      r := Ok(NameItem(n));
    case BindingKind =>
      var b :- ParseNamedLet(input, prec);
      r := Ok(BindingItem(b));
  }

  /** `parseCall(func)`. */
  method ParseCall(input: TokenStream, prec: Prec, func: Node) returns (r: Result<Node, ParseError>)
    requires input.Valid()
    modifies input
    ensures input.Valid()
    ensures Agrees(r, CallArgs(input.tokens, prec, func, old(input.pos)), input.pos)
    decreases |input.tokens| - input.pos, 2
  {
    var args :- ParseDelimited(input, prec, ExprOpen, ExprClose, Delimiter, ExprKind);
    r := Ok(Call(func, Exprs(args)));
  }

  /** `isNextCall`, once its argument has produced `inbound`: a call of it if `(` follows. */
  method IsNextCall(input: TokenStream, prec: Prec, inbound: Node) returns (r: Result<Node, ParseError>)
    requires input.Valid()
    modifies input
    ensures input.Valid()
    ensures var p := old(input.pos);
            Agrees(r, if IsPunct(input.tokens, p, ExprOpen) then CallArgs(input.tokens, prec, inbound, p)
                      else Ok(Parsed(inbound, p)), input.pos)
    decreases |input.tokens| - input.pos, 3
  {
    var call := AtPunctuator(input, ExprOpen);
    if call {
      r := ParseCall(input, prec, inbound);
    } else {
      r := Ok(inbound);
    }
  }

  /** `parseIfStatement`. */
  method ParseIfStatement(input: TokenStream, prec: Prec) returns (r: Result<Node, ParseError>)
    requires input.Valid()
    modifies input
    ensures input.Valid()
    ensures Agrees(r, IfStatement(input.tokens, prec, old(input.pos)), input.pos)
    decreases |input.tokens| - input.pos, 1
  {
    var k := PassKeyword(input, If);
    if k.Err? {
      return Err(k.error);
    }
    var cond :- ParseExpression(input, prec);
    var block := AtPunctuator(input, BlockOpen);
    if !block {
      var t := PassKeyword(input, Then);
      if t.Err? {
        return Err(t.error);
      }
    }
    var conseq :- ParseExpression(input, prec);
    var alternative := AtKeyword(input, Else);
    if alternative {
      var _ := input.Next();
      var alt :- ParseExpression(input, prec);
      r := Ok(Conditional(cond, conseq, Some(alt)));
    } else {
      r := Ok(Conditional(cond, conseq, None));
    }
  }

  /** `parseResolver`. */
  method ParseResolver(input: TokenStream, prec: Prec) returns (r: Result<Node, ParseError>)
    requires input.Valid()
    modifies input
    ensures input.Valid()
    ensures Agrees(r, Resolver(input.tokens, prec, old(input.pos)), input.pos)
    decreases |input.tokens| - input.pos, 2
  {
    var t := input.Peek();
    if t.None? {
      return Err(EndOfInput);
    }
    var fname: Option<string> := None;
    if t.value.VarTok? {
      var named := input.Next();
      fname := Some(named.value.name);
    }
    var vars :- ParseDelimited(input, prec, ExprOpen, ExprClose, Delimiter, NameKind);
    var body :- ParseExpression(input, prec);
    r := Ok(Function(fname, Names(vars), body));
  }

  /** `parseBoolean`: consume a `true` or `false` keyword. */
  method ParseBoolean(input: TokenStream) returns (b: Node)
    requires input.Valid() && input.pos < |input.tokens|
    modifies input
    ensures input.Valid() && input.pos == old(input.pos) + 1
    ensures b == Bool(input.tokens[old(input.pos)] == KeywordTok(True))
  {
    var t := input.Next();
    b := Bool(t == Some(KeywordTok(True)));
  }

  /** The function `parseAtom` hands to `isNextCall`: one atom form. */
  method ParseAtomForm(input: TokenStream, prec: Prec) returns (r: Result<Node, ParseError>)
    requires input.Valid()
    modifies input
    ensures input.Valid()
    ensures Agrees(r, AtomCore(input.tokens, prec, old(input.pos)), input.pos)
    decreases |input.tokens| - input.pos, 3
  {
    var b := AtPunctuator(input, ExprOpen);
    if b {
      var _ := input.Next();
      var e :- ParseExpression(input, prec);
      var c := PassPunctuator(input, ExprClose);
      if c.Err? {
        return Err(c.error);
      }
      return Ok(e);
    }
    b := AtPunctuator(input, BlockOpen);
    if b {
      r := ParseSequence(input, prec);
      return;
    }
    b := AtOperator(input, "!");
    if b {
      var _ := input.Next();
      var body :- ParseExpression(input, prec);
      return Ok(Negation(body));
    }
    b := AtKeyword(input, Let);
    if b {
      r := ParseLet(input, prec);
      return;
    }
    b := AtKeyword(input, If);
    if b {
      r := ParseIfStatement(input, prec);
      return;
    }
    var isTrue := AtKeyword(input, True);
    var isFalse := AtKeyword(input, False);
    if isTrue || isFalse {
      var v := ParseBoolean(input);
      return Ok(v);
    }
    var isFn := AtKeyword(input, Fn);
    var isLambda := AtKeyword(input, Lambda);
    if isFn || isLambda {
      var _ := input.Next();
      r := ParseResolver(input, prec);
      return;
    }
    var t := input.Next();
    if t.None? {
      return Err(EndOfInput);
    }
    match t.value
    case VarTok(name) => r := Ok(Var(name));
    case IntTok(n) => r := Ok(Int(n));
    case StrTok(s) => r := Ok(Str(s));
    case _ =>
      var following := input.Peek();
      r := Err(UnexpectedToken(following));
  }

  /** `parseAtom`. */
  method ParseAtom(input: TokenStream, prec: Prec) returns (r: Result<Node, ParseError>)
    requires input.Valid()
    modifies input
    ensures input.Valid()
    ensures Agrees(r, Atom(input.tokens, prec, old(input.pos)), input.pos)
    decreases |input.tokens| - input.pos, 4
  {
    var inbound :- ParseAtomForm(input, prec);
    r := IsNextCall(input, prec, inbound);
  }

  /** `parseExpression`. */
  method ParseExpression(input: TokenStream, prec: Prec) returns (r: Result<Node, ParseError>)
    requires input.Valid()
    modifies input
    ensures input.Valid()
    ensures Agrees(r, Expression(input.tokens, prec, old(input.pos)), input.pos)
    decreases |input.tokens| - input.pos, 5
  {
    var a :- ParseAtom(input, prec);
    var inbound :- IsNextBinary(input, prec, a, 0);
    r := IsNextCall(input, prec, inbound);
  }

  /** `parseSequence`. */
  method ParseSequence(input: TokenStream, prec: Prec) returns (r: Result<Node, ParseError>)
    requires input.Valid()
    modifies input
    ensures input.Valid()
    ensures Agrees(r, Block(input.tokens, prec, old(input.pos)), input.pos)
    decreases |input.tokens| - input.pos, 2
  {
    var items :- ParseDelimited(input, prec, BlockOpen, BlockClose, EndExpr, ExprKind);
    var es := Exprs(items);
    if |es| == 0 {
      r := Ok(Bool(false));
    } else if |es| == 1 {
      r := Ok(es[0]);
    } else {
      r := Ok(Sequence(es));
    }
  }

  /** `parseNamedLet`. */
  method ParseNamedLet(input: TokenStream, prec: Prec) returns (r: Result<Binding, ParseError>)
    requires input.Valid()
    modifies input
    ensures input.Valid()
    ensures Agrees(r, NamedLet(input.tokens, prec, old(input.pos)), input.pos)
    decreases |input.tokens| - input.pos, 2
  {
    var name :- ParseVariable(input);
    var defined := AtOperator(input, "=");
    if defined {
      var _ := input.Next();
      var def :- ParseExpression(input, prec);
      r := Ok(Binding(name, Some(def)));
    } else {
      r := Ok(Binding(name, None));
    }
  }

  /** `parseLet`. */
  method ParseLet(input: TokenStream, prec: Prec) returns (r: Result<Node, ParseError>)
    requires input.Valid()
    modifies input
    ensures input.Valid()
    ensures Agrees(r, LetExpr(input.tokens, prec, old(input.pos)), input.pos)
    decreases |input.tokens| - input.pos, 1
  {
    var k := PassKeyword(input, Let);
    if k.Err? {
      return Err(k.error);
    }
    var t := input.Peek();
    if t.None? {
      return Err(EndOfInput);
    }
    if t.value.VarTok? {
      var _ := input.Next();
      var defs :- ParseDelimited(input, prec, ExprOpen, ExprClose, Delimiter, BindingKind);
      var bs := Bindings(defs);
      var body :- ParseExpression(input, prec);
      r := Ok(Call(Function(Some(t.value.name), seq(|bs|, i requires 0 <= i < |bs| => bs[i].name), body),
                   Definitions(bs)));
    } else {
      var defs :- ParseDelimited(input, prec, ExprOpen, ExprClose, Delimiter, BindingKind);
      var body :- ParseExpression(input, prec);
      r := Ok(Declaration(Bindings(defs), body));
    }
  }

  /** `parseRoot`. */
  method ParseRoot(input: TokenStream, prec: Prec) returns (r: Result<Node, ParseError>)
    requires input.Valid()
    modifies input
    ensures r == RootLoop(input.tokens, prec, old(input.pos), [])
  {
    ghost var total := RootLoop(input.tokens, prec, input.pos, []);
    var es: seq<Node> := [];
    while true
      invariant input.Valid()
      invariant RootLoop(input.tokens, prec, input.pos, es) == total
      decreases |input.tokens| - input.pos
    {
      var eof := input.Eof();
      if eof {
        break;
      }
      var e :- ParseExpression(input, prec);
      es := es + [e];
      eof := input.Eof();
      if !eof {
        var s := PassPunctuator(input, EndExpr);
        if s.Err? {
          return Err(s.error);
        }
      }
    }
    r := Ok(Sequence(es));
  }

  /** `parse(input)` on a fresh stream of `tokens`. */
  method Parse(tokens: seq<Token>, prec: Prec) returns (r: Result<Node, ParseError>)
    ensures r == Program(tokens, prec)
  {
    var input := new TokenStream(tokens);
    r := ParseRoot(input, prec);
  }
}
