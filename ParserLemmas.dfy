/**
 * Properties of the grammar of `parse`: what the delimited lists, blocks,
 * binary operators, conditionals, `let` forms, function literals and atoms
 * produce, and which errors they raise.
 */
module ParserLemmas {
  import opened Wrappers
  import opened Ast
  import opened Parser

  // ---------------------------------------------------------------------
  // Single tokens as expressions
  // ---------------------------------------------------------------------

  /** A variable, integer or string token. */
  predicate IsLeaf(t: Token) {
    t.VarTok? || t.IntTok? || t.StrTok?
  }

  /** The node a variable, integer or string token stands for. */
  function Leaf(t: Token): (n: Node)
    requires IsLeaf(t)
    ensures t.VarTok? ==> n == Var(t.name)
    ensures t.IntTok? ==> n == Int(t.n)
    ensures t.StrTok? ==> n == Str(t.s)
  {
    match t
    case VarTok(name) => Var(name)
    case IntTok(n) => Int(n)
    case StrTok(s) => Str(s)
  }

  /** Nothing at `pos` continues an expression: no operator and no opening parenthesis. */
  predicate Ends(toks: seq<Token>, pos: nat) {
    pos >= |toks| || (!toks[pos].OpTok? && toks[pos] != PunctTok(ExprOpen))
  }

  /** A lone variable, integer or string token is an atom, and an expression when nothing continues it. */
  lemma LoneLeaf(toks: seq<Token>, prec: Prec, pos: nat)
    requires pos < |toks| && IsLeaf(toks[pos]) && !IsPunct(toks, pos + 1, ExprOpen)
    ensures Atom(toks, prec, pos) == Ok(Parsed(Leaf(toks[pos]), pos + 1))
    ensures Ends(toks, pos + 1) ==> Expression(toks, prec, pos) == Ok(Parsed(Leaf(toks[pos]), pos + 1))
  {
    assert AtomCore(toks, prec, pos) == Ok(Parsed(Leaf(toks[pos]), pos + 1));
    if Ends(toks, pos + 1) {
      assert BinaryTail(toks, prec, Leaf(toks[pos]), 0, pos + 1) == Ok(Parsed(Leaf(toks[pos]), pos + 1));
    }
  }

  // ---------------------------------------------------------------------
  // Delimited lists
  // ---------------------------------------------------------------------

  /** The item a variable name gives as a parameter name or as an expression. */
  function VarItem(kind: ItemKind, name: string): Item
    requires kind != BindingKind
  {
    if kind == NameKind then NameItem(name) else ExprItem(Var(name))
  }

  function VarItems(kind: ItemKind, names: seq<string>): (r: seq<Item>)
    requires kind != BindingKind
    ensures |r| == |names| && AllOfKind(r, kind)
    ensures forall i | 0 <= i < |names| :: r[i] == VarItem(kind, names[i])
  {
    seq(|names|, i requires 0 <= i < |names| => VarItem(kind, names[i]))
  }

  /**
   * The tokens of a list of variable names after the opening punctuator:
   * separated by `sep`, with a separator after the last name if `trailing`,
   * and the closing punctuator if `closed`.
   */
  function Listed(names: seq<string>, end: Punct, sep: Punct, first: bool, trailing: bool, closed: bool): (r: seq<Token>)
    ensures |r| > 0 || !closed
    decreases |names|
  {
    if |names| == 0 then
      (if trailing && !first then [PunctTok(sep)] else []) + (if closed then [PunctTok(end)] else [])
    else
      (if first then [] else [PunctTok(sep)]) + [VarTok(names[0])] + Listed(names[1..], end, sep, false, trailing, closed)
  }

  /** A list of two names, written out. */
  lemma ListedTwo(x: string, y: string, end: Punct, sep: Punct)
    ensures Listed([x, y], end, sep, true, false, true) == [VarTok(x), PunctTok(sep), VarTok(y), PunctTok(end)]
  {
    assert [x, y][1..] == [y];
    assert [y][1..] == [];
    assert Listed([y], end, sep, false, false, true) == [PunctTok(sep), VarTok(y), PunctTok(end)];
  }

  /** The tokens from `pos` on list `names`, and the input ends there unless the list is closed. */
  predicate Lists(toks: seq<Token>, pos: nat, names: seq<string>, end: Punct, sep: Punct, first: bool, trailing: bool, closed: bool) {
    var l := Listed(names, end, sep, first, trailing, closed);
    pos + |l| <= |toks| && (forall i | 0 <= i < |l| :: toks[pos + i] == l[i]) &&
    (closed || (!trailing && pos + |l| == |toks|))
  }

  /** The token facts behind one pass of `delimited` over a non-empty list. */
  lemma ListedHead(toks: seq<Token>, pos: nat, names: seq<string>, end: Punct, sep: Punct, first: bool, trailing: bool, closed: bool)
    requires |names| > 0 && sep != end && end != ExprOpen && sep != ExprOpen
    requires Lists(toks, pos, names, end, sep, first, trailing, closed)
    ensures var v := if first then pos else pos + 1;
            v < |toks| && (first || toks[pos] == PunctTok(sep)) && toks[v] == VarTok(names[0]) && Ends(toks, v + 1) &&
            Lists(toks, v + 1, names[1..], end, sep, false, trailing, closed) &&
            |Listed(names, end, sep, first, trailing, closed)| == v - pos + 1 + |Listed(names[1..], end, sep, false, trailing, closed)|
  {
    var v := if first then pos else pos + 1;
    var l := Listed(names, end, sep, first, trailing, closed);
    var tail := Listed(names[1..], end, sep, false, trailing, closed);
    assert l == (if first then [] else [PunctTok(sep)]) + [VarTok(names[0])] + tail;
    assert toks[v] == l[v - pos];
    if !first {
      assert toks[pos] == l[0];
    }
    forall i | 0 <= i < |tail|
      ensures toks[v + 1 + i] == tail[i]
    {
      assert toks[pos + (v - pos + 1 + i)] == l[v - pos + 1 + i];
    }
    if v + 1 < |toks| {
      if |tail| > 0 {
        assert tail[0] == PunctTok(sep) || tail[0] == PunctTok(end);
        assert toks[v + 1] == tail[0];
      }
    }
  }

  /** A variable name where `delimited` expects an item is read as that item. */
  lemma VarItemAt(toks: seq<Token>, prec: Prec, pos: nat, kind: ItemKind)
    requires kind != BindingKind && pos < |toks| && toks[pos].VarTok? && (kind == ExprKind ==> Ends(toks, pos + 1))
    ensures ItemAt(toks, prec, pos, kind) == Ok(Parsed(VarItem(kind, toks[pos].name), pos + 1))
  {
    if kind == ExprKind {
      LoneLeaf(toks, prec, pos);
    }
  }

  /** A pass of the loop of `delimited` that neither stops nor closes reads the item after the separator. */
  lemma DelimitedPass(toks: seq<Token>, prec: Prec, pos: nat, end: Punct, sep: Punct, kind: ItemKind, first: bool,
                      acc: seq<Item>, it: Item, next: nat)
    requires AllOfKind(acc, kind) && sep != end
    requires var v := if first then pos else pos + 1;
             v < |toks| && (first || toks[pos] == PunctTok(sep)) && toks[v] != PunctTok(end) &&
             ItemAt(toks, prec, v, kind) == Ok(Parsed(it, next))
    ensures OfKind(it, kind) && pos < next <= |toks|
    ensures DelimitedLoop(toks, prec, pos, end, sep, kind, first, acc) ==
            DelimitedLoop(toks, prec, next, end, sep, kind, false, acc + [it])
  {
    var v := if first then pos else pos + 1;
    assert DelimitedLoop(toks, prec, pos, end, sep, kind, first, acc) == DelimitedItem(toks, prec, v, end, sep, kind, acc);
  }

  /**
   * The loop of `delimited` reads listed names back in order, a trailing
   * separator included, and fails for the missing closing punctuator when
   * the input ends first.
   */
  lemma {:induction false} ListedRoundTrip(toks: seq<Token>, prec: Prec, pos: nat, names: seq<string>, end: Punct, sep: Punct,
                                           kind: ItemKind, first: bool, trailing: bool, closed: bool, acc: seq<Item>)
    requires kind != BindingKind && end != ExprOpen && sep != ExprOpen && sep != end
    requires AllOfKind(acc, kind) && Lists(toks, pos, names, end, sep, first, trailing, closed)
    ensures DelimitedLoop(toks, prec, pos, end, sep, kind, first, acc) ==
            if closed then Ok(Parsed(acc + VarItems(kind, names), pos + |Listed(names, end, sep, first, trailing, closed)|))
            else Err(NoPunctuator(end))
    decreases |names|
  {
    if |names| == 0 {
      ListedEmpty(toks, prec, pos, end, sep, kind, first, trailing, closed, acc);
    } else {
      var v := if first then pos else pos + 1;
      ListedStep(toks, prec, pos, names, end, sep, kind, first, trailing, closed, acc);
      ListedRoundTrip(toks, prec, v + 1, names[1..], end, sep, kind, false, trailing, closed, acc + [VarItem(kind, names[0])]);
      VarItemsCons(kind, names, acc);
    }
  }

  /** One pass of the loop of `delimited` over a listed name: the separator, if not first, then the name. */
  lemma ListedStep(toks: seq<Token>, prec: Prec, pos: nat, names: seq<string>, end: Punct, sep: Punct,
                   kind: ItemKind, first: bool, trailing: bool, closed: bool, acc: seq<Item>)
    requires kind != BindingKind && end != ExprOpen && sep != ExprOpen && sep != end && |names| > 0
    requires AllOfKind(acc, kind) && Lists(toks, pos, names, end, sep, first, trailing, closed)
    ensures var v := if first then pos else pos + 1;
            v < |toks| && AllOfKind(acc + [VarItem(kind, names[0])], kind) &&
            Lists(toks, v + 1, names[1..], end, sep, false, trailing, closed) &&
            pos + |Listed(names, end, sep, first, trailing, closed)| == v + 1 + |Listed(names[1..], end, sep, false, trailing, closed)| &&
            DelimitedLoop(toks, prec, pos, end, sep, kind, first, acc) ==
            DelimitedLoop(toks, prec, v + 1, end, sep, kind, false, acc + [VarItem(kind, names[0])])
  {
    var v := if first then pos else pos + 1;
    ListedHead(toks, pos, names, end, sep, first, trailing, closed);
    VarItemAt(toks, prec, v, kind);
    DelimitedPass(toks, prec, pos, end, sep, kind, first, acc, VarItem(kind, names[0]), v + 1);
  }

  /** The items of a non-empty list of names are the first name's item followed by the rest's. */
  lemma VarItemsCons(kind: ItemKind, names: seq<string>, acc: seq<Item>)
    requires kind != BindingKind && |names| > 0
    ensures acc + [VarItem(kind, names[0])] + VarItems(kind, names[1..]) == acc + VarItems(kind, names)
  {
    assert VarItems(kind, names) == [VarItem(kind, names[0])] + VarItems(kind, names[1..]);
  }

  /** The end of a list: the closing punctuator, after a trailing separator if there is one, or the end of the input. */
  lemma ListedEmpty(toks: seq<Token>, prec: Prec, pos: nat, end: Punct, sep: Punct, kind: ItemKind,
                    first: bool, trailing: bool, closed: bool, acc: seq<Item>)
    requires kind != BindingKind && sep != end
    requires AllOfKind(acc, kind) && Lists(toks, pos, [], end, sep, first, trailing, closed)
    ensures DelimitedLoop(toks, prec, pos, end, sep, kind, first, acc) ==
            if closed then Ok(Parsed(acc + VarItems(kind, []), pos + |Listed([], end, sep, first, trailing, closed)|))
            else Err(NoPunctuator(end))
  {
    var l := Listed([], end, sep, first, trailing, closed);
    assert acc + VarItems(kind, []) == acc;
    if trailing && !first && closed {
      assert toks[pos] == l[0] == PunctTok(sep) && toks[pos + 1] == l[1] == PunctTok(end);
      assert DelimitedItem(toks, prec, pos + 1, end, sep, kind, acc) == Ok(Parsed(acc, pos + 2));
    } else if closed {
      assert toks[pos] == l[0] == PunctTok(end);
    }
  }

  /** `delimited` over a list of variable names, wherever it stands in the input, yields the names in order. */
  lemma DelimitedNames(pre: seq<Token>, names: seq<string>, begin: Punct, end: Punct, sep: Punct, kind: ItemKind,
                       trailing: bool, rest: seq<Token>, prec: Prec)
    requires kind != BindingKind && end != ExprOpen && sep != ExprOpen && sep != end
    ensures var list := [PunctTok(begin)] + Listed(names, end, sep, true, trailing, true);
            Delimited(pre + list + rest, prec, |pre|, begin, end, sep, kind) ==
            Ok(Parsed(VarItems(kind, names), |pre| + |list|))
  {
    var l := Listed(names, end, sep, true, trailing, true);
    var toks := pre + ([PunctTok(begin)] + l) + rest;
    Embedded(pre, PunctTok(begin), l, rest);
    ListedRoundTrip(toks, prec, |pre| + 1, names, end, sep, kind, true, trailing, true, []);
    assert [] + VarItems(kind, names) == VarItems(kind, names);
  }

  /** Past the opening punctuator, `delimited` is its loop, before the first item. */
  lemma DelimitedOpens(toks: seq<Token>, prec: Prec, pos: nat, begin: Punct, end: Punct, sep: Punct, kind: ItemKind)
    requires IsPunct(toks, pos, begin)
    ensures Delimited(toks, prec, pos, begin, end, sep, kind) == DelimitedLoop(toks, prec, pos + 1, end, sep, kind, true, [])
  {
  }

  /** Where the tokens of `[t] + l` stand in `pre + ([t] + l) + rest`. */
  lemma Embedded(pre: seq<Token>, t: Token, l: seq<Token>, rest: seq<Token>)
    ensures var toks := pre + ([t] + l) + rest;
            |toks| == |pre| + 1 + |l| + |rest| && toks[|pre|] == t && forall i | 0 <= i < |l| :: toks[|pre| + 1 + i] == l[i]
  {
  }

  /** `delimited` fails for the missing closing punctuator when the input ends after the last name. */
  lemma DelimitedUnclosed(names: seq<string>, begin: Punct, end: Punct, sep: Punct, kind: ItemKind, prec: Prec)
    requires kind != BindingKind && end != ExprOpen && sep != ExprOpen && sep != end
    ensures Delimited([PunctTok(begin)] + Listed(names, end, sep, true, false, false), prec, 0, begin, end, sep, kind)
            == Err(NoPunctuator(end))
  {
    var l := Listed(names, end, sep, true, false, false);
    var toks := [PunctTok(begin)] + l;
    Embedded([], PunctTok(begin), l, []);
    assert [] + toks + [] == toks;
    assert Lists(toks, 1, names, end, sep, true, false, false);
    DelimitedOpens(toks, prec, 0, begin, end, sep, kind);
    ListedRoundTrip(toks, prec, 1, names, end, sep, kind, true, false, false, []);
  }

  /** The nodes of a list of variable names. */
  function Vars(names: seq<string>): (r: seq<Node>)
    ensures |r| == |names| && forall i | 0 <= i < |names| :: r[i] == Var(names[i])
  {
    seq(|names|, i requires 0 <= i < |names| => Var(names[i]))
  }

  /**
   * A block of `;`-separated variables is `false` when empty, the variable
   * itself when there is one, and a sequence of them otherwise.
   */
  lemma BlockShape(pre: seq<Token>, names: seq<string>, trailing: bool, rest: seq<Token>, prec: Prec)
    ensures var list := [PunctTok(BlockOpen)] + Listed(names, BlockClose, EndExpr, true, trailing, true);
            Block(pre + list + rest, prec, |pre|) ==
            Ok(Parsed(if |names| == 0 then Bool(false) else if |names| == 1 then Var(names[0]) else Sequence(Vars(names)),
                      |pre| + |list|))
  {
    DelimitedNames(pre, names, BlockOpen, BlockClose, EndExpr, ExprKind, trailing, rest, prec);
    assert Exprs(VarItems(ExprKind, names)) == Vars(names);
  }

  // ---------------------------------------------------------------------
  // Binary operators
  // ---------------------------------------------------------------------

  /** Two operators of equal, positive precedence group to the left: `a op1 b op2 c` is `(a op1 b) op2 c`. */
  lemma EqualPrecedenceGroupsLeft(prec: Prec, a: string, op1: string, b: string, op2: string, c: string)
    requires prec(op1).Some? && prec(op1).value > 0 && prec(op2) == prec(op1)
    ensures var toks := [VarTok(a), OpTok(op1), VarTok(b), OpTok(op2), VarTok(c)];
            Expression(toks, prec, 0) ==
            Ok(Parsed(OperatorNode(op2, OperatorNode(op1, Var(a), Var(b)), Var(c)), 5))
  {
    var toks := [VarTok(a), OpTok(op1), VarTok(b), OpTok(op2), VarTok(c)];
    var p := prec(op1).value;
    var ab := OperatorNode(op1, Var(a), Var(b));
    var abc := OperatorNode(op2, ab, Var(c));
    assert Atom(toks, prec, 0) == Ok(Parsed(Var(a), 1)) by { LoneLeaf(toks, prec, 0); }
    assert Atom(toks, prec, 2) == Ok(Parsed(Var(b), 3)) by { LoneLeaf(toks, prec, 2); }
    assert Atom(toks, prec, 4) == Ok(Parsed(Var(c), 5)) by { LoneLeaf(toks, prec, 4); }
    assert BinaryTail(toks, prec, Var(b), p, 3) == Ok(Parsed(Var(b), 3));
    assert BinaryTail(toks, prec, Var(c), p, 5) == Ok(Parsed(Var(c), 5));
    assert BinaryTail(toks, prec, abc, 0, 5) == Ok(Parsed(abc, 5));
    assert BinaryTail(toks, prec, ab, 0, 3) == Ok(Parsed(abc, 5));
    assert BinaryTail(toks, prec, Var(a), 0, 1) == Ok(Parsed(abc, 5));
  }

  /** An operator of higher precedence on the right binds tighter: `a op1 b op2 c` is `a op1 (b op2 c)`. */
  lemma HigherPrecedenceNestsRight(prec: Prec, a: string, op1: string, b: string, op2: string, c: string)
    requires prec(op1).Some? && prec(op2).Some? && 0 < prec(op1).value < prec(op2).value
    ensures var toks := [VarTok(a), OpTok(op1), VarTok(b), OpTok(op2), VarTok(c)];
            Expression(toks, prec, 0) ==
            Ok(Parsed(OperatorNode(op1, Var(a), OperatorNode(op2, Var(b), Var(c))), 5))
  {
    var toks := [VarTok(a), OpTok(op1), VarTok(b), OpTok(op2), VarTok(c)];
    var p1 := prec(op1).value;
    var p2 := prec(op2).value;
    var bc := OperatorNode(op2, Var(b), Var(c));
    var abc := OperatorNode(op1, Var(a), bc);
    assert Atom(toks, prec, 0) == Ok(Parsed(Var(a), 1)) by { LoneLeaf(toks, prec, 0); }
    assert Atom(toks, prec, 2) == Ok(Parsed(Var(b), 3)) by { LoneLeaf(toks, prec, 2); }
    assert Atom(toks, prec, 4) == Ok(Parsed(Var(c), 5)) by { LoneLeaf(toks, prec, 4); }
    assert BinaryTail(toks, prec, Var(c), p2, 5) == Ok(Parsed(Var(c), 5));
    assert BinaryTail(toks, prec, bc, p1, 5) == Ok(Parsed(bc, 5));
    assert BinaryTail(toks, prec, Var(b), p1, 3) == Ok(Parsed(bc, 5));
    assert BinaryTail(toks, prec, abc, 0, 5) == Ok(Parsed(abc, 5));
    assert BinaryTail(toks, prec, Var(a), 0, 1) == Ok(Parsed(abc, 5));
  }

  /** An operator without a precedence entry, or one not above the level, ends the binary expression. */
  lemma OperatorWithoutPrecedenceStops(toks: seq<Token>, prec: Prec, left: Node, level: int, pos: nat)
    requires pos < |toks| && toks[pos].OpTok? && (prec(toks[pos].op).None? || prec(toks[pos].op).value <= level)
    ensures BinaryTail(toks, prec, left, level, pos) == Ok(Parsed(left, pos))
  {
  }

  /**
   * For any left operand: when the operator at `pos` is absorbed and the
   * operator after its right operand is not, the result is an assignment
   * node for `=` and a binary node for every other operator, and it ends
   * after the right operand.
   */
  lemma OperatorAbsorbed(toks: seq<Token>, prec: Prec, left: Node, level: int, pos: nat, right: Node, q: nat)
    requires Absorbs(toks, prec, pos, level)
    requires pos + 1 <= |toks|
    requires var a := Atom(toks, prec, pos + 1);
             a.Ok? && BinaryTail(toks, prec, a.value.value, prec(toks[pos].op).value, a.value.next) == Ok(Parsed(right, q))
    requires !Absorbs(toks, prec, q, level)
    ensures var op := toks[pos].op;
            BinaryTail(toks, prec, left, level, pos) ==
            Ok(Parsed(if op == "=" then Assign(op, left, right) else Binary(op, left, right), q))
  {
  }

  /** `a = b` builds an assignment node, every other operator a binary node. */
  lemma AssignmentOperator(prec: Prec, a: string, op: string, b: string)
    requires prec(op).Some? && prec(op).value > 0
    ensures var toks := [VarTok(a), OpTok(op), VarTok(b)];
            Expression(toks, prec, 0) ==
            Ok(Parsed(if op == "=" then Assign(op, Var(a), Var(b)) else Binary(op, Var(a), Var(b)), 3))
  {
    var toks := [VarTok(a), OpTok(op), VarTok(b)];
    var p := prec(op).value;
    var ab := OperatorNode(op, Var(a), Var(b));
    assert Atom(toks, prec, 0) == Ok(Parsed(Var(a), 1)) by { LoneLeaf(toks, prec, 0); }
    assert Atom(toks, prec, 2) == Ok(Parsed(Var(b), 3)) by { LoneLeaf(toks, prec, 2); }
    assert BinaryTail(toks, prec, Var(b), p, 3) == Ok(Parsed(Var(b), 3));
    assert BinaryTail(toks, prec, ab, 0, 3) == Ok(Parsed(ab, 3));
    assert BinaryTail(toks, prec, Var(a), 0, 1) == Ok(Parsed(ab, 3));
  }

  // ---------------------------------------------------------------------
  // Conditionals
  // ---------------------------------------------------------------------

  /**
   * Any `if`: once the condition ends at `q` and the then-part (after `then`,
   * or a block directly) ends at `q2`, the conditional has an else branch
   * exactly when the `else` keyword stands at `q2`; without it the
   * conditional ends at `q2`.
   */
  lemma IfParts(toks: seq<Token>, prec: Prec, pos: nat, c: Node, q: nat, t: Node, q2: nat)
    requires IsKeyword(toks, pos, If) && Expression(toks, prec, pos + 1) == Ok(Parsed(c, q))
    requires IsPunct(toks, q, BlockOpen) || IsKeyword(toks, q, Then)
    requires Expression(toks, prec, if IsPunct(toks, q, BlockOpen) then q else q + 1) == Ok(Parsed(t, q2))
    ensures var r := IfStatement(toks, prec, pos);
            r.Ok? ==> r.value.value.cond == c && r.value.value.conseq == t &&
                      (r.value.value.alt.Some? <==> IsKeyword(toks, q2, Else))
    ensures !IsKeyword(toks, q2, Else) ==> IfStatement(toks, prec, pos) == Ok(Parsed(Conditional(c, t, None), q2))
    ensures IsKeyword(toks, q2, Else) ==>
            var e := Expression(toks, prec, q2 + 1);
            IfStatement(toks, prec, pos) ==
            if e.Ok? then Ok(Parsed(Conditional(c, t, Some(e.value.value)), e.value.next)) else Err(e.error)
  {
  }

  /** Any `if` whose condition is followed by neither `then` nor a block fails for the missing `then`. */
  lemma IfMissingThen(toks: seq<Token>, prec: Prec, pos: nat, c: Node, q: nat)
    requires IsKeyword(toks, pos, If) && Expression(toks, prec, pos + 1) == Ok(Parsed(c, q))
    requires !IsPunct(toks, q, BlockOpen) && !IsKeyword(toks, q, Then)
    ensures IfStatement(toks, prec, pos) == Err(NoKeyword(Then))
  {
  }

  /** `if c then x else y`: all three parts, the else branch present. */
  lemma IfThenElse(prec: Prec, c: string, x: string, y: string)
    ensures var toks := [KeywordTok(If), VarTok(c), KeywordTok(Then), VarTok(x), KeywordTok(Else), VarTok(y)];
            IfStatement(toks, prec, 0) == Ok(Parsed(Conditional(Var(c), Var(x), Some(Var(y))), 6))
  {
    var toks := [KeywordTok(If), VarTok(c), KeywordTok(Then), VarTok(x), KeywordTok(Else), VarTok(y)];
    LoneLeaf(toks, prec, 1);
    LoneLeaf(toks, prec, 3);
    LoneLeaf(toks, prec, 5);
  }

  /** `if c then x` with nothing after: no else branch. */
  lemma IfThenWithoutElse(prec: Prec, c: string, x: string)
    ensures var toks := [KeywordTok(If), VarTok(c), KeywordTok(Then), VarTok(x)];
            IfStatement(toks, prec, 0) == Ok(Parsed(Conditional(Var(c), Var(x), None), 4))
  {
    var toks := [KeywordTok(If), VarTok(c), KeywordTok(Then), VarTok(x)];
    LoneLeaf(toks, prec, 1);
    LoneLeaf(toks, prec, 3);
  }

  /** `if c x`: the `then` keyword is required when the then-part is not a block. */
  lemma IfRequiresThen(prec: Prec, c: string, x: string)
    ensures IfStatement([KeywordTok(If), VarTok(c), VarTok(x)], prec, 0) == Err(NoKeyword(Then))
  {
    LoneLeaf([KeywordTok(If), VarTok(c), VarTok(x)], prec, 1);
  }

  /** `if c { x }`: a block then-part needs no `then`. */
  lemma IfBlockWithoutThen(prec: Prec, c: string, x: string)
    ensures var toks := [KeywordTok(If), VarTok(c), PunctTok(BlockOpen), VarTok(x), PunctTok(BlockClose)];
            IfStatement(toks, prec, 0) == Ok(Parsed(Conditional(Var(c), Var(x), None), 5))
  {
    var toks := [KeywordTok(If), VarTok(c), PunctTok(BlockOpen), VarTok(x), PunctTok(BlockClose)];
    LoneLeaf(toks, prec, 1);
    BlockShape(toks[..2], [x], false, [], prec);
    assert toks[..2] + ([PunctTok(BlockOpen)] + Listed([x], BlockClose, EndExpr, true, false, true)) + [] == toks;
    assert Block(toks, prec, 2) == Ok(Parsed(Var(x), 5));
    assert AtomCore(toks, prec, 2) == Ok(Parsed(Var(x), 5));
    assert Expression(toks, prec, 2) == Ok(Parsed(Var(x), 5));
  }

  // ---------------------------------------------------------------------
  // let, function literals and calls
  // ---------------------------------------------------------------------

  /**
   * A `let` with a name after the keyword is a call of a function of that
   * name, with as many parameters as arguments; without a name it is a
   * `let` node.
   */
  lemma LetShape(toks: seq<Token>, prec: Prec, pos: nat)
    requires pos <= |toks| && LetExpr(toks, prec, pos).Ok?
    ensures var n := LetExpr(toks, prec, pos).value.value;
            if pos + 1 < |toks| && toks[pos + 1].VarTok? then
              var d := Delimited(toks, prec, pos + 2, ExprOpen, ExprClose, Delimiter, BindingKind);
              d.Ok? &&
              var bs := Bindings(d.value.value);
              n.Call? && n.func.Function? && n.func.fname == Some(toks[pos + 1].name) &&
              |n.func.params| == |bs| == |n.args| &&
              (forall i | 0 <= i < |bs| :: n.func.params[i] == bs[i].name) &&
              (forall i | 0 <= i < |bs| :: n.args[i] == if bs[i].def.Some? then bs[i].def.value else Bool(false))
            else
              var d := Delimited(toks, prec, pos + 1, ExprOpen, ExprClose, Delimiter, BindingKind);
              d.Ok? && n.Declaration? && n.bindings == Bindings(d.value.value)
  {
  }

  /** `let f (x = 1, y) x` is the call of function `f (x, y) x` on `1` and `false`. */
  lemma NamedLetDesugars(prec: Prec, f: string, x: string, y: string)
    ensures var toks := [KeywordTok(Let), VarTok(f), PunctTok(ExprOpen), VarTok(x), OpTok("="), IntTok(1),
                         PunctTok(Delimiter), VarTok(y), PunctTok(ExprClose), VarTok(x)];
            LetExpr(toks, prec, 0) == Ok(Parsed(Call(Function(Some(f), [x, y], Var(x)), [Int(1), Bool(false)]), 10))
  {
    var toks := [KeywordTok(Let), VarTok(f), PunctTok(ExprOpen), VarTok(x), OpTok("="), IntTok(1),
                 PunctTok(Delimiter), VarTok(y), PunctTok(ExprClose), VarTok(x)];
    var b1 := Binding(x, Some(Int(1)));
    var b2 := Binding(y, None);
    LoneLeaf(toks, prec, 9);
    TwoBindings(toks, prec, f, x, y);
    var bs := Bindings([BindingItem(b1), BindingItem(b2)]);
    assert bs == [b1, b2];
    assert seq(|bs|, i requires 0 <= i < |bs| => bs[i].name) == [x, y];
    assert Definitions(bs) == [Int(1), Bool(false)];
  }

  /** The bindings `(x = 1, y)` at position 2: one with a definition and one without. */
  lemma TwoBindings(toks: seq<Token>, prec: Prec, f: string, x: string, y: string)
    requires toks == [KeywordTok(Let), VarTok(f), PunctTok(ExprOpen), VarTok(x), OpTok("="), IntTok(1),
                      PunctTok(Delimiter), VarTok(y), PunctTok(ExprClose), VarTok(x)]
    ensures Delimited(toks, prec, 2, ExprOpen, ExprClose, Delimiter, BindingKind)
            == Ok(Parsed([BindingItem(Binding(x, Some(Int(1)))), BindingItem(Binding(y, None))], 9))
  {
    var b1 := Binding(x, Some(Int(1)));
    var b2 := Binding(y, None);
    LoneLeaf(toks, prec, 5);
    assert NamedLet(toks, prec, 3) == Ok(Parsed(b1, 6));
    assert NamedLet(toks, prec, 7) == Ok(Parsed(b2, 8));
    assert DelimitedLoop(toks, prec, 8, ExprClose, Delimiter, BindingKind, false, [BindingItem(b1), BindingItem(b2)])
        == Ok(Parsed([BindingItem(b1), BindingItem(b2)], 9));
    DelimitedPass(toks, prec, 6, ExprClose, Delimiter, BindingKind, false, [BindingItem(b1)], BindingItem(b2), 8);
    DelimitedPass(toks, prec, 3, ExprClose, Delimiter, BindingKind, true, [], BindingItem(b1), 6);
    assert [] + [BindingItem(b1)] == [BindingItem(b1)];
    assert [BindingItem(b1)] + [BindingItem(b2)] == [BindingItem(b1), BindingItem(b2)];
    DelimitedOpens(toks, prec, 2, ExprOpen, ExprClose, Delimiter, BindingKind);
  }

  /** `let (x) x` is a `let` node binding `x` with no definition. */
  lemma UnnamedLetDeclares(prec: Prec, x: string)
    ensures var toks := [KeywordTok(Let), PunctTok(ExprOpen), VarTok(x), PunctTok(ExprClose), VarTok(x)];
            LetExpr(toks, prec, 0) == Ok(Parsed(Declaration([Binding(x, None)], Var(x)), 5))
  {
    var toks := [KeywordTok(Let), PunctTok(ExprOpen), VarTok(x), PunctTok(ExprClose), VarTok(x)];
    var b := Binding(x, None);
    LoneLeaf(toks, prec, 4);
    assert NamedLet(toks, prec, 2) == Ok(Parsed(b, 3));
    assert DelimitedLoop(toks, prec, 3, ExprClose, Delimiter, BindingKind, false, [BindingItem(b)])
        == Ok(Parsed([BindingItem(b)], 4));
    DelimitedPass(toks, prec, 2, ExprClose, Delimiter, BindingKind, true, [], BindingItem(b), 3);
    assert [] + [BindingItem(b)] == [BindingItem(b)];
    assert Bindings([BindingItem(b)]) == [b];
  }

  /**
   * A `let` binding is the variable token's name, with a definition exactly
   * when `=` follows it, that definition being the expression after the `=`.
   */
  lemma NamedLetParts(toks: seq<Token>, prec: Prec, pos: nat)
    requires pos <= |toks|
    ensures var r := NamedLet(toks, prec, pos);
            !(pos < |toks| && toks[pos].VarTok?) ==> r == Err(if pos < |toks| then NoVarName else EndOfInput)
    ensures var r := NamedLet(toks, prec, pos);
            pos < |toks| && toks[pos].VarTok? && !IsOperator(toks, pos + 1, "=") ==>
              r == Ok(Parsed(Binding(toks[pos].name, None), pos + 1))
    ensures var r := NamedLet(toks, prec, pos);
            pos < |toks| && toks[pos].VarTok? && IsOperator(toks, pos + 1, "=") ==>
              var d := Expression(toks, prec, pos + 2);
              && (r.Ok? <==> d.Ok?)
              && (d.Ok? ==> r.value == Parsed(Binding(toks[pos].name, Some(d.value.value)), d.value.next))
              && (d.Err? ==> r.error == d.error)
  {
  }

  /** A function literal is named by the variable token after the keyword, and unnamed without one. */
  lemma ResolverName(toks: seq<Token>, prec: Prec, pos: nat)
    requires pos <= |toks| && Resolver(toks, prec, pos).Ok?
    ensures Resolver(toks, prec, pos).value.value.fname == if toks[pos].VarTok? then Some(toks[pos].name) else None
  {
  }

  /** `fn f (x, y) x` and `ε (x) x`: the parameters in order and the optional name. */
  lemma FunctionLiteral(prec: Prec, named: bool, f: string, x: string, y: string)
    ensures var name := if named then [VarTok(f)] else [];
            var toks := [KeywordTok(Fn)] + name + [PunctTok(ExprOpen), VarTok(x), PunctTok(Delimiter), VarTok(y),
                                                   PunctTok(ExprClose), VarTok(x)];
            AtomCore(toks, prec, 0) == Ok(Parsed(Function(if named then Some(f) else None, [x, y], Var(x)), |toks|))
  {
    var name := if named then [VarTok(f)] else [];
    var toks := [KeywordTok(Fn)] + name + [PunctTok(ExprOpen), VarTok(x), PunctTok(Delimiter), VarTok(y),
                                           PunctTok(ExprClose), VarTok(x)];
    var pre := [KeywordTok(Fn)] + name;
    ListedTwo(x, y, ExprClose, Delimiter);
    var list := [PunctTok(ExprOpen)] + Listed([x, y], ExprClose, Delimiter, true, false, true);
    assert list == [PunctTok(ExprOpen), VarTok(x), PunctTok(Delimiter), VarTok(y), PunctTok(ExprClose)];
    DelimitedNames(pre, [x, y], ExprOpen, ExprClose, Delimiter, NameKind, false, [VarTok(x)], prec);
    assert pre + list + [VarTok(x)] == toks;
    LoneLeaf(toks, prec, |toks| - 1);
    assert Names(VarItems(NameKind, [x, y])) == [x, y];
    assert toks[1] == if named then VarTok(f) else PunctTok(ExprOpen);
    assert |pre| == if named then 2 else 1;
    assert Delimited(toks, prec, |pre|, ExprOpen, ExprClose, Delimiter, NameKind) == Ok(Parsed(VarItems(NameKind, [x, y]), |toks| - 1));
    assert Resolver(toks, prec, 1) == Ok(Parsed(Function(if named then Some(f) else None, [x, y], Var(x)), |toks|));
  }

  /**
   * A call on a written-out list of variables, wherever it stands: the call of
   * the function on those variables in order, ending after the closing parenthesis.
   */
  lemma CallOfVariables(pre: seq<Token>, func: Node, names: seq<string>, trailing: bool, rest: seq<Token>, prec: Prec)
    ensures var list := [PunctTok(ExprOpen)] + Listed(names, ExprClose, Delimiter, true, trailing, true);
            CallArgs(pre + list + rest, prec, func, |pre|) == Ok(Parsed(Call(func, Vars(names)), |pre| + |list|))
  {
    DelimitedNames(pre, names, ExprOpen, ExprClose, Delimiter, ExprKind, trailing, rest, prec);
    assert Exprs(VarItems(ExprKind, names)) == Vars(names);
  }

  /** `f(x, y)`: a call of the atom on the parenthesised arguments. */
  lemma CallOfArguments(prec: Prec, f: string, x: string, y: string)
    ensures var toks := [VarTok(f), PunctTok(ExprOpen), VarTok(x), PunctTok(Delimiter), VarTok(y), PunctTok(ExprClose)];
            Expression(toks, prec, 0) == Ok(Parsed(Call(Var(f), [Var(x), Var(y)]), 6))
  {
    var toks := [VarTok(f), PunctTok(ExprOpen), VarTok(x), PunctTok(Delimiter), VarTok(y), PunctTok(ExprClose)];
    ListedTwo(x, y, ExprClose, Delimiter);
    assert [PunctTok(ExprOpen)] + Listed([x, y], ExprClose, Delimiter, true, false, true) == toks[1..];
    DelimitedNames([VarTok(f)], [x, y], ExprOpen, ExprClose, Delimiter, ExprKind, false, [], prec);
    assert [VarTok(f)] + toks[1..] + [] == toks;
    assert Exprs(VarItems(ExprKind, [x, y])) == [Var(x), Var(y)];
    assert AtomCore(toks, prec, 0) == Ok(Parsed(Var(f), 1));
    assert Atom(toks, prec, 0) == Ok(Parsed(Call(Var(f), [Var(x), Var(y)]), 6));
  }

  // ---------------------------------------------------------------------
  // Atoms
  // ---------------------------------------------------------------------

  /** Tokens that start no atom: closing and separating punctuators, `then`, `else`, operators other than `!`. */
  predicate StartsNoAtom(t: Token) {
    (t.PunctTok? && t.p != ExprOpen && t.p != BlockOpen) ||
    (t.KeywordTok? && (t.k == Then || t.k == Else)) ||
    (t.OpTok? && t.op != "!")
  }

  /** A token that starts no atom raises the unexpected-token error, carrying the token after it. */
  lemma UnexpectedAtom(toks: seq<Token>, prec: Prec, pos: nat)
    requires pos < |toks| && StartsNoAtom(toks[pos])
    ensures AtomCore(toks, prec, pos) == Err(UnexpectedToken(PeekAt(toks, pos + 1)))
    ensures Expression(toks, prec, pos) == Err(UnexpectedToken(PeekAt(toks, pos + 1)))
  {
    assert !IsPunct(toks, pos, ExprOpen) && !IsPunct(toks, pos, BlockOpen) && !IsOperator(toks, pos, "!");
    assert !IsKeyword(toks, pos, Let) && !IsKeyword(toks, pos, If) && !IsKeyword(toks, pos, True);
    assert !IsKeyword(toks, pos, False) && !IsKeyword(toks, pos, Fn) && !IsKeyword(toks, pos, Lambda);
    assert AtomCore(toks, prec, pos) == Err(UnexpectedToken(PeekAt(toks, pos + 1)));
    assert Atom(toks, prec, pos) == Err(UnexpectedToken(PeekAt(toks, pos + 1)));
  }

  /** An expression cannot start at the end of the input. */
  lemma AtomAtEnd(toks: seq<Token>, prec: Prec)
    ensures Expression(toks, prec, |toks|) == Err(EndOfInput)
  {
    assert AtomCore(toks, prec, |toks|) == Err(EndOfInput);
  }

  /** A parenthesised expression is the expression itself, and requires the closing parenthesis. */
  lemma Parenthesised(toks: seq<Token>, prec: Prec, pos: nat, e: Node, next: nat)
    requires pos < |toks| && toks[pos] == PunctTok(ExprOpen) && Expression(toks, prec, pos + 1) == Ok(Parsed(e, next))
    ensures AtomCore(toks, prec, pos) ==
            if IsPunct(toks, next, ExprClose) then Ok(Parsed(e, next + 1)) else Err(NoPunctuator(ExprClose))
  {
  }

  /** `! a op b` negates the whole binary expression: `!` binds looser than every binary operator. */
  lemma NegationTakesExpression(prec: Prec, a: string, op: string, b: string)
    requires prec(op).Some? && prec(op).value > 0
    ensures var toks := [OpTok("!"), VarTok(a), OpTok(op), VarTok(b)];
            Expression(toks, prec, 0) == Ok(Parsed(Negation(OperatorNode(op, Var(a), Var(b))), 4))
  {
    var toks := [OpTok("!"), VarTok(a), OpTok(op), VarTok(b)];
    var p := prec(op).value;
    var ab := OperatorNode(op, Var(a), Var(b));
    assert Atom(toks, prec, 1) == Ok(Parsed(Var(a), 2)) by { LoneLeaf(toks, prec, 1); }
    assert Atom(toks, prec, 3) == Ok(Parsed(Var(b), 4)) by { LoneLeaf(toks, prec, 3); }
    assert BinaryTail(toks, prec, Var(b), p, 4) == Ok(Parsed(Var(b), 4));
    assert BinaryTail(toks, prec, ab, 0, 4) == Ok(Parsed(ab, 4));
    assert BinaryTail(toks, prec, Var(a), 0, 2) == Ok(Parsed(ab, 4));
    assert Expression(toks, prec, 1) == Ok(Parsed(ab, 4));
    assert AtomCore(toks, prec, 0) == Ok(Parsed(Negation(ab), 4));
    assert BinaryTail(toks, prec, Negation(ab), 0, 4) == Ok(Parsed(Negation(ab), 4));
  }

  // ---------------------------------------------------------------------
  // The program
  // ---------------------------------------------------------------------

  /** Top-level expressions must be separated by `;`: anything else after one is an error. */
  lemma RootNeedsSeparator(toks: seq<Token>, prec: Prec, e: Node, next: nat)
    requires Expression(toks, prec, 0) == Ok(Parsed(e, next)) && next < |toks| && toks[next] != PunctTok(EndExpr)
    ensures Program(toks, prec) == Err(NoPunctuator(EndExpr))
  {
  }

  /** `a ; b` is the sequence of both, and `a ;` (a trailing separator) the sequence of one. */
  lemma RootSequence(prec: Prec, a: string, b: string)
    ensures Program([VarTok(a), PunctTok(EndExpr), VarTok(b)], prec) == Ok(Sequence([Var(a), Var(b)]))
    ensures Program([VarTok(a), PunctTok(EndExpr)], prec) == Ok(Sequence([Var(a)]))
  {
    var toks := [VarTok(a), PunctTok(EndExpr), VarTok(b)];
    LoneLeaf(toks, prec, 0);
    LoneLeaf(toks, prec, 2);
    assert [] + [Var(a)] == [Var(a)] && [Var(a)] + [Var(b)] == [Var(a), Var(b)];
    assert RootLoop(toks, prec, 2, [Var(a)]) == Ok(Sequence([Var(a), Var(b)]));
    assert RootLoop(toks, prec, 0, []) == RootLoop(toks, prec, 2, [Var(a)]);
    var toks2 := [VarTok(a), PunctTok(EndExpr)];
    LoneLeaf(toks2, prec, 0);
    assert RootLoop(toks2, prec, 2, [Var(a)]) == Ok(Sequence([Var(a)]));
    assert RootLoop(toks2, prec, 0, []) == RootLoop(toks2, prec, 2, [Var(a)]);
  }
}
