/**
 * The CPS transformer (`CpsTransformer` and its `cps*` helpers): a rewrite of
 * a syntax tree into continuation-passing style, driven by a meta-level
 * continuation `k` that says what to build around the value of the node.
 *
 * Fresh names come from a global counter that every allocation increments
 * before use.  Because continuations may themselves transform nodes (and so
 * allocate names), the counter is threaded through them: a continuation maps
 * a node and the current counter to the node it builds and the new counter.
 */
module CpsTransformer {
  import opened Wrappers
  import opened Ast
  import opened Decimal

  /** A meta-level continuation, threading the name counter. */
  type Cont = (Node, nat) -> (Node, nat)

  /**
   * What the transformer takes from outside this model: the prefix every
   * generated name starts with, and the test that decides whether a
   * non-final element of a sequence is kept (the `computePurity` module).
   */
  datatype Config = Config(mark: string, isKept: Node -> bool)

  // ---------------------------------------------------------------------
  // Fresh names
  // ---------------------------------------------------------------------

  /** The name with counter value `n`: the mark, the prefix, then the number. */
  function Symbol(mark: string, prefix: string, n: nat): (s: string)
    ensures IsSymbol(mark, s)
  {
    mark + prefix + Digits(n)
  }

  /** Names the transformer generates are exactly those that start with the mark and go on. */
  predicate IsSymbol(mark: string, s: string) {
    |s| > |mark| && s[..|mark|] == mark
  }

  /**
   * `computeNewSymbol(prefix)` on counter value `n`: the counter is
   * incremented first, and the name carries its new value.
   */
  function NewSymbol(mark: string, prefix: string, n: nat): (r: (string, nat))
    ensures r.1 > n && IsSymbol(mark, r.0)
  {
    (Symbol(mark, prefix, n + 1), n + 1)
  }

  /**
   * Two names built from one-letter prefixes that are not digits ("K", "R",
   * "I") coincide only if both prefix and counter value coincide.  With a
   * counter that only grows, no name is generated twice.
   */
  lemma SymbolInjective(mark: string, p: string, q: string, n: nat, m: nat)
    requires |p| == 1 && |q| == 1 && !IsDigit(p[0]) && !IsDigit(q[0])
    ensures Symbol(mark, p, n) == Symbol(mark, q, m) ==> p == q && n == m
  {
    var s, t := Symbol(mark, p, n), Symbol(mark, q, m);
    if s == t {
      assert s[|mark|] == p[0] && t[|mark|] == q[0];
      assert s[|mark| + 1..] == Digits(n) && t[|mark| + 1..] == Digits(m);
      DigitsInjective(n, m);
    }
  }

  /** The global counter `SYNTHETIC_STACK_CTRL` with `computeNewSymbol`, as state. */
  class SymbolGenerator {
    const mark: string
    var counter: nat

    constructor (mark: string)
      ensures this.mark == mark && counter == 0
    {
      this.mark := mark;
      counter := 0;
    }

    method Fresh(prefix: string) returns (name: string)
      modifies this
      ensures counter == old(counter) + 1
      ensures (name, counter) == NewSymbol(mark, prefix, old(counter))
    {
      counter := counter + 1;
      name := mark + prefix + Digits(counter);
    }

    /**
     * `CpsTransformer(expr, k)`: `cps` on the global counter, which it leaves
     * past every name the transformation allocated.  With a well-behaved `k`
     * the counter never moves back and the output is shaped.
     */
    method Transform(isKept: Node -> bool, e: Node, k: Cont) returns (out: Node)
      modifies this
      ensures (out, counter) == Cps(Config(mark, isKept), e, k, old(counter))
      ensures WellBehaved(mark, k) ==> counter >= old(counter) && Shaped(mark, out)
    {
      var cfg := Config(mark, isKept);
      if WellBehaved(mark, k) {
        CpsWellFormed(cfg, e, k, counter);
      }
      var r := Cps(cfg, e, k, counter);
      out := r.0;
      counter := r.1;
    }
  }

  // ---------------------------------------------------------------------
  // The transformer
  // ---------------------------------------------------------------------

  /**
   * `computeContinuation(k)`: reify `k` as a one-parameter function of a
   * fresh "R" name whose body is what `k` builds around that name.
   */
  function Continuation(mark: string, k: Cont, n: nat): (r: (Node, nat))
    ensures r.0.Function? && r.0.fname.None? && |r.0.params| == 1
    ensures r.0.params[0] == Symbol(mark, "R", n + 1)
    ensures r.0.body == k(Var(r.0.params[0]), n + 1).0 && r.1 == k(Var(r.0.params[0]), n + 1).1
  {
    var (sym, n1) := NewSymbol(mark, "R", n);
    var (body, n2) := k(Var(sym), n1);
    (Function(None, [sym], body), n2)
  }

  /** The `false` node that stands in for a missing `else` or a missing `let` definition. */
  function OrFalse(o: Option<Node>): (e: Node)
    ensures Size(e) == OptionSize(o)
  {
    if o.Some? then o.value else Bool(false)
  }

  /**
   * A `let` with at least one binding, as `cpsNamedLet` rewrites it: a call
   * of a one-parameter function of the first name, applied to the first
   * definition, whose body is the `let` of the remaining bindings.
   */
  function LetStep(e: Node): (r: Node)
    requires e.Declaration? && |e.bindings| > 0
    ensures r.Call? && |r.args| == 1 && r.func.Function? && r.func.params == [e.bindings[0].name]
    ensures Size(r) < Size(e)
  {
    var b := e.bindings[0];
    var d := OrFalse(b.def);
    assert SizeAll([d]) == Size(d) + SizeAll([d][1..]);
    assert BindingsSize(e.bindings) == 4 + OptionSize(b.def) + BindingsSize(e.bindings[1..]);
    var rest := Declaration(e.bindings[1..], e.body);
    assert Size(rest) == 1 + Size(e.body) + BindingsSize(e.bindings[1..]);
    assert Size(Function(None, [b.name], rest)) == 1 + Size(rest);
    Call(Function(None, [b.name], rest), [d])
  }

  /** `cps(expr, k)`, with the counter value before and after. */
  function Cps(cfg: Config, e: Node, k: Cont, n: nat): (Node, nat)
    decreases Size(e), 2, 0
  {
    match e
    case Int(_) => k(e, n)
    case Str(_) => k(e, n)
    case Bool(_) => k(e, n)
    case Var(_) => k(e, n)
    case Negation(body) => Cps(cfg, body, NegationK(k), n)
    case Assign(_, left, _) => Cps(cfg, left, BinaryLeftK(cfg, e, k), n)
    case Binary(_, left, _) => Cps(cfg, left, BinaryLeftK(cfg, e, k), n)
    case Declaration(bindings, body) =>
      if |bindings| == 0 then Cps(cfg, body, k, n) else Cps(cfg, LetStep(e), k, n)
    case Function(fname, params, body) =>
      var (ret, n1) := NewSymbol(cfg.mark, "K", n);
      var (body', n2) := Cps(cfg, body, ReturnK(ret), n1);
      k(Function(fname, [ret] + params, body'), n2)
    case Conditional(cond, _, _) => Cps(cfg, cond, ConditionalK(cfg, e, k), n)
    case Sequence(items) => CpsSequence(cfg, items, k, n)
    case Call(func, _) => Cps(cfg, func, CallFuncK(cfg, e, k), n)
  }

  /** `cpsNegation`'s continuation: rebuild the negation around the transformed body. */
  function NegationK(k: Cont): Cont {
    (body, m) => k(Negation(body), m)
  }

  /** The operator node `e` rebuilt around transformed operands, same type and operator. */
  function Rebuild(e: Node, left: Node, right: Node): (r: Node)
    requires e.Assign? || e.Binary?
    ensures r.Assign? == e.Assign? && r.Binary? == e.Binary? && r.op == e.op
    ensures r.left == left && r.right == right
  {
    if e.Assign? then Assign(e.op, left, right) else Binary(e.op, left, right)
  }

  /** `cpsBinary`, first continuation: transform the right operand once the left one is done. */
  function BinaryLeftK(cfg: Config, e: Node, k: Cont): Cont
    requires e.Assign? || e.Binary?
    decreases Size(e), 1, 0
  {
    (left, m) => Cps(cfg, e.right, BinaryRightK(e, left, k), m)
  }

  function BinaryRightK(e: Node, left: Node, k: Cont): Cont
    requires e.Assign? || e.Binary?
  {
    (right, m) => k(Rebuild(e, left, right), m)
  }

  /** `cpsResolver`'s continuation: return the body's value by calling the "K" parameter. */
  function ReturnK(ret: string): Cont {
    (body, m) => (Call(Var(ret), [body]), m)
  }

  /**
   * `cpsConditional`'s continuation, run on the transformed condition: both
   * branches end in a call of a fresh "I" parameter, which is bound to the
   * reified original continuation.
   */
  function ConditionalK(cfg: Config, e: Node, k: Cont): Cont
    requires e.Conditional?
    decreases Size(e), 1, 0
  {
    (cond, m) =>
      var (ivar, m1) := NewSymbol(cfg.mark, "I", m);
      var (cast, m2) := Continuation(cfg.mark, k, m1);
      var (conseq, m3) := Cps(cfg, e.conseq, ReturnK(ivar), m2);
      var (alt, m4) := Cps(cfg, OrFalse(e.alt), ReturnK(ivar), m3);
      (Call(Function(None, [ivar], Conditional(cond, conseq, Some(alt))), [cast]), m4)
  }

  /** `cpsSequence`'s `loop`. */
  function CpsSequence(cfg: Config, items: seq<Node>, k: Cont, n: nat): (Node, nat)
    decreases SizeAll(items), 3, 0
  {
    if |items| == 0 then k(Bool(false), n)
    else if |items| == 1 then Cps(cfg, items[0], k, n)
    else if !cfg.isKept(items[0]) then CpsSequence(cfg, items[1..], k, n)
    else Cps(cfg, items[0], SequenceK(cfg, items[1..], k), n)
  }

  /** The continuation of a kept element: keep its transformed form too if it is still kept. */
  function SequenceK(cfg: Config, rest: seq<Node>, k: Cont): Cont
    decreases SizeAll(rest), 4, 0
  {
    (first, m) =>
      if cfg.isKept(first) then
        var (tail, m1) := CpsSequence(cfg, rest, k, m);
        (Sequence([first, tail]), m1)
      else
        CpsSequence(cfg, rest, k, m)
  }

  /** `cpsCall`'s continuation on the transformed function: reify `k`, then the argument loop. */
  function CallFuncK(cfg: Config, e: Node, k: Cont): Cont
    requires e.Call?
    decreases Size(e), 1, 2 * |e.args| + 2
  {
    (func, m) =>
      var (cc, m1) := Continuation(cfg.mark, k, m);
      CallArguments(cfg, e, func, [cc], 0, m1)
  }

  /** `cpsCall`'s `loop(args, i)`: `acc` holds the continuation and the first `i` transformed arguments. */
  function CallArguments(cfg: Config, e: Node, func: Node, acc: seq<Node>, i: nat, m: nat): (Node, nat)
    requires e.Call? && i <= |e.args|
    decreases Size(e), 1, 2 * (|e.args| - i) + 1
  {
    if i == |e.args| then (Call(func, acc), m)
    else
      SizeAllElement(e.args, i);
      Cps(cfg, e.args[i], CallArgK(cfg, e, func, acc, i), m)
  }

  function CallArgK(cfg: Config, e: Node, func: Node, acc: seq<Node>, i: nat): Cont
    requires e.Call? && i < |e.args|
    decreases Size(e), 1, 2 * (|e.args| - i)
  {
    (value, m) => CallArguments(cfg, e, func, acc + [value], i + 1, m)
  }

  // ---------------------------------------------------------------------
  // The shape of the output
  // ---------------------------------------------------------------------

  /**
   * What every transformed tree looks like: no `let` is left; every function
   * takes at least one parameter, the first a generated name (its
   * continuation); every call passes at least one argument and either calls a
   * generated name (a continuation) or passes a reified continuation first;
   * every conditional has an `else`.
   */
  predicate Shaped(mark: string, x: Node)
    decreases x
  {
    match x
    case Int(_) => true
    case Str(_) => true
    case Bool(_) => true
    case Var(_) => true
    case Assign(_, l, r) => Shaped(mark, l) && Shaped(mark, r)
    case Binary(_, l, r) => Shaped(mark, l) && Shaped(mark, r)
    case Negation(b) => Shaped(mark, b)
    case Sequence(items) => forall i | 0 <= i < |items| :: Shaped(mark, items[i])
    case Call(f, args) =>
      |args| >= 1 && (args[0].Function? || (f.Var? && IsSymbol(mark, f.name))) &&
      Shaped(mark, f) && forall i | 0 <= i < |args| :: Shaped(mark, args[i])
    case Function(_, params, b) => |params| >= 1 && IsSymbol(mark, params[0]) && Shaped(mark, b)
    case Conditional(c, t, alt) => alt.Some? && Shaped(mark, c) && Shaped(mark, t) && Shaped(mark, alt.value)
    case Declaration(_, _) => false
  }

  /** A continuation that, on a shaped node, builds a shaped tree and never moves the counter back. */
  ghost predicate WellBehaved(mark: string, k: Cont) {
    forall x, m :: Shaped(mark, x) ==> k(x, m).1 >= m && Shaped(mark, k(x, m).0)
  }

  /**
   * Given a well-behaved continuation, the transformation of any tree (with
   * any `let`s in it) is shaped, and the counter never moves back.
   */
  lemma {:induction false} CpsWellFormed(cfg: Config, e: Node, k: Cont, n: nat)
    requires WellBehaved(cfg.mark, k)
    ensures Cps(cfg, e, k, n).1 >= n && Shaped(cfg.mark, Cps(cfg, e, k, n).0)
    decreases Size(e), 2, 0
  {
    match e
    case Int(_) =>
    case Str(_) =>
    case Bool(_) =>
    case Var(_) =>
    case Negation(body) =>
      NegationKWellBehaved(cfg.mark, k);
      CpsWellFormed(cfg, body, NegationK(k), n);
    case Assign(_, left, _) =>
      BinaryLeftKWellBehaved(cfg, e, k);
      CpsWellFormed(cfg, left, BinaryLeftK(cfg, e, k), n);
    case Binary(_, left, _) =>
      BinaryLeftKWellBehaved(cfg, e, k);
      CpsWellFormed(cfg, left, BinaryLeftK(cfg, e, k), n);
    case Declaration(bindings, body) =>
      if |bindings| == 0 {
        CpsWellFormed(cfg, body, k, n);
      } else {
        CpsWellFormed(cfg, LetStep(e), k, n);
      }
    case Function(fname, params, body) =>
      var (ret, n1) := NewSymbol(cfg.mark, "K", n);
      ReturnKWellBehaved(cfg.mark, ret);
      CpsWellFormed(cfg, body, ReturnK(ret), n1);
    case Conditional(cond, _, _) =>
      ConditionalKWellBehaved(cfg, e, k);
      CpsWellFormed(cfg, cond, ConditionalK(cfg, e, k), n);
    case Sequence(items) =>
      SequenceWellFormed(cfg, items, k, n);
    case Call(func, _) =>
      CallFuncKWellBehaved(cfg, e, k);
      CpsWellFormed(cfg, func, CallFuncK(cfg, e, k), n);
  }

  lemma NegationKWellBehaved(mark: string, k: Cont)
    requires WellBehaved(mark, k)
    ensures WellBehaved(mark, NegationK(k))
  {
    forall x, m | Shaped(mark, x) ensures NegationK(k)(x, m).1 >= m && Shaped(mark, NegationK(k)(x, m).0) {
      assert NegationK(k)(x, m) == k(Negation(x), m);
    }
  }

  lemma ReturnKWellBehaved(mark: string, ret: string)
    requires IsSymbol(mark, ret)
    ensures WellBehaved(mark, ReturnK(ret))
  {
    forall x, m | Shaped(mark, x) ensures ReturnK(ret)(x, m).1 >= m && Shaped(mark, ReturnK(ret)(x, m).0) {
      assert ReturnK(ret)(x, m) == (Call(Var(ret), [x]), m);
    }
  }

  lemma ContinuationShaped(mark: string, k: Cont, n: nat)
    requires WellBehaved(mark, k)
    ensures Continuation(mark, k, n).1 >= n && Shaped(mark, Continuation(mark, k, n).0)
  {
    var sym := Symbol(mark, "R", n + 1);
    assert Shaped(mark, Var(sym));
  }

  lemma {:induction false} BinaryLeftKWellBehaved(cfg: Config, e: Node, k: Cont)
    requires e.Assign? || e.Binary?
    requires WellBehaved(cfg.mark, k)
    ensures WellBehaved(cfg.mark, BinaryLeftK(cfg, e, k))
    decreases Size(e), 1, 0
  {
    forall x, m | Shaped(cfg.mark, x)
      ensures BinaryLeftK(cfg, e, k)(x, m).1 >= m && Shaped(cfg.mark, BinaryLeftK(cfg, e, k)(x, m).0)
    {
      var kr := BinaryRightK(e, x, k);
      forall y, j | Shaped(cfg.mark, y) ensures kr(y, j).1 >= j && Shaped(cfg.mark, kr(y, j).0) {
        assert kr(y, j) == k(Rebuild(e, x, y), j);
      }
      CpsWellFormed(cfg, e.right, kr, m);
    }
  }

  lemma {:induction false} ConditionalKWellBehaved(cfg: Config, e: Node, k: Cont)
    requires e.Conditional?
    requires WellBehaved(cfg.mark, k)
    ensures WellBehaved(cfg.mark, ConditionalK(cfg, e, k))
    decreases Size(e), 1, 0
  {
    forall c, m | Shaped(cfg.mark, c)
      ensures ConditionalK(cfg, e, k)(c, m).1 >= m && Shaped(cfg.mark, ConditionalK(cfg, e, k)(c, m).0)
    {
      var (ivar, m1) := NewSymbol(cfg.mark, "I", m);
      var (cast, m2) := Continuation(cfg.mark, k, m1);
      ContinuationShaped(cfg.mark, k, m1);
      ReturnKWellBehaved(cfg.mark, ivar);
      var (conseq, m3) := Cps(cfg, e.conseq, ReturnK(ivar), m2);
      CpsWellFormed(cfg, e.conseq, ReturnK(ivar), m2);
      var (alt, m4) := Cps(cfg, OrFalse(e.alt), ReturnK(ivar), m3);
      CpsWellFormed(cfg, OrFalse(e.alt), ReturnK(ivar), m3);
      assert ConditionalK(cfg, e, k)(c, m) == (Call(Function(None, [ivar], Conditional(c, conseq, Some(alt))), [cast]), m4);
    }
  }

  lemma {:induction false} SequenceWellFormed(cfg: Config, items: seq<Node>, k: Cont, n: nat)
    requires WellBehaved(cfg.mark, k)
    ensures CpsSequence(cfg, items, k, n).1 >= n && Shaped(cfg.mark, CpsSequence(cfg, items, k, n).0)
    decreases SizeAll(items), 3, 0
  {
    if |items| == 0 {
      assert Shaped(cfg.mark, Bool(false));
    } else if |items| == 1 {
      CpsWellFormed(cfg, items[0], k, n);
    } else if !cfg.isKept(items[0]) {
      SequenceWellFormed(cfg, items[1..], k, n);
    } else {
      SequenceKWellBehaved(cfg, items[1..], k);
      CpsWellFormed(cfg, items[0], SequenceK(cfg, items[1..], k), n);
    }
  }

  lemma {:induction false} SequenceKWellBehaved(cfg: Config, rest: seq<Node>, k: Cont)
    requires WellBehaved(cfg.mark, k)
    ensures WellBehaved(cfg.mark, SequenceK(cfg, rest, k))
    decreases SizeAll(rest), 4, 0
  {
    forall x, m | Shaped(cfg.mark, x)
      ensures SequenceK(cfg, rest, k)(x, m).1 >= m && Shaped(cfg.mark, SequenceK(cfg, rest, k)(x, m).0)
    {
      SequenceWellFormed(cfg, rest, k, m);
      var (tail, m1) := CpsSequence(cfg, rest, k, m);
      if cfg.isKept(x) {
        var s := Sequence([x, tail]);
        assert Shaped(cfg.mark, s);
      }
    }
  }

  lemma {:induction false} CallFuncKWellBehaved(cfg: Config, e: Node, k: Cont)
    requires e.Call?
    requires WellBehaved(cfg.mark, k)
    ensures WellBehaved(cfg.mark, CallFuncK(cfg, e, k))
    decreases Size(e), 1, 2 * |e.args| + 2
  {
    forall f, m | Shaped(cfg.mark, f)
      ensures CallFuncK(cfg, e, k)(f, m).1 >= m && Shaped(cfg.mark, CallFuncK(cfg, e, k)(f, m).0)
    {
      var (cc, m1) := Continuation(cfg.mark, k, m);
      ContinuationShaped(cfg.mark, k, m);
      CallArgumentsWellFormed(cfg, e, f, [cc], 0, m1);
    }
  }

  lemma {:induction false} CallArgumentsWellFormed(cfg: Config, e: Node, f: Node, acc: seq<Node>, i: nat, m: nat)
    requires e.Call? && i <= |e.args|
    requires Shaped(cfg.mark, f) && |acc| >= 1 && acc[0].Function?
    requires forall j | 0 <= j < |acc| :: Shaped(cfg.mark, acc[j])
    ensures CallArguments(cfg, e, f, acc, i, m).1 >= m && Shaped(cfg.mark, CallArguments(cfg, e, f, acc, i, m).0)
    decreases Size(e), 1, 2 * (|e.args| - i) + 1
  {
    if i < |e.args| {
      SizeAllElement(e.args, i);
      CallArgKWellBehaved(cfg, e, f, acc, i);
      CpsWellFormed(cfg, e.args[i], CallArgK(cfg, e, f, acc, i), m);
    }
  }

  lemma {:induction false} CallArgKWellBehaved(cfg: Config, e: Node, f: Node, acc: seq<Node>, i: nat)
    requires e.Call? && i < |e.args|
    requires Shaped(cfg.mark, f) && |acc| >= 1 && acc[0].Function?
    requires forall j | 0 <= j < |acc| :: Shaped(cfg.mark, acc[j])
    ensures WellBehaved(cfg.mark, CallArgK(cfg, e, f, acc, i))
    decreases Size(e), 1, 2 * (|e.args| - i)
  {
    forall v, m | Shaped(cfg.mark, v)
      ensures CallArgK(cfg, e, f, acc, i)(v, m).1 >= m && Shaped(cfg.mark, CallArgK(cfg, e, f, acc, i)(v, m).0)
    {
      CallArgumentsWellFormed(cfg, e, f, acc + [v], i + 1, m);
    }
  }

  // ---------------------------------------------------------------------
  // What each case builds
  // ---------------------------------------------------------------------

  /** Atoms under negations and operators: the trees that `cps` hands to `k` without allocating. */
  predicate Simple(e: Node) {
    match e
    case Int(_) => true
    case Str(_) => true
    case Bool(_) => true
    case Var(_) => true
    case Negation(b) => Simple(b)
    case Assign(_, l, r) => Simple(l) && Simple(r)
    case Binary(_, l, r) => Simple(l) && Simple(r)
    case _ => false
  }

  /**
   * Atoms are handed to `k` unchanged, and negations and operator nodes are
   * rebuilt with the same type and operator around their transformed
   * operands: on a simple tree, `cps(e, k)` is `k(e)` and no name is allocated.
   */
  lemma {:induction false} CpsSimple(cfg: Config, e: Node, k: Cont, n: nat)
    requires Simple(e)
    ensures Cps(cfg, e, k, n) == k(e, n)
  {
    match e
    case Negation(b) =>
      CpsSimple(cfg, b, NegationK(k), n);
    case Assign(_, l, r) =>
      CpsSimple(cfg, l, BinaryLeftK(cfg, e, k), n);
      CpsSimple(cfg, r, BinaryRightK(e, l, k), n);
      assert Rebuild(e, l, r) == e;
    case Binary(_, l, r) =>
      CpsSimple(cfg, l, BinaryLeftK(cfg, e, k), n);
      CpsSimple(cfg, r, BinaryRightK(e, l, k), n);
      assert Rebuild(e, l, r) == e;
    case _ =>
  }

  lemma {:induction false} CallArgumentsSimple(cfg: Config, e: Node, f: Node, acc: seq<Node>, i: nat, m: nat)
    requires e.Call? && i <= |e.args|
    requires forall j | 0 <= j < |e.args| :: Simple(e.args[j])
    ensures CallArguments(cfg, e, f, acc, i, m) == (Call(f, acc + e.args[i..]), m)
    decreases |e.args| - i
  {
    if i < |e.args| {
      CpsSimple(cfg, e.args[i], CallArgK(cfg, e, f, acc, i), m);
      CallArgumentsSimple(cfg, e, f, acc + [e.args[i]], i + 1, m);
      assert acc + [e.args[i]] + e.args[i + 1..] == acc + e.args[i..];
    } else {
      assert acc + e.args[i..] == acc;
    }
  }

  /**
   * A call whose function and arguments are simple (they allocate no name and
   * contain no call) keeps them as they are, in order, with the reified
   * continuation added as the first argument.  Calls among the operands are
   * `BinaryOfCalls` and `CallOfCalls`.
   */
  lemma CallSimple(cfg: Config, func: Node, args: seq<Node>, k: Cont, n: nat)
    requires Simple(func) && forall j | 0 <= j < |args| :: Simple(args[j])
    ensures var (cc, n1) := Continuation(cfg.mark, k, n);
            Cps(cfg, Call(func, args), k, n) == (Call(func, [cc] + args), n1)
  {
    var e := Call(func, args);
    CpsSimple(cfg, func, CallFuncK(cfg, e, k), n);
    var (cc, n1) := Continuation(cfg.mark, k, n);
    CallArgumentsSimple(cfg, e, func, [cc], 0, n1);
    assert args[0..] == args;
  }

  /**
   * A function literal keeps its name, gains a fresh "K" parameter in front,
   * its body ends in a call of "K" on the body's value, and the new function
   * is handed to `k` at once.
   */
  lemma FunctionSimple(cfg: Config, fname: Option<string>, params: seq<string>, body: Node, k: Cont, n: nat)
    ensures var ret := Symbol(cfg.mark, "K", n + 1);
            var (body', n1) := Cps(cfg, body, ReturnK(ret), n + 1);
            Cps(cfg, Function(fname, params, body), k, n) == k(Function(fname, [ret] + params, body'), n1)
    ensures var ret := Symbol(cfg.mark, "K", n + 1);
            Simple(body) ==>
              Cps(cfg, Function(fname, params, body), k, n) ==
              k(Function(fname, [ret] + params, Call(Var(ret), [body])), n + 1)
  {
    if Simple(body) {
      CpsSimple(cfg, body, ReturnK(Symbol(cfg.mark, "K", n + 1)), n + 1);
    }
  }

  /**
   * The conditional funnel: both branches (a missing `else` being `false`)
   * end in a call of a fresh "I" parameter, which is bound to the original
   * continuation reified once as a function of a fresh "R" name.
   */
  lemma ConditionalSimple(cfg: Config, cond: Node, conseq: Node, alt: Option<Node>, k: Cont, n: nat)
    requires Simple(cond) && Simple(conseq) && Simple(OrFalse(alt))
    ensures var ivar := Symbol(cfg.mark, "I", n + 1);
            var (cast, n1) := Continuation(cfg.mark, k, n + 1);
            Cps(cfg, Conditional(cond, conseq, alt), k, n) ==
            (Call(Function(None, [ivar], Conditional(cond, Call(Var(ivar), [conseq]), Some(Call(Var(ivar), [OrFalse(alt)])))), [cast]), n1)
  {
    var e := Conditional(cond, conseq, alt);
    var ivar := Symbol(cfg.mark, "I", n + 1);
    var (cast, n1) := Continuation(cfg.mark, k, n + 1);
    CpsSimple(cfg, cond, ConditionalK(cfg, e, k), n);
    CpsSimple(cfg, conseq, ReturnK(ivar), n1);
    CpsSimple(cfg, OrFalse(alt), ReturnK(ivar), n1);
  }

  /**
   * `let` never survives: with no bindings it is its body; its first binding
   * becomes a call of a one-parameter function of that name, applied to the
   * definition (or `false`), whose body is the `let` of the other bindings.
   * With one binding, a simple definition and a simple body, that is a call
   * of a function of the name (plus its "K" parameter) on the reified
   * continuation and the definition.
   */
  lemma LetSimple(cfg: Config, name: string, def: Option<Node>, rest: seq<Binding>, body: Node, k: Cont, n: nat)
    ensures Cps(cfg, Declaration([], body), k, n) == Cps(cfg, body, k, n)
    ensures Cps(cfg, Declaration([Binding(name, def)] + rest, body), k, n) ==
            Cps(cfg, Call(Function(None, [name], Declaration(rest, body)), [OrFalse(def)]), k, n)
    ensures var ret := Symbol(cfg.mark, "K", n + 1);
            var (cc, n1) := Continuation(cfg.mark, k, n + 1);
            Simple(OrFalse(def)) && Simple(body) ==>
              Cps(cfg, Declaration([Binding(name, def)], body), k, n) ==
              (Call(Function(None, [ret, name], Call(Var(ret), [body])), [cc, OrFalse(def)]), n1)
  {
    var e0 := Declaration([Binding(name, def)] + rest, body);
    assert e0.bindings[0] == Binding(name, def) && e0.bindings[1..] == rest;
    if Simple(OrFalse(def)) && Simple(body) {
      LetOneSimple(cfg, name, def, body, k, n);
    }
  }

  lemma LetOneSimple(cfg: Config, name: string, def: Option<Node>, body: Node, k: Cont, n: nat)
    requires Simple(OrFalse(def)) && Simple(body)
    ensures var ret := Symbol(cfg.mark, "K", n + 1);
            var (cc, n1) := Continuation(cfg.mark, k, n + 1);
            Cps(cfg, Declaration([Binding(name, def)], body), k, n) ==
            (Call(Function(None, [ret, name], Call(Var(ret), [body])), [cc, OrFalse(def)]), n1)
  {
    var e := Declaration([Binding(name, def)], body);
    assert e.bindings[1..] == [];
    var call := LetStep(e);
    assert call == Call(Function(None, [name], Declaration([], body)), [OrFalse(def)]);
    var ret := Symbol(cfg.mark, "K", n + 1);
    CpsSimple(cfg, body, ReturnK(ret), n + 1);
    assert Cps(cfg, Declaration([], body), ReturnK(ret), n + 1) == (Call(Var(ret), [body]), n + 1);
    var fn := Function(None, [ret, name], Call(Var(ret), [body]));
    assert [ret] + [name] == [ret, name];
    assert Cps(cfg, call.func, CallFuncK(cfg, call, k), n) == CallFuncK(cfg, call, k)(fn, n + 1);
    var (cc, n1) := Continuation(cfg.mark, k, n + 1);
    CallArgumentsSimple(cfg, call, fn, [cc], 0, n1);
    assert [cc] + call.args[0..] == [cc, OrFalse(def)];
  }

  /**
   * Operands are transformed left before right, and calls among them nest to
   * fix that order: in `f1(a1) op f2(a2)` the call of `f1` comes outermost,
   * its continuation (parameter "R1") calls `f2`, whose continuation
   * (parameter "R2") applies the operator to both names and goes on with `k`.
   */
  lemma BinaryOfCalls(cfg: Config, op: string, f1: Node, a1: seq<Node>, f2: Node, a2: seq<Node>, k: Cont, n: nat)
    requires Simple(f1) && forall j | 0 <= j < |a1| :: Simple(a1[j])
    requires Simple(f2) && forall j | 0 <= j < |a2| :: Simple(a2[j])
    ensures var r1 := Symbol(cfg.mark, "R", n + 1);
            var r2 := Symbol(cfg.mark, "R", n + 2);
            var (body, n1) := k(Binary(op, Var(r1), Var(r2)), n + 2);
            Cps(cfg, Binary(op, Call(f1, a1), Call(f2, a2)), k, n) ==
            (Call(f1, [Function(None, [r1], Call(f2, [Function(None, [r2], body)] + a2))] + a1), n1)
  {
    var e := Binary(op, Call(f1, a1), Call(f2, a2));
    var r1 := Symbol(cfg.mark, "R", n + 1);
    var r2 := Symbol(cfg.mark, "R", n + 2);
    var (body, n1) := k(Binary(op, Var(r1), Var(r2)), n + 2);
    var right := BinaryRightK(e, Var(r1), k);
    CallSimple(cfg, f2, a2, right, n + 1);
    assert Rebuild(e, Var(r1), Var(r2)) == Binary(op, Var(r1), Var(r2));
    assert right(Var(r2), n + 2) == k(Rebuild(e, Var(r1), Var(r2)), n + 2);
    var inner := Call(f2, [Function(None, [r2], body)] + a2);
    assert Cps(cfg, Call(f2, a2), right, n + 1) == (inner, n1);
    assert BinaryLeftK(cfg, e, k)(Var(r1), n + 1) == (inner, n1);
    CallSimple(cfg, f1, a1, BinaryLeftK(cfg, e, k), n);
  }

  /**
   * A call evaluates its function first, then its arguments left to right,
   * and calls among them nest in that order: in `h(f1(a1), f2(a2))` the call
   * of `f1` comes outermost, its continuation calls `f2`, and the innermost
   * continuation calls `h` on the reified `k` and both results.
   */
  lemma CallOfCalls(cfg: Config, h: Node, f1: Node, a1: seq<Node>, f2: Node, a2: seq<Node>, k: Cont, n: nat)
    requires Simple(h)
    requires Simple(f1) && forall j | 0 <= j < |a1| :: Simple(a1[j])
    requires Simple(f2) && forall j | 0 <= j < |a2| :: Simple(a2[j])
    ensures var (ck, m) := Continuation(cfg.mark, k, n);
            var r1 := Symbol(cfg.mark, "R", m + 1);
            var r2 := Symbol(cfg.mark, "R", m + 2);
            Cps(cfg, Call(h, [Call(f1, a1), Call(f2, a2)]), k, n) ==
            (Call(f1, [Function(None, [r1], Call(f2, [Function(None, [r2], Call(h, [ck, Var(r1), Var(r2)]))] + a2))] + a1),
             m + 2)
  {
    var e := Call(h, [Call(f1, a1), Call(f2, a2)]);
    var (ck, m) := Continuation(cfg.mark, k, n);
    var r1 := Symbol(cfg.mark, "R", m + 1);
    var r2 := Symbol(cfg.mark, "R", m + 2);
    var last := Call(h, [ck, Var(r1), Var(r2)]);
    assert CallArguments(cfg, e, h, [ck, Var(r1), Var(r2)], 2, m + 2) == (last, m + 2);
    var second := CallArgK(cfg, e, h, [ck, Var(r1)], 1);
    assert [ck, Var(r1)] + [Var(r2)] == [ck, Var(r1), Var(r2)];
    assert second(Var(r2), m + 2) == CallArguments(cfg, e, h, [ck, Var(r1)] + [Var(r2)], 2, m + 2);
    CallSimple(cfg, f2, a2, second, m + 1);
    var inner := Call(f2, [Function(None, [r2], last)] + a2);
    assert CallArguments(cfg, e, h, [ck, Var(r1)], 1, m + 1) == (inner, m + 2);
    var first := CallArgK(cfg, e, h, [ck], 0);
    assert [ck] + [Var(r1)] == [ck, Var(r1)];
    assert first(Var(r1), m + 1) == CallArguments(cfg, e, h, [ck] + [Var(r1)], 1, m + 1);
    CallSimple(cfg, f1, a1, first, m);
    assert CallArguments(cfg, e, h, [ck], 0, m) == Cps(cfg, Call(f1, a1), first, m);
    CpsSimple(cfg, h, CallFuncK(cfg, e, k), n);
  }

  /** The elements a sequence keeps, in order. */
  function Kept(isKept: Node -> bool, items: seq<Node>): (r: seq<Node>)
    ensures |r| <= |items|
    ensures forall j | 0 <= j < |r| :: r[j] in items && isKept(r[j])
  {
    if items == [] then []
    else (if isKept(items[0]) then [items[0]] else []) + Kept(isKept, items[1..])
  }

  /** `Sequence([a, Sequence([b, … last])])`: kept elements nested in front of `last`. */
  function Nest(kept: seq<Node>, last: Node): Node {
    if kept == [] then last else Sequence([kept[0], Nest(kept[1..], last)])
  }

  lemma {:induction false} SequenceSimpleLoop(cfg: Config, items: seq<Node>, k: Cont, n: nat)
    requires |items| >= 1 && forall j | 0 <= j < |items| :: Simple(items[j])
    ensures var (last, n1) := k(items[|items| - 1], n);
            CpsSequence(cfg, items, k, n) == (Nest(Kept(cfg.isKept, items[..|items| - 1]), last), n1)
    decreases |items|
  {
    var init := items[..|items| - 1];
    if |items| == 1 {
      CpsSimple(cfg, items[0], k, n);
      assert init == [];
    } else {
      var rest := items[1..];
      SequenceSimpleLoop(cfg, rest, k, n);
      assert init[0] == items[0] && init[1..] == rest[..|rest| - 1];
      assert rest[|rest| - 1] == items[|items| - 1];
      var (last, n1) := k(items[|items| - 1], n);
      var tail := Nest(Kept(cfg.isKept, rest[..|rest| - 1]), last);
      assert CpsSequence(cfg, rest, k, n) == (tail, n1);
      if cfg.isKept(items[0]) {
        assert Kept(cfg.isKept, init) == [items[0]] + Kept(cfg.isKept, rest[..|rest| - 1]);
        CpsSimple(cfg, items[0], SequenceK(cfg, rest, k), n);
        assert SequenceK(cfg, rest, k)(items[0], n) == (Sequence([items[0], tail]), n1);
      } else {
        assert Kept(cfg.isKept, init) == Kept(cfg.isKept, rest[..|rest| - 1]);
      }
    }
  }

  /**
   * A sequence: the empty one hands `false` to `k`; otherwise non-final
   * elements that are not kept are dropped, the kept ones stay in order, and
   * the last element's value goes to `k`.
   */
  lemma SequenceSimple(cfg: Config, items: seq<Node>, k: Cont, n: nat)
    requires forall j | 0 <= j < |items| :: Simple(items[j])
    ensures |items| == 0 ==> Cps(cfg, Sequence(items), k, n) == k(Bool(false), n)
    ensures |items| > 0 ==>
              var (last, n1) := k(items[|items| - 1], n);
              Cps(cfg, Sequence(items), k, n) == (Nest(Kept(cfg.isKept, items[..|items| - 1]), last), n1)
  {
    if |items| > 0 {
      SequenceSimpleLoop(cfg, items, k, n);
    }
  }
}
