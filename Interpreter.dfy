/**
 * The evaluator (`evaluate`, `constructResolver`), in direct style.  Where
 * the source hands each result to a callback, `Eval` returns it; the value in
 * `Done` is the one the callback would receive and the store is the state of
 * all frames at that moment.  Fuel bounds the number of closure calls, so a
 * program that recurses forever ends in `OutOfFuel`.
 */
module Interpreter {
  import opened Wrappers
  import opened Ast
  import opened Environment
  import opened Operators

  datatype Outcome = Done(value: Value, store: Store) | Fail(error: EvalError) | OutOfFuel {

    predicate IsFailure() {
      !Done?
    }

    function PropagateFailure(): Outcome
      requires !Done?
    {
      this
    }

    function Extract(): (Value, Store)
      requires Done?
    {
      (value, store)
    }
  }

  function FromResult(r: Result<Value, EvalError>, st: Store): Outcome {
    match r
    case Ok(v) => Done(v, st)
    case Err(err) => Fail(err)
  }

  /** `callback(env.set(name, value))`: the assigned value, in the updated store. */
  function AssignResult(r: Result<Store, EvalError>, v: Value): Outcome {
    match r
    case Ok(st) => Done(v, st)
    case Err(err) => Fail(err)
  }

  /** `if (expr.name)`: only a present, non-empty name makes a function literal name itself. */
  predicate IsNamed(e: Node)
    requires e.Function?
  {
    e.fname.Some? && e.fname.value != ""
  }

  /**
   * `constructResolver`: a closure over `env`.  A named function is first
   * given a frame of its own, child of `env`, that binds its name to the
   * closure itself.
   */
  function MakeClosure(st: Store, env: nat, e: Node): (r: (Value, Store))
    requires e.Function?
    ensures r.0.Closure? && r.0.id == st.closures && r.1.closures == st.closures + 1
    ensures r.0.params == e.params && r.0.body == e.body
    ensures !IsNamed(e) ==> r.0.env == env && r.1 == st.(closures := st.closures + 1)
    ensures IsNamed(e) ==> r.0.env == |st.frames| && |r.1.frames| == |st.frames| + 1
    ensures IsNamed(e) ==> r.1.frames[..|st.frames|] == st.frames
    ensures IsNamed(e) ==> r.1.frames[r.0.env] == Frame(map[e.fname.value := r.0], Some(env))
  {
    if IsNamed(e) then
      var (g, st1) := Extend(st, env);
      var c := Closure(st.closures, g, e.params, e.body);
      (c, Define(st1, g, e.fname.value, c).(closures := st.closures + 1))
    else
      var c := Closure(st.closures, env, e.params, e.body);
      (c, st.(closures := st.closures + 1))
  }

  /** The value of parameter `i` in a call with arguments `args`: missing arguments are `false`. */
  function ArgOrFalse(args: seq<Value>, i: nat): Value {
    if i < |args| then args[i] else BoolV(false)
  }

  /**
   * The frame `ctx` after defining the first `|params|` parameters in order,
   * as the resolver's `for` loop does.
   */
  function BindParams(st: Store, ctx: nat, params: seq<string>, args: seq<Value>): (r: Store)
    requires ctx < |st.frames|
    ensures |r.frames| == |st.frames| && r.closures == st.closures
    ensures forall h | 0 <= h < |st.frames| && h != ctx :: r.frames[h] == st.frames[h]
    ensures r.frames[ctx].parent == st.frames[ctx].parent
    decreases |params|
  {
    if params == [] then st
    else
      var i := |params| - 1;
      Define(BindParams(st, ctx, params[..i], args), ctx, params[i], ArgOrFalse(args, i))
  }

  /** The resolver's parameter loop. */
  method BindParameters(st: Store, ctx: nat, params: seq<string>, args: seq<Value>) returns (out: Store)
    requires ctx < |st.frames|
    ensures out == BindParams(st, ctx, params, args)
  {
    out := st;
    for i := 0 to |params|
      invariant out == BindParams(st, ctx, params[..i], args)
    {
      assert params[..i + 1][..i] == params[..i];
      out := Define(out, ctx, params[i], ArgOrFalse(args, i));
    }
    assert params[..|params|] == params;
  }

  /** `evaluate(expr, env, callback)`. */
  function Eval(fuel: nat, e: Node, env: nat, st: Store): Outcome
    decreases fuel, e, 1, 0
  {
    match e
    case Int(n) => Done(Num(n as real), st)
    case Str(s) => Done(StrV(s), st)
    case Bool(b) => Done(BoolV(b), st)
    case Var(name) => FromResult(Get(st, env, name), st)
    case Assign(_, left, right) =>
      if !left.Var? then Fail(ExpectVar)
      else
        var r :- Eval(fuel, right, env, st);
        AssignResult(Set(r.1, env, left.name, r.0), r.0)
    case Binary(op, left, right) =>
      var a :- Eval(fuel, left, env, st);
      var b :- Eval(fuel, right, env, a.1);
      FromResult(ApplyOperator(op, a.0, b.0), b.1)
    case Conditional(cond, conseq, alt) =>
      var c :- Eval(fuel, cond, env, st);
      if c.0 != BoolV(false) then Eval(fuel, conseq, env, c.1)
      else if alt.Some? then Eval(fuel, alt.value, env, c.1)
      else Done(BoolV(false), c.1)
    case Sequence(_) => EvalSequence(fuel, e, env, st, BoolV(false), 0)
    case Call(func, _) =>
      var f :- Eval(fuel, func, env, st);
      EvalArguments(fuel, e, env, f.1, f.0, [], 0)
    case Declaration(_, _) => EvalDeclaration(fuel, e, env, st, 0)
    case Function(_, _, _) =>
      var c := MakeClosure(st, env, e);
      Done(c.0, c.1)
    case Negation(_) => Fail(CannotEval)
  }

  /** The sequence loop: `last` is the value of the previous element, `false` before the first. */
  function EvalSequence(fuel: nat, e: Node, env: nat, st: Store, last: Value, i: nat): Outcome
    requires e.Sequence? && i <= |e.items|
    decreases fuel, e, 0, |e.items| - i
  {
    if i < |e.items| then
      var r :- Eval(fuel, e.items[i], env, st);
      EvalSequence(fuel, e, env, r.1, r.0, i + 1)
    else
      Done(last, st)
  }

  /**
   * The argument loop of a call, then the call itself: `vals` are the values
   * of the arguments evaluated so far.  Calling a closure costs one unit of fuel.
   */
  function EvalArguments(fuel: nat, e: Node, env: nat, st: Store, fn: Value, vals: seq<Value>, i: nat): Outcome
    requires e.Call? && i <= |e.args|
    decreases fuel, e, 0, |e.args| - i
  {
    if i < |e.args| then
      var a :- Eval(fuel, e.args[i], env, st);
      EvalArguments(fuel, e, env, a.1, fn, vals + [a.0], i + 1)
    else
      match fn
      case Closure(_, cenv, params, body) =>
        if fuel == 0 then OutOfFuel
        else
          var (ctx, st1) := Extend(st, cenv);
          Eval(fuel - 1, body, ctx, BindParams(st1, ctx, params, vals))
      case _ => Fail(NotCallable)
  }

  /**
   * The `let` loop: each binding gets a fresh child of the scope built so far,
   * its definition (if any) evaluated in that scope; the body runs in the last one.
   */
  function EvalDeclaration(fuel: nat, e: Node, scope: nat, st: Store, i: nat): Outcome
    requires e.Declaration? && i <= |e.bindings|
    decreases fuel, e, 0, |e.bindings| - i
  {
    if i < |e.bindings| then
      var b := e.bindings[i];
      match b.def
      case Some(def) =>
        var d :- Eval(fuel, def, scope, st);
        var (g, st1) := Extend(d.1, scope);
        EvalDeclaration(fuel, e, g, Define(st1, g, b.name, d.0), i + 1)
      case None =>
        var (g, st1) := Extend(st, scope);
        EvalDeclaration(fuel, e, g, Define(st1, g, b.name, BoolV(false)), i + 1)
    else
      Eval(fuel, e.body, scope, st)
  }

  /** The entry point: evaluate a program in a global frame holding the host's bindings. */
  function Run(fuel: nat, program: Node, globals: map<string, Value>): Outcome {
    Eval(fuel, program, 0, Global(globals))
  }

  // ---------------------------------------------------------------------
  // What evaluation does to the store
  // ---------------------------------------------------------------------

  /**
   * Evaluation only adds frames and closures and overwrites bindings: every
   * frame that existed before still exists, binds exactly the same names and
   * has the same parent.  In particular an assignment never creates a
   * binding, and `let` and calls bind names only in frames they create.
   */
  lemma {:induction false} EvalGrows(fuel: nat, e: Node, env: nat, st: Store)
    ensures Eval(fuel, e, env, st).Done? ==> Grows(st, Eval(fuel, e, env, st).store)
    decreases fuel, e, 1, 0
  {
    match e
    case Int(_) =>
    case Str(_) =>
    case Bool(_) =>
    case Var(_) =>
    case Assign(_, left, right) =>
      if left.Var? {
        EvalGrows(fuel, right, env, st);
      }
    case Binary(_, left, right) =>
      EvalGrows(fuel, left, env, st);
      var a := Eval(fuel, left, env, st);
      if a.Done? {
        EvalGrows(fuel, right, env, a.store);
      }
    case Conditional(cond, conseq, alt) =>
      EvalGrows(fuel, cond, env, st);
      var c := Eval(fuel, cond, env, st);
      if c.Done? {
        EvalGrows(fuel, conseq, env, c.store);
        if alt.Some? {
          EvalGrows(fuel, alt.value, env, c.store);
        }
      }
    case Sequence(_) =>
      SequenceGrows(fuel, e, env, st, BoolV(false), 0);
    case Call(func, _) =>
      EvalGrows(fuel, func, env, st);
      var f := Eval(fuel, func, env, st);
      if f.Done? {
        ArgumentsGrows(fuel, e, env, f.store, f.value, [], 0);
      }
    case Declaration(_, _) =>
      DeclarationGrows(fuel, e, env, st, 0);
    case Function(_, _, _) =>
    case Negation(_) =>
  }

  lemma {:induction false} SequenceGrows(fuel: nat, e: Node, env: nat, st: Store, last: Value, i: nat)
    requires e.Sequence? && i <= |e.items|
    ensures EvalSequence(fuel, e, env, st, last, i).Done? ==> Grows(st, EvalSequence(fuel, e, env, st, last, i).store)
    decreases fuel, e, 0, |e.items| - i
  {
    if i < |e.items| {
      EvalGrows(fuel, e.items[i], env, st);
      var r := Eval(fuel, e.items[i], env, st);
      if r.Done? {
        SequenceGrows(fuel, e, env, r.store, r.value, i + 1);
      }
    }
  }

  lemma {:induction false} ArgumentsGrows(fuel: nat, e: Node, env: nat, st: Store, fn: Value, vals: seq<Value>, i: nat)
    requires e.Call? && i <= |e.args|
    ensures EvalArguments(fuel, e, env, st, fn, vals, i).Done? ==> Grows(st, EvalArguments(fuel, e, env, st, fn, vals, i).store)
    decreases fuel, e, 0, |e.args| - i
  {
    if i < |e.args| {
      EvalGrows(fuel, e.args[i], env, st);
      var a := Eval(fuel, e.args[i], env, st);
      if a.Done? {
        ArgumentsGrows(fuel, e, env, a.store, fn, vals + [a.value], i + 1);
      }
    } else if fn.Closure? && fuel > 0 {
      var (ctx, st1) := Extend(st, fn.env);
      var st2 := BindParams(st1, ctx, fn.params, vals);
      assert Grows(st, st2);
      EvalGrows(fuel - 1, fn.body, ctx, st2);
    }
  }

  lemma {:induction false} DeclarationGrows(fuel: nat, e: Node, scope: nat, st: Store, i: nat)
    requires e.Declaration? && i <= |e.bindings|
    ensures EvalDeclaration(fuel, e, scope, st, i).Done? ==> Grows(st, EvalDeclaration(fuel, e, scope, st, i).store)
    decreases fuel, e, 0, |e.bindings| - i
  {
    if i < |e.bindings| {
      var b := e.bindings[i];
      match b.def
      case Some(def) =>
        EvalGrows(fuel, def, scope, st);
        var d := Eval(fuel, def, scope, st);
        if d.Done? {
          var (g, st1) := Extend(d.store, scope);
          var st2 := Define(st1, g, b.name, d.value);
          assert Grows(d.store, st2);
          DeclarationGrows(fuel, e, g, st2, i + 1);
        }
      case None =>
        var (g, st1) := Extend(st, scope);
        var st2 := Define(st1, g, b.name, BoolV(false));
        assert Grows(st, st2);
        DeclarationGrows(fuel, e, g, st2, i + 1);
    } else {
      EvalGrows(fuel, e.body, scope, st);
    }
  }

  // ---------------------------------------------------------------------
  // Fuel
  // ---------------------------------------------------------------------

  /**
   * Fuel only bounds the number of calls: once an evaluation finishes (with a
   * value or an error), more fuel gives the very same outcome.
   */
  lemma {:induction false} EvalMoreFuel(fuel: nat, more: nat, e: Node, env: nat, st: Store)
    requires fuel <= more
    ensures Eval(fuel, e, env, st) != OutOfFuel ==> Eval(more, e, env, st) == Eval(fuel, e, env, st)
    decreases fuel, e, 1, 0
  {
    match e
    case Int(_) =>
    case Str(_) =>
    case Bool(_) =>
    case Var(_) =>
    case Assign(_, left, right) =>
      if left.Var? {
        EvalMoreFuel(fuel, more, right, env, st);
      }
    case Binary(_, left, right) =>
      EvalMoreFuel(fuel, more, left, env, st);
      var a := Eval(fuel, left, env, st);
      if a.Done? {
        EvalMoreFuel(fuel, more, right, env, a.store);
      }
    case Conditional(cond, conseq, alt) =>
      EvalMoreFuel(fuel, more, cond, env, st);
      var c := Eval(fuel, cond, env, st);
      if c.Done? {
        EvalMoreFuel(fuel, more, conseq, env, c.store);
        if alt.Some? {
          EvalMoreFuel(fuel, more, alt.value, env, c.store);
        }
      }
    case Sequence(_) =>
      SequenceMoreFuel(fuel, more, e, env, st, BoolV(false), 0);
    case Call(func, _) =>
      EvalMoreFuel(fuel, more, func, env, st);
      var f := Eval(fuel, func, env, st);
      if f.Done? {
        ArgumentsMoreFuel(fuel, more, e, env, f.store, f.value, [], 0);
      }
    case Declaration(_, _) =>
      DeclarationMoreFuel(fuel, more, e, env, st, 0);
    case Function(_, _, _) =>
    case Negation(_) =>
  }

  lemma {:induction false} SequenceMoreFuel(fuel: nat, more: nat, e: Node, env: nat, st: Store, last: Value, i: nat)
    requires fuel <= more && e.Sequence? && i <= |e.items|
    ensures EvalSequence(fuel, e, env, st, last, i) != OutOfFuel ==>
              EvalSequence(more, e, env, st, last, i) == EvalSequence(fuel, e, env, st, last, i)
    decreases fuel, e, 0, |e.items| - i
  {
    if i < |e.items| {
      EvalMoreFuel(fuel, more, e.items[i], env, st);
      var r := Eval(fuel, e.items[i], env, st);
      if r.Done? {
        SequenceMoreFuel(fuel, more, e, env, r.store, r.value, i + 1);
      }
    }
  }

  lemma {:induction false} ArgumentsMoreFuel(fuel: nat, more: nat, e: Node, env: nat, st: Store, fn: Value, vals: seq<Value>, i: nat)
    requires fuel <= more && e.Call? && i <= |e.args|
    ensures EvalArguments(fuel, e, env, st, fn, vals, i) != OutOfFuel ==>
              EvalArguments(more, e, env, st, fn, vals, i) == EvalArguments(fuel, e, env, st, fn, vals, i)
    decreases fuel, e, 0, |e.args| - i
  {
    if i < |e.args| {
      EvalMoreFuel(fuel, more, e.args[i], env, st);
      var a := Eval(fuel, e.args[i], env, st);
      if a.Done? {
        ArgumentsMoreFuel(fuel, more, e, env, a.store, fn, vals + [a.value], i + 1);
      }
    } else if fn.Closure? && fuel > 0 {
      var (ctx, st1) := Extend(st, fn.env);
      EvalMoreFuel(fuel - 1, more - 1, fn.body, ctx, BindParams(st1, ctx, fn.params, vals));
    }
  }

  lemma {:induction false} DeclarationMoreFuel(fuel: nat, more: nat, e: Node, scope: nat, st: Store, i: nat)
    requires fuel <= more && e.Declaration? && i <= |e.bindings|
    ensures EvalDeclaration(fuel, e, scope, st, i) != OutOfFuel ==>
              EvalDeclaration(more, e, scope, st, i) == EvalDeclaration(fuel, e, scope, st, i)
    decreases fuel, e, 0, |e.bindings| - i
  {
    if i < |e.bindings| {
      var b := e.bindings[i];
      match b.def
      case Some(def) =>
        EvalMoreFuel(fuel, more, def, scope, st);
        var d := Eval(fuel, def, scope, st);
        if d.Done? {
          var (g, st1) := Extend(d.store, scope);
          DeclarationMoreFuel(fuel, more, e, g, Define(st1, g, b.name, d.value), i + 1);
        }
      case None =>
        var (g, st1) := Extend(st, scope);
        DeclarationMoreFuel(fuel, more, e, g, Define(st1, g, b.name, BoolV(false)), i + 1);
    } else {
      EvalMoreFuel(fuel, more, e.body, scope, st);
    }
  }

  // ---------------------------------------------------------------------
  // Closures and calls
  // ---------------------------------------------------------------------

  /**
   * A named function literal sees itself under its own name (so it can
   * recurse), and every other name as the defining scope sees it.
   */
  lemma NamedClosureSeesItself(st: Store, env: nat, e: Node, other: string)
    requires e.Function? && IsNamed(e) && env < |st.frames|
    ensures var (c, st') := MakeClosure(st, env, e);
            Get(st', c.env, e.fname.value) == Ok(c) &&
            (other != e.fname.value ==> Get(st', c.env, other) == Get(st, env, other))
  {
    var (c, st') := MakeClosure(st, env, e);
    OwnerAgree(st, st', env, other);
  }

  /**
   * Every function literal evaluates to a new closure, so a literal is never
   * `==` to another evaluation of itself.
   */
  lemma FunctionLiteralsAreDistinct(fuel: nat, f: Node, env: nat, st: Store)
    requires f.Function?
    ensures Eval(fuel, Binary("==", f, f), env, st).Done?
    ensures Eval(fuel, Binary("==", f, f), env, st).value == BoolV(false)
  {
    var a := MakeClosure(st, env, f);
    var b := MakeClosure(a.1, env, f);
    assert a.0.id != b.0.id;
  }

  /** Parameter `i` is bound to argument `i` (or `false`), unless a later parameter has the same name. */
  lemma {:induction false} BindParamsBinds(st: Store, ctx: nat, params: seq<string>, args: seq<Value>, i: nat)
    requires ctx < |st.frames| && i < |params| && params[i] !in params[i + 1..]
    ensures params[i] in BindParams(st, ctx, params, args).frames[ctx].vars
    ensures BindParams(st, ctx, params, args).frames[ctx].vars[params[i]] == ArgOrFalse(args, i)
    decreases |params|
  {
    var j := |params| - 1;
    if i < j {
      assert params[j] in params[i + 1..];
      assert params[..j][i + 1..] == params[i + 1..j];
      BindParamsBinds(st, ctx, params[..j], args, i);
    }
  }

  /** The call frame binds exactly the parameters, on top of what it bound before. */
  lemma {:induction false} BindParamsKeys(st: Store, ctx: nat, params: seq<string>, args: seq<Value>)
    requires ctx < |st.frames|
    ensures BindParams(st, ctx, params, args).frames[ctx].vars.Keys == st.frames[ctx].vars.Keys + set p <- params
    decreases |params|
  {
    if params != [] {
      var j := |params| - 1;
      BindParamsKeys(st, ctx, params[..j], args);
      assert params == params[..j] + [params[j]];
      assert (set p <- params) == (set p <- params[..j]) + {params[j]};
    }
  }

  /**
   * Lexical scope: the body of a called closure sees its parameters, bound to
   * the arguments, and otherwise exactly what the closure's own environment
   * sees, whatever the caller's scope.
   */
  lemma CallScope(st: Store, cenv: nat, params: seq<string>, vals: seq<Value>, x: string, i: nat)
    requires cenv < |st.frames|
    ensures var (ctx, st1) := Extend(st, cenv);
            var st2 := BindParams(st1, ctx, params, vals);
            (x !in params ==> Get(st2, ctx, x) == Get(st, cenv, x)) &&
            (i < |params| && params[i] == x && x !in params[i + 1..] ==> Get(st2, ctx, x) == Ok(ArgOrFalse(vals, i)))
  {
    var (ctx, st1) := Extend(st, cenv);
    var st2 := BindParams(st1, ctx, params, vals);
    BindParamsKeys(st1, ctx, params, vals);
    if x !in params {
      assert x !in st2.frames[ctx].vars;
      OwnerAgree(st, st2, cenv, x);
    }
    if i < |params| && params[i] == x && x !in params[i + 1..] {
      BindParamsBinds(st1, ctx, params, vals, i);
    }
  }

  // ---------------------------------------------------------------------
  // Sequences, assignment, let
  // ---------------------------------------------------------------------

  /** Evaluate `x` in the store `o` ends with, if `o` ended with a value; otherwise `o`. */
  function AndThen(fuel: nat, o: Outcome, x: Node, env: nat): Outcome {
    if o.Done? then Eval(fuel, x, env, o.store) else o
  }

  lemma {:induction false} SequenceSnocFrom(fuel: nat, es: seq<Node>, x: Node, env: nat, st: Store, last: Value, i: nat)
    requires i <= |es|
    ensures EvalSequence(fuel, Sequence(es + [x]), env, st, last, i) ==
            AndThen(fuel, EvalSequence(fuel, Sequence(es), env, st, last, i), x, env)
    decreases |es| - i
  {
    var e' := Sequence(es + [x]);
    if i < |es| {
      assert e'.items[i] == es[i];
      var r := Eval(fuel, es[i], env, st);
      if r.Done? {
        SequenceSnocFrom(fuel, es, x, env, r.store, r.value, i + 1);
      }
    } else {
      assert e'.items[i] == x;
      var r := Eval(fuel, x, env, st);
      if r.Done? {
        assert EvalSequence(fuel, e', env, r.store, r.value, i + 1) == r;
      }
    }
  }

  /**
   * A sequence evaluates its elements in order, threading the store, and its
   * value is the value of its last element; the empty sequence is `false`.
   */
  lemma SequenceSnoc(fuel: nat, es: seq<Node>, x: Node, env: nat, st: Store)
    ensures Eval(fuel, Sequence([]), env, st) == Done(BoolV(false), st)
    ensures Eval(fuel, Sequence(es + [x]), env, st) ==
            AndThen(fuel, Eval(fuel, Sequence(es), env, st), x, env)
  {
    SequenceSnocFrom(fuel, es, x, env, st, BoolV(false), 0);
  }

  /**
   * Assignment needs a variable on the left (whatever the right side is),
   * never creates a binding, and afterwards the variable holds the assigned
   * value, which is also the value of the assignment.
   */
  lemma AssignSemantics(fuel: nat, op: string, left: Node, right: Node, env: nat, st: Store)
    ensures !left.Var? ==> Eval(fuel, Assign(op, left, right), env, st) == Fail(ExpectVar)
    ensures var r := Eval(fuel, Assign(op, left, right), env, st);
            left.Var? && r.Done? ==> Get(r.store, env, left.name) == Ok(r.value) && r.value == Eval(fuel, right, env, st).value
    ensures var v := Eval(fuel, right, env, st);
            left.Var? && v.Done? && Get(v.store, env, left.name).Err? ==>
              Eval(fuel, Assign(op, left, right), env, st) == Fail(UndefinedVar(left.name))
    ensures var v := Eval(fuel, right, env, st);
            left.Var? && !v.Done? ==> Eval(fuel, Assign(op, left, right), env, st) == v
    ensures var v := Eval(fuel, right, env, st);
            left.Var? && v.Done? && Get(v.store, env, left.name).Ok? ==>
              Eval(fuel, Assign(op, left, right), env, st) == Done(v.value, Set(v.store, env, left.name, v.value).value)
  {
    var v := Eval(fuel, right, env, st);
    if left.Var? && v.Done? && Get(v.store, env, left.name).Ok? {
      GetAfterSet(v.store, env, left.name, v.value);
    }
  }

  /** `let (x = 1, y = x + 1) y` is 2: each definition sees the bindings before it. */
  lemma LetSeesEarlierBindings(fuel: nat)
    ensures Run(fuel, Declaration([Binding("x", Some(Int(1))), Binding("y", Some(Binary("+", Var("x"), Int(1))))]
                                   , Var("y")), map[]).Done?
    ensures Run(fuel, Declaration([Binding("x", Some(Int(1))), Binding("y", Some(Binary("+", Var("x"), Int(1))))]
                                   , Var("y")), map[]).value == Num(2.0)
  {
    var e := Declaration([Binding("x", Some(Int(1))), Binding("y", Some(Binary("+", Var("x"), Int(1))))], Var("y"));
    var st0 := Global(map[]);
    assert Eval(fuel, Int(1), 0, st0) == Done(Num(1.0), st0);
    var (g1, st1) := Extend(st0, 0);
    var st2 := Define(st1, g1, "x", Num(1.0));
    assert Get(st2, 1, "x") == Ok(Num(1.0));
    assert ApplyOperator("+", Num(1.0), Num(1.0)) == Ok(Num(2.0));
    assert Eval(fuel, Binary("+", Var("x"), Int(1)), 1, st2) == Done(Num(2.0), st2);
    var (g2, st3) := Extend(st2, 1);
    var st4 := Define(st3, g2, "y", Num(2.0));
    assert Get(st4, 2, "y") == Ok(Num(2.0));
    assert EvalDeclaration(fuel, e, 2, st4, 2) == Done(Num(2.0), st4);
    assert EvalDeclaration(fuel, e, 1, st2, 1) == Done(Num(2.0), st4);
    assert EvalDeclaration(fuel, e, 0, st0, 0) == Done(Num(2.0), st4);
  }
  // ---------------------------------------------------------------------
  // Evaluation order
  // ---------------------------------------------------------------------

  /**
   * A binary node evaluates its left operand first: a left operand that does
   * not finish with a value is the outcome, whatever the right one is.
   * Otherwise the right operand runs in the store the left one left behind,
   * and the operator is applied to both values.
   */
  lemma BinaryOrder(fuel: nat, op: string, left: Node, right: Node, env: nat, st: Store)
    ensures var a := Eval(fuel, left, env, st);
            !a.Done? ==> Eval(fuel, Binary(op, left, right), env, st) == a
    ensures var a := Eval(fuel, left, env, st);
            a.Done? ==>
              var b := Eval(fuel, right, env, a.store);
              Eval(fuel, Binary(op, left, right), env, st) ==
              if b.Done? then FromResult(ApplyOperator(op, a.value, b.value), b.store) else b
  {
  }

  /**
   * Only `false` is false: any other value of the condition, `0` and `""`
   * included, selects the then-branch, run in the condition's store.  A
   * `false` condition selects the else-branch, or gives `false` without one.
   */
  lemma ConditionalTruth(fuel: nat, cond: Node, conseq: Node, alt: Option<Node>, env: nat, st: Store)
    ensures var c := Eval(fuel, cond, env, st);
            !c.Done? ==> Eval(fuel, Conditional(cond, conseq, alt), env, st) == c
    ensures var c := Eval(fuel, cond, env, st);
            c.Done? && c.value != BoolV(false) ==>
              Eval(fuel, Conditional(cond, conseq, alt), env, st) == Eval(fuel, conseq, env, c.store)
    ensures var c := Eval(fuel, cond, env, st);
            c.Done? && c.value == BoolV(false) ==>
              Eval(fuel, Conditional(cond, conseq, alt), env, st) ==
              if alt.Some? then Eval(fuel, alt.value, env, c.store) else Done(BoolV(false), c.store)
  {
    var c := Eval(fuel, cond, env, st);
    if c.Done? {
      assert c == Done(c.value, c.store);
    }
  }

  /** `if 0 then 1` is 1, `if "" then x` is `x`, and `if false then 1` is `false`. */
  lemma TruthExamples(fuel: nat, x: Node, env: nat, st: Store)
    ensures Eval(fuel, Conditional(Int(0), Int(1), None), env, st) == Done(Num(1.0), st)
    ensures Eval(fuel, Conditional(Str(""), x, None), env, st) == Eval(fuel, x, env, st)
    ensures Eval(fuel, Conditional(Bool(false), Int(1), None), env, st) == Done(BoolV(false), st)
  {
    ConditionalTruth(fuel, Int(0), Int(1), None, env, st);
    assert Num(0 as real) != BoolV(false);
    ConditionalTruth(fuel, Str(""), x, None, env, st);
    ConditionalTruth(fuel, Bool(false), Int(1), None, env, st);
  }

  /** The arguments of a call, evaluated left to right: all their values, or the first outcome without one. */
  datatype Evaluated = Values(vals: seq<Value>, store: Store) | Stopped(outcome: Outcome)

  /**
   * Arguments `i` onwards evaluated from left to right, each in the store the
   * previous one left behind, after the values `vals`.  The first argument
   * that does not finish with a value stops the others.
   */
  function ArgValues(fuel: nat, args: seq<Node>, env: nat, st: Store, vals: seq<Value>, i: nat): (r: Evaluated)
    requires i <= |args|
    ensures r.Stopped? ==> !r.outcome.Done? && i < |args|
    ensures r.Values? ==> |r.vals| == |vals| + |args| - i && r.vals[..|vals|] == vals
    decreases |args| - i
  {
    if i < |args| then
      var a := Eval(fuel, args[i], env, st);
      if a.Done? then ArgValues(fuel, args, env, a.store, vals + [a.value], i + 1) else Stopped(a)
    else
      Values(vals, st)
  }

  /** The argument loop is the arguments evaluated in order, then the call with all their values. */
  lemma {:induction false} ArgumentsInOrder(fuel: nat, e: Node, env: nat, st: Store, fn: Value, vals: seq<Value>, i: nat)
    requires e.Call? && i <= |e.args|
    ensures var a := ArgValues(fuel, e.args, env, st, vals, i);
            EvalArguments(fuel, e, env, st, fn, vals, i) ==
            if a.Stopped? then a.outcome else EvalArguments(fuel, e, env, a.store, fn, a.vals, |e.args|)
    decreases |e.args| - i
  {
    if i < |e.args| {
      var a := Eval(fuel, e.args[i], env, st);
      if a.Done? {
        ArgumentsInOrder(fuel, e, env, a.store, fn, vals + [a.value], i + 1);
      }
    }
  }

  /**
   * A call evaluates its callee first and then its arguments left to right;
   * the first of them that does not finish with a value is the outcome.  Only
   * once every argument has its value is the callee called: a closure runs
   * its body in a new frame, child of its own scope, holding the parameters;
   * any other value is the not-callable error.
   */
  lemma CallOrder(fuel: nat, func: Node, args: seq<Node>, env: nat, st: Store)
    ensures var f := Eval(fuel, func, env, st);
            !f.Done? ==> Eval(fuel, Call(func, args), env, st) == f
    ensures var f := Eval(fuel, func, env, st);
            f.Done? && ArgValues(fuel, args, env, f.store, [], 0).Stopped? ==>
              Eval(fuel, Call(func, args), env, st) == ArgValues(fuel, args, env, f.store, [], 0).outcome
    ensures var f := Eval(fuel, func, env, st);
            f.Done? && ArgValues(fuel, args, env, f.store, [], 0).Values? ==>
              var a := ArgValues(fuel, args, env, f.store, [], 0);
              Eval(fuel, Call(func, args), env, st) ==
              if !f.value.Closure? then Fail(NotCallable)
              else if fuel == 0 then OutOfFuel
              else
                var (ctx, st1) := Extend(a.store, f.value.env);
                Eval(fuel - 1, f.value.body, ctx, BindParams(st1, ctx, f.value.params, a.vals))
  {
    var f := Eval(fuel, func, env, st);
    if f.Done? {
      ArgumentsInOrder(fuel, Call(func, args), env, f.store, f.value, [], 0);
    }
  }

  /**
   * The body of a called closure runs with its parameters bound to the
   * argument values, and sees every other name as the closure's own scope
   * does, not as the caller's.
   */
  lemma CallRunsBody(fuel: nat, func: Node, args: seq<Node>, env: nat, st: Store, x: string, i: nat)
    requires fuel > 0
    requires var f := Eval(fuel, func, env, st);
             f.Done? && f.value.Closure? && ArgValues(fuel, args, env, f.store, [], 0).Values? &&
             f.value.env < |ArgValues(fuel, args, env, f.store, [], 0).store.frames|
    ensures var f := Eval(fuel, func, env, st);
            var a := ArgValues(fuel, args, env, f.store, [], 0);
            var (ctx, st1) := Extend(a.store, f.value.env);
            var st2 := BindParams(st1, ctx, f.value.params, a.vals);
            Eval(fuel, Call(func, args), env, st) == Eval(fuel - 1, f.value.body, ctx, st2) &&
            (x !in f.value.params ==> Get(st2, ctx, x) == Get(a.store, f.value.env, x)) &&
            (i < |f.value.params| && f.value.params[i] == x && x !in f.value.params[i + 1..] ==>
               Get(st2, ctx, x) == Ok(ArgOrFalse(a.vals, i)))
  {
    CallOrder(fuel, func, args, env, st);
    var f := Eval(fuel, func, env, st);
    var a := ArgValues(fuel, args, env, f.store, [], 0);
    CallScope(a.store, f.value.env, f.value.params, a.vals, x, i);
  }

  /** Past the first binding, the `let` loop is the loop of the `let` without it. */
  lemma {:induction false} DeclarationShift(fuel: nat, e: Node, scope: nat, st: Store, i: nat)
    requires e.Declaration? && 1 <= i <= |e.bindings|
    ensures EvalDeclaration(fuel, e, scope, st, i) ==
            EvalDeclaration(fuel, Declaration(e.bindings[1..], e.body), scope, st, i - 1)
    decreases |e.bindings| - i
  {
    var e' := Declaration(e.bindings[1..], e.body);
    if i < |e.bindings| {
      var b := e.bindings[i];
      assert e'.bindings[i - 1] == b;
      match b.def
      case Some(def) =>
        var d := Eval(fuel, def, scope, st);
        if d.Done? {
          var (g, st1) := Extend(d.store, scope);
          DeclarationShift(fuel, e, g, Define(st1, g, b.name, d.value), i + 1);
        }
      case None =>
        var (g, st1) := Extend(st, scope);
        DeclarationShift(fuel, e, g, Define(st1, g, b.name, BoolV(false)), i + 1);
    }
  }

  /** `let` with no bindings is its body. */
  lemma LetNoBindings(fuel: nat, body: Node, env: nat, st: Store)
    ensures Eval(fuel, Declaration([], body), env, st) == Eval(fuel, body, env, st)
  {
  }

  /**
   * The first binding of a `let`: its definition (or `false`) is evaluated in
   * the outer scope, and a definition that does not finish with a value is
   * the outcome.  Otherwise the rest of the `let` runs in a new frame, child
   * of that scope, binding the name to the value.
   */
  lemma LetFirstBinding(fuel: nat, b: Binding, rest: seq<Binding>, body: Node, env: nat, st: Store)
    ensures var d := if b.def.Some? then Eval(fuel, b.def.value, env, st) else Done(BoolV(false), st);
            !d.Done? ==> Eval(fuel, Declaration([b] + rest, body), env, st) == d
    ensures var d := if b.def.Some? then Eval(fuel, b.def.value, env, st) else Done(BoolV(false), st);
            d.Done? ==>
              var (g, st1) := Extend(d.store, env);
              Eval(fuel, Declaration([b] + rest, body), env, st) ==
              Eval(fuel, Declaration(rest, body), g, Define(st1, g, b.name, d.value))
  {
    var e := Declaration([b] + rest, body);
    assert e.bindings[0] == b && e.bindings[1..] == rest;
    var d := if b.def.Some? then Eval(fuel, b.def.value, env, st) else Done(BoolV(false), st);
    if d.Done? {
      var (g, st1) := Extend(d.store, env);
      DeclarationShift(fuel, e, g, Define(st1, g, b.name, d.value), 1);
    }
  }

  /**
   * A one-binding `let`: its body runs in a frame that sees the name bound to
   * the definition's value and every other name as the outer scope sees it.
   */
  lemma LetOneBinding(fuel: nat, x: string, def: Node, body: Node, env: nat, st: Store, y: string)
    requires var d := Eval(fuel, def, env, st); d.Done? && env < |d.store.frames|
    ensures var d := Eval(fuel, def, env, st);
            var (g, st1) := Extend(d.store, env);
            var st2 := Define(st1, g, x, d.value);
            Eval(fuel, Declaration([Binding(x, Some(def))], body), env, st) == Eval(fuel, body, g, st2) &&
            Get(st2, g, x) == Ok(d.value) && (y != x ==> Get(st2, g, y) == Get(d.store, env, y))
  {
    var d := Eval(fuel, def, env, st);
    LetFirstBinding(fuel, Binding(x, Some(def)), [], body, env, st);
    assert [Binding(x, Some(def))] + [] == [Binding(x, Some(def))];
    var (g, st1) := Extend(d.store, env);
    LetNoBindings(fuel, body, g, Define(st1, g, x, d.value));
    ShadowNotMutate(d.store, env, x, d.value, y);
  }
}
