/**
 * Runtime values and the environment: a store of frames, each holding the
 * bindings of one scope and a link to its parent scope.  Closures refer to
 * frames by index, so frames shared between closures are shared by
 * construction and an assignment through one closure is seen by all.
 */
module Environment {
  import opened Wrappers
  import opened Ast

  /**
   * A value of the language.  JavaScript numbers are modelled as exact reals
   * (no rounding).  A closure carries the identity it was created with, so
   * that `===` on closures is identity comparison.
   */
  datatype Value =
    | Num(n: real)
    | StrV(s: string)
    | BoolV(b: bool)
    | Closure(id: nat, env: nat, params: seq<string>, body: Node)

  /** The errors the evaluator raises, one per message of the error table. */
  datatype EvalError =
    | UndefinedVar(name: string)   // no frame on the chain binds the name
    | ExpectVar                    // assignment to something that is not a variable
    | CannotEval                   // a node type the evaluator has no case for
    | NaN                          // arithmetic or comparison on a non-number
    | ZeroDivision                 // `/` or `%` by zero
    | UnknownOp(op: string)        // operator outside the operator table
    | NotCallable                  // calling a value that is not a closure

  datatype Frame = Frame(vars: map<string, Value>, parent: Option<nat>)

  /** All frames created so far, by index, and the number of closures created so far. */
  datatype Store = Store(frames: seq<Frame>, closures: nat)

  /** A store holding only the global frame, with the given host bindings. */
  function Global(bindings: map<string, Value>): (st: Store)
    ensures |st.frames| == 1 && st.frames[0].parent.None?
  {
    Store([Frame(bindings, None)], 0)
  }

  /**
   * The scope chain from frame `f` up to the global frame.  Frames only ever
   * point to older frames (`extend` appends the child after its parent), so
   * the walk stops at a link that does not.
   */
  function Chain(st: Store, f: nat): (c: seq<nat>)
    ensures forall g <- c :: g <= f && g < |st.frames|
    ensures f < |st.frames| ==> |c| > 0 && c[0] == f
    decreases f
  {
    if f >= |st.frames| then []
    else match st.frames[f].parent
      case Some(p) => if p < f then [f] + Chain(st, p) else [f]
      case None => [f]
  }

  /** The frame that `get` and `set` act on: the nearest frame on the chain that binds `name`. */
  function Owner(st: Store, f: nat, name: string): (r: Option<nat>)
    ensures r.Some? ==> r.value in Chain(st, f) && name in st.frames[r.value].vars
    ensures r.Some? ==> forall g <- Chain(st, f) :: g > r.value ==> name !in st.frames[g].vars
    ensures r.None? ==> forall g <- Chain(st, f) :: name !in st.frames[g].vars
    decreases f
  {
    if f >= |st.frames| then None
    else if name in st.frames[f].vars then Some(f)
    else match st.frames[f].parent
      case Some(p) => if p < f then Owner(st, p, name) else None
      case None => None
  }

  /** `env.get(name)`: the value of the nearest binding, or UndefinedVar. */
  function Get(st: Store, f: nat, name: string): (r: Result<Value, EvalError>)
    ensures r.Ok? ==> exists g <- Chain(st, f) ::
      && name in st.frames[g].vars && r.value == st.frames[g].vars[name]
      && forall h <- Chain(st, f) :: h > g ==> name !in st.frames[h].vars
    ensures r.Err? ==> r.error == UndefinedVar(name) && forall g <- Chain(st, f) :: name !in st.frames[g].vars
  {
    match Owner(st, f, name)
    case Some(g) => Ok(st.frames[g].vars[name])
    case None => Err(UndefinedVar(name))
  }

  /** `extend()`: a new, empty frame whose parent is `f`. */
  function Extend(st: Store, f: nat): (r: (nat, Store))
    ensures r.0 == |st.frames| && |r.1.frames| == |st.frames| + 1
    ensures r.1.frames[..|st.frames|] == st.frames && r.1.closures == st.closures
    ensures r.1.frames[r.0] == Frame(map[], Some(f))
  {
    (|st.frames|, Store(st.frames + [Frame(map[], Some(f))], st.closures))
  }

  /** `define(name, v)` on frame `g`: binds in that frame only, overwriting a binding of the same name. */
  function Define(st: Store, g: nat, name: string, v: Value): (r: Store)
    requires g < |st.frames|
    ensures |r.frames| == |st.frames| && r.closures == st.closures
    ensures r.frames[g].vars == st.frames[g].vars[name := v] && r.frames[g].parent == st.frames[g].parent
    ensures forall h | 0 <= h < |st.frames| && h != g :: r.frames[h] == st.frames[h]
  {
    st.(frames := st.frames[g := Frame(st.frames[g].vars[name := v], st.frames[g].parent)])
  }

  /**
   * `env.set(name, v)`: overwrites the nearest binding.  It fails exactly when
   * `get` fails, never creates a binding, and changes nothing but that one binding.
   */
  function Set(st: Store, f: nat, name: string, v: Value): (r: Result<Store, EvalError>)
    ensures r.Ok? <==> Get(st, f, name).Ok?
    ensures r.Err? ==> r.error == UndefinedVar(name)
    ensures r.Ok? ==> SameShape(st, r.value) && r.value.closures == st.closures
    ensures r.Ok? ==> forall g, x | 0 <= g < |st.frames| && x in st.frames[g].vars && x != name ::
                        r.value.frames[g].vars[x] == st.frames[g].vars[x]
    ensures r.Ok? ==> Owner(st, f, name).Some? &&
                      var g := Owner(st, f, name).value;
                      && r.value.frames[g].vars == st.frames[g].vars[name := v]
                      && forall h | 0 <= h < |st.frames| && h != g :: r.value.frames[h] == st.frames[h]
  {
    match Owner(st, f, name)
    case Some(g) => Ok(Define(st, g, name, v))
    case None => Err(UndefinedVar(name))
  }

  /** Two stores with the same frames, binding the same names, with the same parents. */
  ghost predicate SameShape(st: Store, st': Store) {
    |st.frames| == |st'.frames| && AgreeBelow(st, st', |st.frames|)
  }

  /** Frames below index `n` exist in `st'`, bind the same names and have the same parents as in `st`. */
  ghost predicate AgreeBelow(st: Store, st': Store, n: nat) {
    n <= |st.frames| && n <= |st'.frames| &&
    forall g | 0 <= g < n :: st'.frames[g].vars.Keys == st.frames[g].vars.Keys && st'.frames[g].parent == st.frames[g].parent
  }

  /** What evaluation may do to the store: add frames and closures, and overwrite bindings. */
  ghost predicate Grows(st: Store, st': Store) {
    AgreeBelow(st, st', |st.frames|) && st.closures <= st'.closures
  }

  lemma GrowsTransitive(st1: Store, st2: Store, st3: Store)
    requires Grows(st1, st2) && Grows(st2, st3)
    ensures Grows(st1, st3)
  {
  }

  /** Which frame a lookup reaches depends only on which names the frames bind and on their parents. */
  lemma {:induction false} OwnerAgree(st: Store, st': Store, f: nat, name: string)
    requires f < |st.frames| && AgreeBelow(st, st', f + 1)
    ensures Owner(st', f, name) == Owner(st, f, name)
    ensures Chain(st', f) == Chain(st, f)
    decreases f
  {
    match st.frames[f].parent
    case Some(p) =>
      if p < f {
        OwnerAgree(st, st', p, name);
      }
    case None =>
  }

  /** After a successful `set`, `get` of the same name from the same frame yields the new value. */
  lemma GetAfterSet(st: Store, f: nat, name: string, v: Value)
    requires Set(st, f, name, v).Ok?
    ensures Get(Set(st, f, name, v).value, f, name) == Ok(v)
  {
    var st' := Set(st, f, name, v).value;
    OwnerAgree(st, st', f, name);
  }

  /** Extending never changes what is visible from the frames that already existed. */
  lemma ExtendKeepsLookups(st: Store, f: nat, g: nat, name: string)
    requires g < |st.frames|
    ensures Get(Extend(st, f).1, g, name) == Get(st, g, name)
  {
    OwnerAgree(st, Extend(st, f).1, g, name);
  }

  /**
   * A binding defined in a fresh child frame shadows the same name for lookups
   * from the child, while lookups from the parent still see the outer binding:
   * a nested `let` of the same name shadows, it does not mutate.
   */
  lemma ShadowNotMutate(st: Store, f: nat, name: string, v: Value, other: string)
    requires f < |st.frames|
    ensures var (g, st1) := Extend(st, f);
            var st2 := Define(st1, g, name, v);
            Get(st2, g, name) == Ok(v) &&
            Get(st2, f, name) == Get(st, f, name) &&
            (other != name ==> Get(st2, g, other) == Get(st, f, other))
  {
    var (g, st1) := Extend(st, f);
    var st2 := Define(st1, g, name, v);
    OwnerAgree(st, st2, f, name);
    OwnerAgree(st, st2, f, other);
  }
}
