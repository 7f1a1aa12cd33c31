/**
 * The operator table of the interpreter (`applyOperator`): arithmetic and
 * comparison with a number check on each operand, a zero check on the
 * divisor of `/` and `%`, value-returning `&&` and `||`, and identity
 * equality.
 */
module Operators {
  import opened Wrappers
  import opened Environment

  /** Operators whose operands must both be numbers. */
  predicate IsNumeric(op: string) {
    op in {"+", "-", "*", "/", "%", "<", ">", "<=", ">="}
  }

  /** Operators with a zero check on the right operand. */
  predicate IsDivision(op: string) {
    op in {"/", "%"}
  }

  predicate IsKnown(op: string) {
    IsNumeric(op) || op in {"&&", "||", "==", "!="}
  }

  /** A real rounded toward zero, as JavaScript's `%` rounds its quotient. */
  function Trunc(x: real): int {
    if x >= 0.0 then x.Floor else -((-x).Floor)
  }

  /** JavaScript's `%`: the remainder of the quotient truncated toward zero (not Dafny's Euclidean `%`). */
  function JsRemainder(a: real, b: real): real
    requires b != 0.0
  {
    a - b * (Trunc(a / b) as real)
  }

  function Abs(x: real): real {
    if x < 0.0 then -x else x
  }

  /**
   * `enforceInteger`: the operand itself when it is a number, NaN otherwise.
   */
  function EnforceNumber(v: Value): (r: Result<real, EvalError>)
    ensures r.Ok? <==> v.Num?
    ensures r.Ok? ==> r.value == v.n
    ensures r.Err? ==> r.error == NaN
  {
    if v.Num? then Ok(v.n) else Err(NaN)
  }

  /** `enforceLeftRing`: the number check first, then the zero check. */
  function EnforceDivisor(v: Value): (r: Result<real, EvalError>)
    ensures r.Ok? <==> v.Num? && v.n != 0.0
    ensures r.Ok? ==> r.value == v.n
    ensures r.Err? ==> r.error == (if v.Num? then ZeroDivision else NaN)
  {
    var n :- EnforceNumber(v);
    if n == 0.0 then Err(ZeroDivision) else Ok(n)
  }

  /**
   * `applyOperator(op, a, b)`.  The left operand is checked before the right
   * one, so a non-number on the left wins over a zero divisor on the right.
   */
  function ApplyOperator(op: string, a: Value, b: Value): (r: Result<Value, EvalError>)
    ensures IsNumeric(op) ==> (r == Err(NaN) <==> !a.Num? || !b.Num?)
    ensures IsDivision(op) ==> (r == Err(ZeroDivision) <==> a.Num? && b.Num? && b.n == 0.0)
    ensures IsNumeric(op) ==> (r.Ok? <==> a.Num? && b.Num? && !(IsDivision(op) && b.n == 0.0))
    ensures IsNumeric(op) && r.Ok? ==> (r.value.Num? <==> op in {"+", "-", "*", "/", "%"})
    ensures op == "+" && r.Ok? ==> r.value == Num(a.n + b.n)
    ensures op == "-" && r.Ok? ==> r.value == Num(a.n - b.n)
    ensures op == "*" && r.Ok? ==> r.value == Num(a.n * b.n)
    ensures op == "/" && r.Ok? ==> b.n != 0.0 && r.value == Num(a.n / b.n)
    ensures op == "%" && r.Ok? ==> b.n != 0.0 && r.value == Num(JsRemainder(a.n, b.n))
    ensures op == "<" && r.Ok? ==> r.value == BoolV(a.n < b.n)
    ensures op == ">" && r.Ok? ==> r.value == BoolV(a.n > b.n)
    ensures op == "<=" && r.Ok? ==> r.value == BoolV(a.n <= b.n)
    ensures op == ">=" && r.Ok? ==> r.value == BoolV(a.n >= b.n)
    ensures op == "&&" ==> r == Ok(if a == BoolV(false) then BoolV(false) else b)
    ensures op == "||" ==> r == Ok(if a != BoolV(false) then a else b)
    ensures op == "==" ==> r == Ok(BoolV(a == b))
    ensures op == "!=" ==> r == Ok(BoolV(a != b))
    ensures r.Err? && r.error.UnknownOp? <==> !IsKnown(op)
    ensures r.Err? && r.error.UnknownOp? ==> r.error.op == op
  {
    match op
    case "+" => var x :- EnforceNumber(a); var y :- EnforceNumber(b); Ok(Num(x + y))
    case "-" => var x :- EnforceNumber(a); var y :- EnforceNumber(b); Ok(Num(x - y))
    case "*" => var x :- EnforceNumber(a); var y :- EnforceNumber(b); Ok(Num(x * y))
    case "/" => var x :- EnforceNumber(a); var y :- EnforceDivisor(b); Ok(Num(x / y))
    case "%" => var x :- EnforceNumber(a); var y :- EnforceDivisor(b); Ok(Num(JsRemainder(x, y)))
    case "&&" => Ok(if a != BoolV(false) then b else BoolV(false))
    case "||" => Ok(if a != BoolV(false) then a else b)
    case "<" => var x :- EnforceNumber(a); var y :- EnforceNumber(b); Ok(BoolV(x < y))
    case ">" => var x :- EnforceNumber(a); var y :- EnforceNumber(b); Ok(BoolV(x > y))
    case "<=" => var x :- EnforceNumber(a); var y :- EnforceNumber(b); Ok(BoolV(x <= y))
    case ">=" => var x :- EnforceNumber(a); var y :- EnforceNumber(b); Ok(BoolV(x >= y))
    case "==" => Ok(BoolV(a == b))
    case "!=" => Ok(BoolV(a != b))
    case _ => Err(UnknownOp(op))
  }

  /**
   * The remainder is smaller than the divisor in magnitude, is zero or has the
   * sign of the dividend, and differs from the dividend by a whole multiple of
   * the divisor.
   */
  lemma RemainderProperties(a: real, b: real)
    requires b != 0.0
    ensures Abs(JsRemainder(a, b)) < Abs(b)
    ensures JsRemainder(a, b) == 0.0 || (JsRemainder(a, b) > 0.0 <==> a > 0.0)
    ensures ((a - JsRemainder(a, b)) / b).Floor as real == (a - JsRemainder(a, b)) / b
  {
    var q := a / b;
    var t := Trunc(q);
    var d := q - t as real;
    var r := JsRemainder(a, b);
    assert r == b * d && a == b * q && a - r == b * (t as real) by { RemainderForm(a, b); }
    assert -1.0 < d < 1.0 by { TruncBounds(q); }
    assert Abs(r) < Abs(b) by { Magnitude(b, d); }
    if r != 0.0 {
      assert d != 0.0;
      assert (d > 0.0 ==> q > 0.0) && (d < 0.0 ==> q < 0.0) by { TruncBounds(q); }
      assert r > 0.0 <==> a > 0.0 by { SameSign(b, d, q); }
    }
    assert (a - r) / b == t as real by { DivideBack(b, t as real); }
    assert (t as real).Floor == t;
  }

  lemma RemainderForm(a: real, b: real)
    requires b != 0.0
    ensures JsRemainder(a, b) == b * (a / b - Trunc(a / b) as real)
    ensures a == b * (a / b)
    ensures a - JsRemainder(a, b) == b * (Trunc(a / b) as real)
  {
  }

  lemma TruncBounds(q: real)
    ensures q >= 0.0 ==> 0.0 <= q - Trunc(q) as real < 1.0
    ensures q < 0.0 ==> -1.0 < q - Trunc(q) as real <= 0.0
    ensures q - Trunc(q) as real > 0.0 ==> q > 0.0
    ensures q - Trunc(q) as real < 0.0 ==> q < 0.0
  {
  }

  lemma Magnitude(b: real, d: real)
    requires b != 0.0 && -1.0 < d < 1.0
    ensures Abs(b * d) < Abs(b)
  {
    var m := Abs(b);
    var e := Abs(d);
    var p := m * e;
    assert p >= 0.0 by { ProductNonNegative(m, e); }
    assert p < m by { ProductBelow(m, e); }
    assert b * d == p || b * d == -p;
  }

  lemma SameSign(b: real, d: real, q: real)
    requires b != 0.0 && d != 0.0
    requires d > 0.0 ==> q > 0.0
    requires d < 0.0 ==> q < 0.0
    ensures b * d > 0.0 <==> b * q > 0.0
  {
    if b > 0.0 && d > 0.0 {
      ProductPositive(b, d);
      ProductPositive(b, q);
    } else if b > 0.0 {
      ProductPositive(b, -d);
      ProductPositive(b, -q);
      assert b * d == -(b * (-d));
      assert b * q == -(b * (-q));
    } else if d > 0.0 {
      ProductPositive(-b, d);
      ProductPositive(-b, q);
      assert b * d == -((-b) * d);
      assert b * q == -((-b) * q);
    } else {
      ProductPositive(-b, -d);
      ProductPositive(-b, -q);
      assert b * d == (-b) * (-d);
      assert b * q == (-b) * (-q);
    }
  }

  lemma DivideBack(b: real, x: real)
    requires b != 0.0
    ensures (b * x) / b == x
  {
  }

  lemma ProductBelow(x: real, y: real)
    requires x > 0.0 && 0.0 <= y < 1.0
    ensures x * y < x
  {
    ProductPositive(x, 1.0 - y);
    assert x * (1.0 - y) > 0.0;
  }

  lemma ProductPositive(x: real, y: real)
    requires x > 0.0 && y > 0.0
    ensures x * y > 0.0
  {
  }

  lemma ProductNonNegative(x: real, y: real)
    requires x > 0.0 && y >= 0.0
    ensures x * y >= 0.0
  {
  }

  /** `7 % 2` is 1 and `-7 % 2` is -1: the remainder follows the dividend. */
  lemma RemainderExamples()
    ensures ApplyOperator("%", Num(7.0), Num(2.0)) == Ok(Num(1.0))
    ensures ApplyOperator("%", Num(-7.0), Num(2.0)) == Ok(Num(-1.0))
    ensures ApplyOperator("/", Num(10.0), Num(0.0)) == Err(ZeroDivision)
  {
    assert (3.5).Floor == 3;
    assert Trunc(-3.5) == -3;
  }
}
