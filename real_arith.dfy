/**
 Facts about products and squares of reals, stated one at a time so that
 the proofs elsewhere never ask the solver for nonlinear reasoning.
 */
module RealArith {

  lemma ProductPositive(a: real, b: real)
    requires a > 0.0 && b > 0.0
    ensures a * b > 0.0
  {
  }

  /** The sign of a product from the signs of its factors. */
  lemma MulSign(a: real, b: real)
    ensures a > 0.0 && b > 0.0 ==> a * b > 0.0
    ensures a > 0.0 && b < 0.0 ==> a * b < 0.0
    ensures a < 0.0 && b > 0.0 ==> a * b < 0.0
    ensures a < 0.0 && b < 0.0 ==> a * b > 0.0
    ensures a * b == 0.0 <==> a == 0.0 || b == 0.0
  {
    if a > 0.0 && b > 0.0 { ProductPositive(a, b); }
    if a > 0.0 && b < 0.0 { ProductPositive(a, -b); assert a * b == -(a * (-b)); }
    if a < 0.0 && b > 0.0 { ProductPositive(-a, b); assert a * b == -((-a) * b); }
    if a < 0.0 && b < 0.0 { ProductPositive(-a, -b); assert a * b == (-a) * (-b); }
  }

  /** `x` squared. Kept behind a function so that every square is the same term. */
  function Square(x: real): real { x * x }

  lemma SquareStrictlyMonotone(a: real, b: real)
    requires 0.0 <= a < b
    ensures Square(a) < Square(b)
  {
    var d := b - a;
    MulSign(a, d);
    MulSign(b, d);
    assert Square(b) - Square(a) == b * d + a * d;
  }

  lemma SquareNegate(x: real)
    ensures Square(-x) == Square(x)
  {
  }

  lemma SquareOfZero()
    ensures Square(0.0) == 0.0
  {
  }

  lemma SquarePositive(x: real)
    requires x != 0.0
    ensures Square(x) > 0.0
  {
    SquareOfZero();
    if x < 0.0 {
      SquareStrictlyMonotone(0.0, -x);
      SquareNegate(x);
    } else {
      SquareStrictlyMonotone(0.0, x);
    }
  }

  lemma SquareNonNegative(x: real)
    ensures Square(x) >= 0.0
  {
    if x != 0.0 { SquarePositive(x); } else { SquareOfZero(); }
  }
}
