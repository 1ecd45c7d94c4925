/** Small facts of real arithmetic the bounds proofs use, stated one step at a time so
    that the callers only need linear reasoning. */
module RealArith {

  lemma Distribute(d: real, u: real)
    ensures d * (1.0 - u) == d - d * u
  {
  }

  lemma MulNonneg(x: real, y: real)
    requires x >= 0.0 && y >= 0.0
    ensures x * y >= 0.0
  {
  }

  lemma MulPos(x: real, y: real)
    requires x > 0.0 && y > 0.0
    ensures x * y > 0.0
  {
  }

  lemma DivUnit(x: real, y: real)
    requires 0.0 <= x < y
    ensures 0.0 <= x / y < 1.0
  {
  }

  lemma MulDivCancel(x: real, y: real)
    requires y != 0.0
    ensures y * (x / y) == x
  {
  }

  lemma DivMonotone(a: real, b: real, c: real)
    requires a <= b && c > 0.0
    ensures a / c <= b / c
  {
  }
}
