/** Facts about products and quotients of reals, stated once over plain
    variables so that the proofs that use them stay linear. */
module RealArith {

  lemma MulNonnegative(x: real, y: real)
    requires 0.0 <= x && 0.0 <= y
    ensures 0.0 <= x * y
  {
  }

  lemma MulMonotone(x: real, y: real, z: real)
    requires 0.0 <= x && y <= z
    ensures x * y <= x * z
  {
    MulNonnegative(x, z - y);
    assert x * (z - y) == x * z - x * y;
  }

  /** Scaling a positive `x` by a factor in [0,1) stays in [0, x). */
  lemma MulFractionBelow(x: real, e: real)
    requires 0.0 < x && 0.0 <= e < 1.0
    ensures 0.0 <= x * e < x
  {
    MulNonnegative(x, e);
    assert x * (1.0 - e) == x - x * e;
    assert 0.0 < x * (1.0 - e);
  }

  /** A square of a number in [0,1] lies in [0, that number]. */
  lemma SquareAtMostSelf(x: real)
    requires 0.0 <= x <= 1.0
    ensures 0.0 <= x * x <= x
  {
    MulNonnegative(x, x);
    MulMonotone(x, x, 1.0);
  }

  lemma SquareMonotone(w: real, u: real)
    requires 0.0 <= w <= u
    ensures w * w <= u * u
  {
    MulMonotone(w, w, u);
    MulMonotone(u, w, u);
    assert w * u == u * w;
  }

  /** `v` lies between `a` and `b`, in either order. */
  predicate Between(v: real, a: real, b: real)
  {
    (a <= v <= b) || (b <= v <= a)
  }

  /** Moving from `a` towards `b` by a fraction `e` of the distance stays between them. */
  lemma StepBetween(a: real, b: real, e: real)
    requires 0.0 <= e <= 1.0
    ensures Between(a + (b - a) * e, a, b)
  {
    var d := b - a;
    if d >= 0.0 {
      MulNonnegative(d, e);
      MulNonnegative(d, 1.0 - e);
      assert d * (1.0 - e) == d - d * e;
      assert a <= a + d * e <= b;
    } else {
      MulNonnegative(-d, e);
      MulNonnegative(-d, 1.0 - e);
      assert (-d) * (1.0 - e) == d * e - d;
      assert (-d) * e == -(d * e);
      assert b <= a + d * e <= a;
    }
  }

  lemma DivNonnegative(n: real, d: real)
    requires 0.0 <= n && 0.0 < d
    ensures 0.0 <= n / d
  {
  }

  /** Dividing by a positive number keeps order. */
  lemma DivMonotone(n1: real, n2: real, d: real)
    requires n1 <= n2 && 0.0 < d
    ensures n1 / d <= n2 / d
  {
    DivNonnegative(n2 - n1, d);
    assert (n2 - n1) / d == n2 / d - n1 / d;
  }

  /** Dividing by a positive number keeps strict order. */
  lemma DivStrictMonotone(n1: real, n2: real, d: real)
    requires n1 < n2 && 0.0 < d
    ensures n1 / d < n2 / d
  {
    var q := (n2 - n1) / d;
    assert q * d == n2 - n1;
    DivNonnegative(n2 - n1, d);
    assert q != 0.0;
    assert q == n2 / d - n1 / d;
  }

  /** A quotient of a part by the whole lies in [0,1]. */
  lemma DivUnit(n: real, d: real)
    requires 0.0 <= n <= d && 0.0 < d
    ensures 0.0 <= n / d <= 1.0
  {
    DivNonnegative(n, d);
    DivMonotone(n, d, d);
  }
}
