/** Facts about products of reals that the solver does not find on its own:
    each is proved by explicit monotonicity steps. */
module RealArith {

  /** A non-negative root is below a positive radius exactly when its square
      is below the radius squared. */
  lemma RootBelowRadius(s: real, d: real, radius: real)
    requires 0.0 <= d && d * d == s && 0.0 < radius
    ensures d < radius <==> s < radius * radius
  {
    if d < radius {
      MultiplyBelow(d, d, radius);
      MultiplyBelow(radius, d, radius);
      calc {
        s;
        == d * d;
        <= d * radius;
        == radius * d;
        < radius * radius;
      }
    } else {
      MultiplyBelow(radius, radius, d);
      MultiplyBelow(d, radius, d);
      calc {
        radius * radius;
        <= radius * d;
        == d * radius;
        <= d * d;
        == s;
      }
    }
  }

  /** The only non-negative root of 0 is 0. */
  lemma ZeroRoot(d: real)
    requires 0.0 <= d && d * d == 0.0
    ensures d == 0.0
  {
    if d > 0.0 {
      MultiplyBelow(d, 0.0, d);
      calc {
        0.0;
        == d * 0.0;
        < d * d;
        == 0.0;
      }
      assert false;
    }
  }

  lemma MultiplyBelow(c: real, a: real, b: real)
    requires 0.0 <= c && a <= b
    ensures c * a <= c * b
    ensures 0.0 < c && a < b ==> c * a < c * b
  {
  }

  /** p * q is positive for positive p and q. */
  lemma PositiveProduct(p: real, q: real)
    requires 0.0 < p && 0.0 < q
    ensures 0.0 < p * q
  {
    MultiplyBelow(p, 0.0, q);
    calc { 0.0; == p * 0.0; < p * q; }
  }

  /** x * x is never negative, and positive unless x is 0. */
  lemma SquareNonNegative(x: real)
    ensures 0.0 <= x * x
    ensures x != 0.0 ==> 0.0 < x * x
  {
    if x > 0.0 {
      PositiveProduct(x, x);
    } else if x < 0.0 {
      PositiveProduct(-x, -x);
      calc { x * x; == (-x) * (-x); }
    }
  }

  /** Scaling by a fraction in [0, 1] keeps a number between 0 and itself. */
  lemma ScaleByFraction(d: real, f: real)
    requires 0.0 <= f <= 1.0
    ensures 0.0 <= d ==> 0.0 <= d * f <= d
    ensures d <= 0.0 ==> d <= d * f <= 0.0
  {
    if 0.0 <= d {
      MultiplyBelow(d, 0.0, f);
      MultiplyBelow(d, f, 1.0);
      calc { 0.0; == d * 0.0; <= d * f; <= d * 1.0; == d; }
    } else {
      MultiplyBelow(-d, 0.0, f);
      MultiplyBelow(-d, f, 1.0);
      calc { 0.0; == (-d) * 0.0; <= (-d) * f; <= (-d) * 1.0; == -d; }
      calc { d * f; == -((-d) * f); }
    }
  }
}
