/** Facts about products and quotients of reals that the geometry proofs call by name. */
module Algebra {

  lemma Cancel(u: real, v: real, d: real)
    requires d != 0.0 && u * d == v * d
    ensures u == v
  {
  }

  lemma Quotient(n: real, d: real)
    requires d != 0.0
    ensures (n / d) * d == n
  {
  }

  lemma Monotone(a: real, b: real, d: real)
    requires a <= b && 0.0 <= d
    ensures a * d <= b * d
  {
  }

  lemma Scaled(a: real, b: real, d: real)
    requires d > 0.0
    ensures a * d < b * d <==> a < b
    ensures a * d <= b * d <==> a <= b
  {
    assert a < b ==> (b - a) * d > 0.0;
    assert a >= b ==> (a - b) * d >= 0.0;
    assert a > b ==> (a - b) * d > 0.0;
  }

  lemma FractionIsProper(n: real, d: real)
    requires 0.0 <= n < d
    ensures 0.0 <= n / d < 1.0
    ensures (n / d) * d == n
  {
    var t := n / d;
    assert t * d == n;
    assert t >= 1.0 ==> t * d >= d;
    assert t < 0.0 ==> t * d < 0.0;
  }

  lemma WholeParts(n: real, q: real, w: real, d: real)
    requires d > 0.0 && q * d == n && w <= q < w + 1.0
    ensures 0.0 <= n - w * d < d
  {
    var part := n - w * d;
    assert part == (q - w) * d by {
      MinusTimes(q, w, d);
    }
    ProperPart(part, q - w, d);
  }

  lemma ProperPart(part: real, x: real, d: real)
    requires 0.0 <= x < 1.0 && d > 0.0 && part == x * d
    ensures 0.0 <= part < d
  {
    Scaled(x, 1.0, d);
  }

  lemma MinusTimes(q: real, w: real, d: real)
    ensures (q - w) * d == q * d - w * d
  {
  }

  lemma SquareIsNonNegative(a: real)
    ensures a * a >= 0.0
    ensures a != 0.0 ==> a * a > 0.0
  {
    if a > 0.0 {
      assert a * a > 0.0;
    } else if a < 0.0 {
      assert (-a) * (-a) > 0.0;
    }
  }

  lemma SumOfSquaresIsPositive(x: real, y: real)
    requires x != 0.0 || y != 0.0
    ensures x * x + y * y > 0.0
  {
    SquareIsNonNegative(x);
    SquareIsNonNegative(y);
  }

  lemma SquaresGrow(a: real, b: real)
    requires 0.0 <= a <= b
    ensures a * a <= b * b
  {
    assert a * a <= a * b <= b * b;
  }

  lemma PositiveProduct(a: real, b: real)
    requires a > 0.0 && b > 0.0
    ensures a * b > 0.0
  {
  }

  lemma DifferenceOfSquares(a: real, b: real)
    ensures (a - b) * (a + b) == a * a - b * b
  {
  }

  lemma SquaresCompare(a: real, b: real)
    requires 0.0 <= a && 0.0 <= b
    ensures a * a <= b * b <==> a <= b
  {
    if a <= b {
      SquaresGrow(a, b);
    } else {
      PositiveProduct(a - b, a + b);
      DifferenceOfSquares(a, b);
    }
  }

  lemma SquareOfDifference(u: real, s: real, d: real)
    ensures (u - s * d) * (u - s * d) == u * u - 2.0 * s * (u * d) + s * s * (d * d)
  {
  }

  lemma Gather(s: real, a: real, b: real, c: real, e: real)
    ensures 2.0 * s * a + 2.0 * s * b == 2.0 * s * (a + b)
    ensures s * s * c + s * s * e == s * s * (c + e)
  {
  }

  lemma CompareAreas(a: real, b: real, d: real, w: real, h: real)
    requires d > 0.0 && w == a * d && h == b * d
    ensures w * h < d * d * 4.0 <==> a * b < 4.0
  {
    assert w * h == ((a * b) * d) * d;
    Scaled((a * b) * d, 4.0 * d, d);
    Scaled(a * b, 4.0, d);
  }

  lemma ProductOfIntegers(m: int, n: int)
    ensures m as real * n as real == (m * n) as real
  {
  }

  lemma FractionsGrow(a: real, b: real, w: real)
    requires w > 0.0 && 0.0 <= a <= b
    ensures 0.0 <= a / w <= b / w
    ensures a / w == b / w ==> a == b
  {
    var x, y := a / w, b / w;
    assert x * w == a && y * w == b;
    Scaled(x, y, w);
    Scaled(0.0, x, w);
  }

  lemma WholeFraction(w: real)
    requires w != 0.0
    ensures w / w == 1.0
  {
  }
}
