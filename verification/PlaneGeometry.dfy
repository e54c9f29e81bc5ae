/** Distances in the plane, compared without square roots. */
module PlaneGeometry {
  type Point = (real, real)

  function DistanceSquared(a: Point, b: Point): real {
    (a.0 - b.0) * (a.0 - b.0) + (a.1 - b.1) * (a.1 - b.1)
  }

  /** The distance is at most `r`; no distance is at most a negative number. */
  predicate Within(a: Point, b: Point, r: real) {
    r >= 0.0 && DistanceSquared(a, b) <= r * r
  }

  /** The point that far of the way from `a` to `b`. */
  function Blend(alpha: real, a: Point, b: Point): Point {
    ((1.0 - alpha) * a.0 + alpha * b.0, (1.0 - alpha) * a.1 + alpha * b.1)
  }

  lemma SquareNotNegative(x: real)
    ensures x * x >= 0.0
  {
  }

  lemma ProductMonotone(a: real, b: real, c: real, d: real)
    requires 0.0 <= a <= b && 0.0 <= c <= d
    ensures 0.0 <= a * c <= b * d
  {
    assert a * c <= b * c;
    assert b * c <= b * d;
  }

  lemma SquareOrder(a: real, b: real)
    requires b >= 0.0 && a * a <= b * b
    ensures a <= b
  {
    if a > b {
      SquareStrict(a, b);
    }
  }

  lemma SquareStrict(a: real, b: real)
    requires a > b >= 0.0
    ensures a * a > b * b
  {
    ProductPositive(a - b, a + b);
    assert (a - b) * (a + b) == a * a - b * b;
  }

  lemma ProductPositive(x: real, y: real)
    requires x > 0.0 && y > 0.0
    ensures x * y > 0.0
  {
  }

  /** `(u . v)^2 <= |u|^2 |v|^2`, as the square that is left over. */
  lemma CauchySchwarz(x: real, y: real, z: real, w: real)
    ensures (x * z + y * w) * (x * z + y * w) <= (x * x + y * y) * (z * z + w * w)
  {
    SquareNotNegative(x * w - y * z);
    assert (x * x + y * y) * (z * z + w * w)
        == (x * z + y * w) * (x * z + y * w) + (x * w - y * z) * (x * w - y * z);
  }

  lemma InnerProductBound(x: real, y: real, z: real, w: real, r: real, s: real)
    requires r >= 0.0 && s >= 0.0 && x * x + y * y <= r * r && z * z + w * w <= s * s
    ensures x * z + y * w <= r * s
  {
    var p, a, b, rr, ss := x * z + y * w, x * x + y * y, z * z + w * w, r * r, s * s;
    CauchySchwarz(x, y, z, w);
    SquareNotNegative(x);
    SquareNotNegative(y);
    SquareNotNegative(z);
    SquareNotNegative(w);
    ProductMonotone(a, rr, b, ss);
    assert rr * ss == (r * s) * (r * s);
    ProductMonotone(0.0, r, 0.0, s);
    SquareOrder(p, r * s);
  }

  lemma Triangle(a: Point, b: Point, c: Point, r: real, s: real)
    requires Within(a, b, r) && Within(b, c, s)
    ensures Within(a, c, r + s)
  {
    var x, y, z, w := a.0 - b.0, a.1 - b.1, b.0 - c.0, b.1 - c.1;
    InnerProductBound(x, y, z, w, r, s);
    SumSquared(x, z);
    SumSquared(y, w);
    SumSquared(r, s);
    assert a.0 - c.0 == x + z && a.1 - c.1 == y + w;
  }

  lemma SumSquared(x: real, y: real)
    ensures (x + y) * (x + y) == x * x + 2.0 * (x * y) + y * y
  {
  }

  lemma WithinSelf(a: Point, r: real)
    requires r >= 0.0
    ensures Within(a, a, r)
  {
    SquareNotNegative(r);
  }

  lemma WithinMore(a: Point, b: Point, r: real, s: real)
    requires Within(a, b, r) && r <= s
    ensures Within(a, b, s)
  {
    ProductMonotone(r, s, r, s);
  }

  lemma NegatedSquare(x: real)
    ensures (-x) * (-x) == x * x
  {
  }

  /** Going part of the way is no longer than going all of it, as long as the part is at most one. */
  lemma BlendWithin(alpha: real, a: Point, b: Point, r: real)
    requires -1.0 <= alpha <= 1.0 && Within(b, a, r)
    ensures Within(Blend(alpha, a, b), a, r)
  {
    var x, y, d := b.0 - a.0, b.1 - a.1, DistanceSquared(b, a);
    var p := Blend(alpha, a, b);
    BlendPart(alpha, a.0, b.0, x, p.0 - a.0);
    BlendPart(alpha, a.1, b.1, y, p.1 - a.1);
    SquareNotNegative(x);
    SquareNotNegative(y);
    var aa := alpha * alpha;
    AtMostOne(alpha, aa);
    assert DistanceSquared(p, a) == aa * d by {
      assert aa * d == aa * (x * x) + aa * (y * y);
    }
    ProductMonotone(0.0, 1.0 - aa, 0.0, d);
    assert (1.0 - aa) * d == d - aa * d;
  }

  lemma BlendPart(alpha: real, a: real, b: real, x: real, moved: real)
    requires x == b - a && moved == ((1.0 - alpha) * a + alpha * b) - a
    ensures moved == alpha * x && moved * moved == (alpha * alpha) * (x * x)
  {
    assert moved == alpha * x;
  }

  lemma AtMostOne(alpha: real, square: real)
    requires -1.0 <= alpha <= 1.0 && square == alpha * alpha
    ensures 0.0 <= square <= 1.0
  {
    SquareNotNegative(alpha);
    assert (1.0 - alpha) * (1.0 + alpha) >= 0.0 by { ProductMonotone(0.0, 1.0 - alpha, 0.0, 1.0 + alpha); }
    assert (1.0 - alpha) * (1.0 + alpha) == 1.0 - square;
  }
}
