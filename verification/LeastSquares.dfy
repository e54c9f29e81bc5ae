/** The two fits of the metrology are least-squares fits, and what the calibration refuses. */
module LeastSquares {
  import opened LinearAlgebra
  import opened Metrology
  import opened Options

  // --- One parabola --------------------------------------------------------

  /** A square sum as a function of the fitted number. */
  function Parabola(square: real, mixed: real, rest: real, x: real): real {
    square * (x * x) - 2.0 * (mixed * x) + rest
  }

  /** It is least where the number times the square is the mixed term. */
  lemma LeastAt(square: real, mixed: real, rest: real, x: real, y: real)
    requires square >= 0.0 && x * square == mixed
    ensures Parabola(square, mixed, rest, x) <= Parabola(square, mixed, rest, y)
  {
    var d := y - x;
    assert mixed * x == square * (x * x);
    assert mixed * y == square * (x * y);
    Spread(square, x, y, d);
    Product(square, d);
  }

  lemma Spread(square: real, x: real, y: real, d: real)
    requires d == y - x
    ensures square * (y * y) - 2.0 * (square * (x * y)) + square * (x * x) == square * (d * d)
  {
    assert d * d == y * y - 2.0 * (x * y) + x * x;
  }

  lemma Product(square: real, d: real)
    requires square >= 0.0
    ensures square * (d * d) >= 0.0
  {
    assert d * d >= 0.0;
  }

  // --- How far two planes are from each other ------------------------------

  function Squared(x: real): real { x * x }

  function GapSquared(k: real, u: Vec, v: Vec): real {
    Squared(k * u.x - v.x) + Squared(k * u.y - v.y) + Squared(k * u.z - v.z)
  }

  /** The first two columns of the one plane, in this scale, against those of the other. */
  function Misfit(k: real, elevated: Mat, ground: Mat): real {
    GapSquared(k, elevated.a, ground.a) + GapSquared(k, elevated.b, ground.b)
  }

  lemma SquaredGap(k: real, u: real, v: real)
    ensures Squared(k * u - v) == Parabola(u * u, u * v, v * v, k)
  {
    assert (k * u) * (k * u) == (u * u) * (k * k);
    assert (k * u) * v == (u * v) * k;
  }

  lemma ParabolaSum(a: real, b: real, c: real, d: real, e: real, f: real, k: real)
    ensures Parabola(a, b, c, k) + Parabola(d, e, f, k) == Parabola(a + d, b + e, c + f, k)
  {
  }

  lemma ThreeParabolas(
    a: real, b: real, c: real, d: real, e: real, f: real, g: real, m: real, n: real, h: real)
    ensures Parabola(a, b, c, h) + Parabola(d, e, f, h) + Parabola(g, m, n, h)
         == Parabola(a + d + g, b + e + m, c + f + n, h)
  {
    ParabolaSum(a, b, c, d, e, f, h);
    ParabolaSum(a + d, b + e, c + f, g, m, n, h);
  }

  lemma GapIsParabola(k: real, u: Vec, v: Vec)
    ensures GapSquared(k, u, v) == Parabola(Dot(u, u), Dot(u, v), Dot(v, v), k)
  {
    SquaredGap(k, u.x, v.x);
    SquaredGap(k, u.y, v.y);
    SquaredGap(k, u.z, v.z);
    ThreeParabolas(u.x * u.x, u.x * v.x, v.x * v.x, u.y * u.y, u.y * v.y, v.y * v.y,
                   u.z * u.z, u.z * v.z, v.z * v.z, k);
  }

  lemma DotCommutes(u: Vec, v: Vec)
    ensures Dot(u, v) == Dot(v, u)
  {
  }

  lemma MisfitIsParabola(k: real, elevated: Mat, ground: Mat)
    ensures Misfit(k, elevated, ground)
         == Parabola(Flat(elevated, elevated), Flat(ground, elevated), Flat(ground, ground), k)
  {
    GapIsParabola(k, elevated.a, ground.a);
    GapIsParabola(k, elevated.b, ground.b);
    DotCommutes(elevated.a, ground.a);
    DotCommutes(elevated.b, ground.b);
    ParabolaSum(Dot(elevated.a, elevated.a), Dot(ground.a, elevated.a), Dot(ground.a, ground.a),
                Dot(elevated.b, elevated.b), Dot(ground.b, elevated.b), Dot(ground.b, ground.b), k);
  }

  lemma SameGap(k: real, u: Vec, v: Vec)
    ensures Dot(Sub(Times(k, u), v), Sub(Times(k, u), v)) == GapSquared(k, u, v)
  {
  }

  /** The scale the calibration matches two planes by: no other brings their first columns nearer to each other. */
  function MatchScale(ground: Mat, elevated: Mat): real
    requires Flat(elevated, elevated) != 0.0
  {
    Flat(ground, elevated) / Flat(elevated, elevated)
  }

  lemma ScaleIsBest(ground: Mat, elevated: Mat, k: real)
    requires Flat(elevated, elevated) > 0.0
    ensures Misfit(MatchScale(ground, elevated), elevated, ground) <= Misfit(k, elevated, ground)
  {
    var square, mixed := Flat(elevated, elevated), Flat(ground, elevated);
    var scale := mixed / square;
    assert scale * square == mixed;
    MisfitIsParabola(scale, elevated, ground);
    MisfitIsParabola(k, elevated, ground);
    LeastAt(square, mixed, Flat(ground, ground), scale, k);
  }

  function Reference(ground: Mat): real { Floor(Flat(ground, ground), 0.000000000000000000000001) }

  lemma ResidualIs(ground: Mat, elevated: Mat, k: real)
    ensures ResidualSquared(ground, Scaled(k, elevated)) == Misfit(k, elevated, ground) / Reference(ground)
  {
    SameGap(k, elevated.a, ground.a);
    SameGap(k, elevated.b, ground.b);
  }

  /** The two planes differ by more than the tolerance in whatever scale the elevated one is taken. */
  ghost predicate Disagree(ground: Mat, elevated: Mat, tolerance: real) {
    tolerance < 0.0 || forall k :: Misfit(k, elevated, ground) / Reference(ground) > tolerance * tolerance
  }

  lemma OrderOver(x: real, y: real, d: real)
    requires d > 0.0 && x <= y
    ensures x / d <= y / d
  {
    assert y / d - x / d == (y - x) / d;
    assert (y - x) / d >= 0.0;
  }

  lemma DisagreeAtBest(ground: Mat, elevated: Mat, tolerance: real)
    requires Flat(elevated, elevated) > 0.0
    ensures Disagree(ground, elevated, tolerance) <==>
      tolerance < 0.0
      || ResidualSquared(ground, Scaled(MatchScale(ground, elevated), elevated)) > tolerance * tolerance
  {
    var best := MatchScale(ground, elevated);
    ResidualIs(ground, elevated, best);
    var least, reference := Misfit(best, elevated, ground), Reference(ground);
    forall k ensures least / reference <= Misfit(k, elevated, ground) / reference {
      ScaleIsBest(ground, elevated, k);
      OrderOver(least, Misfit(k, elevated, ground), reference);
    }
  }

  /**
   Two planes that can be matched are refused for disagreeing exactly when no
   scale brings them within the tolerance of each other; a calibration that is
   built has the least possible residual, and a vertical vector that is the
   rest of the way between the two planes at that scale, per centimetre.
   */
  lemma DisagreementExactly(ground: Mat, elevated: Mat, height: real, tolerance: real)
    requires height > 0.0 && Flat(elevated, elevated) > 0.0
    requires Magnitude(MatchScale(ground, elevated)) >= 0.000000000001
    ensures var built := BuildFrom(ground, elevated, height, tolerance);
      && (built == Refused(Disagreeing) <==> Disagree(ground, elevated, tolerance))
      && (built.Built? ==>
            var c, k := built.calibration, MatchScale(ground, elevated);
            && c.ground == ground && c.elevatedHeight == height
            && c.residualSquared == Misfit(k, elevated, ground) / Reference(ground)
            && Times(height, c.vertical) == Sub(Times(k, elevated.c), ground.c))
  {
    DisagreeAtBest(ground, elevated, tolerance);
    ResidualIs(ground, elevated, MatchScale(ground, elevated));
    OverTimes(Sub(Times(MatchScale(ground, elevated), elevated.c), ground.c), height);
  }

  lemma OverTimes(v: Vec, d: real)
    requires d > 0.0
    ensures Times(d, Over(v, d)) == v
  {
    QuotientBack(v.x, d);
    QuotientBack(v.y, d);
    QuotientBack(v.z, d);
  }

  lemma QuotientBack(x: real, d: real)
    requires d != 0.0
    ensures d * (x / d) == x
  {
  }

  // --- The height ----------------------------------------------------------

  /** How far the landmark's ray is from the point at this height, as a squared cross product. */
  function Miss(ground: Vec, vertical: Vec, landmark: Vec, height: real): real {
    var off := Cross(landmark, Add(ground, Times(height, vertical)));
    Dot(off, off)
  }

  /** The sum is the difference in scale `-h`. */
  lemma SumIsParabola(h: real, u: Vec, v: Vec)
    ensures Dot(Add(u, Times(h, v)), Add(u, Times(h, v))) == Parabola(Dot(v, v), Dot(v, u), Dot(u, u), -h)
  {
    GapIsParabola(-h, v, u);
    NegatedGap(h, u, v);
  }

  lemma NegatedGap(h: real, u: Vec, v: Vec)
    ensures Dot(Add(u, Times(h, v)), Add(u, Times(h, v))) == GapSquared(-h, v, u)
  {
    NegatedSquare(h, u.x, v.x);
    NegatedSquare(h, u.y, v.y);
    NegatedSquare(h, u.z, v.z);
  }

  lemma NegatedSquare(h: real, u: real, v: real)
    ensures Squared(-h * v - u) == (u + h * v) * (u + h * v)
  {
    assert -h * v - u == -(u + h * v);
  }

  lemma MinorRaised(a: real, b: real, c: real, d: real, h: real, e: real, f: real)
    ensures Minor(a, b, c + h * e, d + h * f) == Minor(a, b, c, d) + h * Minor(a, b, e, f)
  {
  }

  lemma CrossOfRaised(landmark: Vec, ground: Vec, vertical: Vec, h: real, raised: Vec)
    requires raised == Add(ground, Times(h, vertical))
    ensures Cross(landmark, raised) == Add(Cross(landmark, ground), Times(h, Cross(landmark, vertical)))
  {
    MinorRaised(landmark.y, landmark.z, ground.y, ground.z, h, vertical.y, vertical.z);
    MinorRaised(landmark.z, landmark.x, ground.z, ground.x, h, vertical.z, vertical.x);
    MinorRaised(landmark.x, landmark.y, ground.x, ground.y, h, vertical.x, vertical.y);
    assert raised.x == ground.x + h * vertical.x;
    assert raised.y == ground.y + h * vertical.y;
    assert raised.z == ground.z + h * vertical.z;
  }

  /** A fitted height is the best one: at no other does the landmark's ray pass nearer to the person's vertical. */
  lemma FitIsBest(ground: Vec, vertical: Vec, landmark: Vec, other: real)
    requires FittedHeight(ground, vertical, landmark).Some?
    ensures Miss(ground, vertical, landmark, FittedHeight(ground, vertical, landmark).value)
         <= Miss(ground, vertical, landmark, other)
  {
    var n, d := Cross(landmark, ground), Cross(landmark, vertical);
    var h, square := FittedHeight(ground, vertical, landmark).value, Dot(d, d);
    assert h * square == -Dot(n, d);
    assert -h * square == Dot(d, n) by { DotCommutes(d, n); }
    CrossOfRaised(landmark, ground, vertical, h, Add(ground, Times(h, vertical)));
    CrossOfRaised(landmark, ground, vertical, other, Add(ground, Times(other, vertical)));
    SumIsParabola(h, n, d);
    SumIsParabola(other, n, d);
    LeastAt(square, Dot(d, n), Dot(n, n), -h, -other);
  }

  // --- What is refused before ----------------------------------------------

  /** Files of two different maps: both say their size and the sizes differ. */
  predicate OtherMaps(a: Option<real>, b: Option<real>) {
    a.Some? && b.Some? && (a.value > b.value + 0.000001 || b.value > a.value + 0.000001)
  }

  predicate Tiny(x: real, limit: real) { -limit < x < limit }

  /** The refusals in their order, up to where the two planes are matched. */
  lemma RefusedExactly(ground: Saved, elevated: Saved, tolerance: real)
    ensures var built := BuildCalibration(ground, elevated, tolerance);
      if Tiny(Det(ground.matrix), 0.000000000001) || Tiny(Det(elevated.matrix), 0.000000000001) then
        built == Refused(SingularMatrix)
      else if OtherMaps(ground.mapSize, elevated.mapSize) then built == Refused(OtherMap)
      else if elevated.planeHeight.None? then built == Refused(NoHeight)
      else if elevated.planeHeight.value <= 0.0 then built == Refused(BadHeight)
      else
        && Det(ground.matrix) != 0.0 && Det(elevated.matrix) != 0.0
        && var g, e := Inverse(ground.matrix).value, Inverse(elevated.matrix).value;
           && built == BuildFrom(g, e, elevated.planeHeight.value, tolerance)
           && (Flat(e, e) <= 0.0 <==> built == Refused(Degenerate))
           && (Flat(e, e) > 0.0 && Tiny(MatchScale(g, e), 0.000000000001) <==> built == Refused(Unmatched))
  {
  }
}
