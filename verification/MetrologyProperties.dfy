/** Round trips, exact calibrations and what rescaling or mis-measuring them changes. */
module MetrologyProperties {
  import opened LinearAlgebra
  import opened Metrology
  import opened Options

  // --- Plain numbers -------------------------------------------------------

  lemma Reciprocal(s: real)
    requires s != 0.0
    ensures 1.0 / s != 0.0 && (1.0 / s) * s == 1.0
  {
  }

  lemma OverIsTimes(x: real, d: real)
    requires d != 0.0
    ensures x / d == (1.0 / d) * x
  {
  }

  lemma RatioKept(s: real, x: real, z: real, x': real, z': real)
    requires z != 0.0 && z' != 0.0 && x' == s * x && z' == s * z
    ensures x' / z' == x / z
  {
    assert x' * z == x * z' by {
      assert (s * x) * z == x * (s * z);
    }
    Cross2(x', z', x, z);
  }

  lemma Cross2(a: real, b: real, c: real, d: real)
    requires b != 0.0 && d != 0.0 && a * d == c * b
    ensures a / b == c / d
  {
    assert a / b * b == a;
    assert c / d * d == c;
    var q := a / b;
    assert q * b * d == c * b;
    assert (q * d - c) * b == 0.0;
    assert q * d == c;
  }

  // --- Round trips ---------------------------------------------------------

  lemma LiftOfPixel(p: Vec)
    requires p.z != 0.0
    ensures Lift(PixelOf(p)) == Times(1.0 / p.z, p)
  {
    OverIsTimes(p.x, p.z);
    OverIsTimes(p.y, p.z);
    Reciprocal(p.z);
  }

  /** Solving for a seen point gives its world point back, scaled by how far it was. */
  lemma SolveSeen(plane: Mat, at: Pixel)
    requires Det(plane) != 0.0 && Seen(plane, at).z != 0.0
    ensures Solve(plane, Lift(PixelOf(Seen(plane, at)))) == Some(Times(1.0 / Seen(plane, at).z, Lift(at)))
  {
    var p := Seen(plane, at);
    LiftOfPixel(p);
    ApplyTimes(plane, 1.0 / p.z, Lift(at));
    SolveUnique(plane, Times(1.0 / p.z, Lift(at)), Times(1.0 / p.z, p));
  }

  lemma GroundedTimes(s: real, at: Pixel)
    requires s != 0.0
    ensures Grounded(Some(Times(s, Lift(at)))) == if Magnitude(s) < 0.000000001 then None else Some(at)
  {
    var w := Times(s, Lift(at));
    assert w.z == s;
    Quotient(w.x, at.0, w.z);
    Quotient(w.y, at.1, w.z);
  }

  /**
   Seeing a point of the plane at some height and looking it up at that height
   gives the point back, for every camera whose plane there is not degenerate
   and every point that is not too far: the guard is the only way it fails.
   */
  lemma GroundRoundTrip(c: Calibration, at: Pixel, height: real)
    requires Det(Homography(c, height)) != 0.0 && Seen(Homography(c, height), at).z != 0.0
    ensures var p := Seen(Homography(c, height), at);
      GroundFromLandmark(c, PixelOf(p), height) == if Magnitude(1.0 / p.z) < 0.000000001 then None else Some(at)
  {
    var p := Seen(Homography(c, height), at);
    SolveSeen(Homography(c, height), at);
    Reciprocal(p.z);
    GroundedTimes(1.0 / p.z, at);
  }

  lemma CrossOfSum(u: Vec, h: real, v: Vec)
    ensures Cross(Add(u, Times(h, v)), u) == Times(-h, Cross(u, v))
    ensures Cross(Add(u, Times(h, v)), v) == Cross(u, v)
  {
    MinorOfSum(u.y, u.z, h, v.y, v.z);
    MinorOfSum(u.z, u.x, h, v.z, v.x);
    MinorOfSum(u.x, u.y, h, v.x, v.y);
  }

  lemma MinorOfSum(a: real, b: real, h: real, c: real, d: real)
    ensures Minor(a + h * c, b + h * d, a, b) == -h * Minor(a, b, c, d)
    ensures Minor(a + h * c, b + h * d, c, d) == Minor(a, b, c, d)
  {
  }

  /** The raised point is the ground point plus so much of the vertical vector. */
  lemma SeenHigher(ground: Mat, vertical: Vec, height: real, at: Pixel)
    ensures Seen(AtHeight(ground, vertical, height), at) == Add(Seen(ground, at), Times(height, vertical))
  {
  }

  /** What the fit returns for a landmark exactly so far above its ground point. */
  lemma FittedExactly(ground: Vec, vertical: Vec, height: real, s: real)
    requires s != 0.0
    ensures var landmark := Times(s, Add(ground, Times(height, vertical)));
      var n := Cross(landmark, vertical);
      FittedHeight(ground, vertical, landmark) == if Dot(n, n) < 0.000000000001 then None else Some(height)
  {
    var raised := Add(ground, Times(height, vertical));
    var landmark := Times(s, raised);
    var n, m := Cross(landmark, vertical), Cross(ground, vertical);
    CrossTimes(s, raised, ground);
    CrossTimes(s, raised, vertical);
    CrossOfSum(ground, height, vertical);
    assert n == Times(s, m);
    var t := -height;
    TimesSwap(s, t, m);
    assert Cross(landmark, ground) == Times(t, n);
    var d, y := Dot(n, n), Dot(Times(t, n), n);
    DotScaledBy(t, n, n, d, y);
    if d >= 0.000000000001 {
      NegatedQuotient(y, t, height, d);
    }
  }

  lemma DotScaledBy(s: real, u: Vec, v: Vec, d: real, y: real)
    requires d == Dot(u, v) && y == Dot(Times(s, u), v)
    ensures y == s * d
  {
    DotTimes(s, u, v);
  }

  lemma NegatedQuotient(y: real, t: real, x: real, d: real)
    requires d != 0.0 && t == -x && y == t * d
    ensures -y / d == x
  {
    Quotient(-y, x, d);
  }

  lemma TimesSwap(s: real, t: real, v: Vec)
    ensures Times(s, Times(t, v)) == Times(t, Times(s, v))
  {
    ProductSwap(s, t, v.x);
    ProductSwap(s, t, v.y);
    ProductSwap(s, t, v.z);
  }

  lemma ProductSwap(s: real, t: real, x: real)
    ensures s * (t * x) == t * (s * x)
  {
  }

  /**
   From the pixel of the feet and the pixel of a landmark straight above them
   the landmark's height comes back, whatever the camera, unless the feet are
   too far or the landmark lies on the vertical vanishing point.
   */
  lemma HeightRoundTrip(c: Calibration, at: Pixel, height: real)
    requires Det(c.ground) != 0.0 && Seen(c.ground, at).z != 0.0 && Seen(Homography(c, height), at).z != 0.0
    ensures var foot, landmark := Seen(c.ground, at), Seen(Homography(c, height), at);
      var n := Cross(Lift(PixelOf(landmark)), c.vertical);
      HeightFromPixels(c, PixelOf(foot), PixelOf(landmark))
      == if Magnitude(1.0 / foot.z) < 0.000000001 || Dot(n, n) < 0.000000000001 then None else Some(height)
  {
    var foot, landmark := Seen(c.ground, at), Seen(Homography(c, height), at);
    SolveSeen(c.ground, at);
    Reciprocal(foot.z);
    GroundedTimes(1.0 / foot.z, at);
    SeenHigher(c.ground, c.vertical, height, at);
    LiftOfPixel(landmark);
    Reciprocal(landmark.z);
    FittedExactly(foot, c.vertical, height, 1.0 / landmark.z);
  }

  // --- Exact calibrations --------------------------------------------------

  /** A matrix that takes the image of this camera's plane back to the world, up to scale. */
  predicate Undoes(saved: Mat, plane: Mat, scale: real) {
    && Apply(saved, plane.a) == Times(scale, E1)
    && Apply(saved, plane.b) == Times(scale, E2)
    && Apply(saved, plane.c) == Times(scale, E3)
  }

  lemma UnitBack(saved: Mat, column: Vec, scale: real, unit: Vec)
    requires Det(saved) != 0.0 && scale != 0.0 && Apply(saved, column) == Times(scale, unit)
    ensures Solve(saved, unit) == Some(Times(1.0 / scale, column))
  {
    ApplyTimes(saved, 1.0 / scale, column);
    Reciprocal(scale);
    TimesBack(1.0 / scale, scale, unit);
    SolveUnique(saved, Times(1.0 / scale, column), unit);
  }

  lemma TimesBack(s: real, t: real, v: Vec)
    requires s * t == 1.0
    ensures Times(s, Times(t, v)) == v
  {
    ProductBack(s, t, v.x);
    ProductBack(s, t, v.y);
    ProductBack(s, t, v.z);
  }

  lemma ProductBack(s: real, t: real, x: real)
    requires s * t == 1.0
    ensures s * (t * x) == x
  {
    assert s * (t * x) == (s * t) * x;
  }

  /** Inverting such a matrix recovers the plane, in the scale it was saved in. */
  lemma InverseOfExact(saved: Mat, plane: Mat, scale: real)
    requires Det(saved) != 0.0 && scale != 0.0 && Undoes(saved, plane, scale)
    ensures Inverse(saved) == Some(Scaled(1.0 / scale, plane))
  {
    UnitBack(saved, plane.a, scale, E1);
    UnitBack(saved, plane.b, scale, E2);
    UnitBack(saved, plane.c, scale, E3);
  }

  lemma DotScaledTwice(s: real, u: Vec, t: real, v: Vec, r: real, d: real, y: real)
    requires r == s * t && d == Dot(u, v) && y == Dot(Times(s, u), Times(t, v))
    ensures y == r * d
  {
    var e := Dot(u, Times(t, v));
    DotScaledBy(s, u, Times(t, v), e, y);
    DotTimesRight(t, u, v);
    ProductChain(s, t, r, d, e, y);
  }

  lemma ProductChain(s: real, t: real, r: real, d: real, e: real, y: real)
    requires r == s * t && e == t * d && y == s * e
    ensures y == r * d
  {
    assert y == s * (t * d);
    Associate(s, t, d);
  }

  lemma Associate(s: real, t: real, d: real)
    ensures s * (t * d) == (s * t) * d
  {
  }

  lemma FlatScaled(s: real, m: Mat, t: real, n: Mat, r: real, f: real, g: real)
    requires r == s * t && f == Flat(m, n) && g == Flat(Scaled(s, m), Scaled(t, n))
    ensures g == r * f
  {
    var x, y := Dot(m.a, n.a), Dot(m.b, n.b);
    var x', y' := Dot(Times(s, m.a), Times(t, n.a)), Dot(Times(s, m.b), Times(t, n.b));
    DotScaledTwice(s, m.a, t, n.a, r, x, x');
    DotScaledTwice(s, m.b, t, n.b, r, y, y');
    Gather(r, x, y, x', y', f, g);
  }

  lemma Gather(r: real, x: real, y: real, x': real, y': real, f: real, g: real)
    requires x' == r * x && y' == r * y && f == x + y && g == x' + y'
    ensures g == r * f
  {
  }

  /** Two planes of one camera agree in their first two columns, so the match is exact. */
  lemma ScaleOfExact(p: real, q: real, ground: Mat, raised: Mat, n: real, x: real, y: real)
    requires raised.a == ground.a && raised.b == ground.b && q != 0.0 && n == Flat(ground, ground)
    requires x == Flat(Scaled(p, ground), Scaled(q, raised)) && y == Flat(Scaled(q, raised), Scaled(q, raised))
    requires y > 0.0
    ensures x / y == p / q
  {
    var pq, qq := p * q, q * q;
    FlatScaled(p, ground, q, raised, pq, n, x);
    FlatScaled(q, raised, q, raised, qq, n, y);
    RatioOfScales(p, q, pq, qq, n, x, y);
  }

  lemma RatioOfScales(p: real, q: real, pq: real, qq: real, n: real, x: real, y: real)
    requires q != 0.0 && pq == p * q && qq == q * q && x == pq * n && y == qq * n && y > 0.0
    ensures x / y == p / q
  {
    assert x * q == p * y;
    Cross2(x, y, p, q);
  }

  lemma ScaledTwice(s: real, q: real, p: real, v: Vec)
    requires s * q == p
    ensures Times(s, Times(q, v)) == Times(p, v)
  {
    ProductTwice(s, q, p, v.x);
    ProductTwice(s, q, p, v.y);
    ProductTwice(s, q, p, v.z);
  }

  lemma ProductTwice(s: real, q: real, p: real, x: real)
    requires s * q == p
    ensures s * (q * x) == p * x
  {
  }

  lemma DifferencePart(p: real, c: real, raised: real, v: real, height: real, x: real)
    requires height != 0.0 && x == p * (c + raised * v) - p * c
    ensures x / height == (raised / height) * (p * v)
  {
    assert x == raised * (p * v);
    var w := p * v;
    OverIsTimes(raised * w, height);
    OverIsTimes(raised, height);
    Associate(1.0 / height, raised, w);
  }

  lemma DifferenceOver(d: Vec, height: real, s: real, v: Vec)
    requires height != 0.0 && d.x / height == s * v.x && d.y / height == s * v.y && d.z / height == s * v.z
    ensures Over(d, height) == Times(s, v)
  {
  }

  lemma VerticalOfExact(p: real, plane: Mat, vertical: Vec, raised: real, height: real)
    requires height != 0.0
    ensures var lifted := AtHeight(plane, vertical, raised);
      Over(Sub(Times(p, lifted.c), Times(p, plane.c)), height) == Times(raised / height, Times(p, vertical))
  {
    var lifted := AtHeight(plane, vertical, raised);
    var d := Sub(Times(p, lifted.c), Times(p, plane.c));
    DifferencePart(p, plane.c.x, raised, vertical.x, height, d.x);
    DifferencePart(p, plane.c.y, raised, vertical.y, height, d.y);
    DifferencePart(p, plane.c.z, raised, vertical.z, height, d.z);
    DifferenceOver(d, height, raised / height, Times(p, vertical));
  }

  lemma MatchOfExact(p: real, q: real, plane: Mat, vertical: Vec, raised: real)
    requires q != 0.0
    ensures Scaled(p / q, Scaled(q, AtHeight(plane, vertical, raised))) == Scaled(p, AtHeight(plane, vertical, raised))
  {
    var lifted, s := AtHeight(plane, vertical, raised), p / q;
    assert s * q == p;
    ScaledTwice(s, q, p, lifted.a);
    ScaledTwice(s, q, p, lifted.b);
    ScaledTwice(s, q, p, lifted.c);
  }

  lemma NoResidual(ground: Mat, matched: Mat)
    requires matched.a == ground.a && matched.b == ground.b
    ensures ResidualSquared(ground, matched) == 0.0
  {
    var zero := Vec(0.0, 0.0, 0.0);
    assert Sub(matched.a, ground.a) == zero && Sub(matched.b, ground.b) == zero;
    assert Dot(zero, zero) == 0.0;
    var f := Floor(Flat(ground, ground), 0.000000000000000000000001);
    assert 0.0 / f == 0.0;
  }

  /** The calibration two exact planes of one camera lead to, in the scale the ground was saved in. */
  function ExactCalibration(plane: Mat, vertical: Vec, raised: real, p: real, height: real): Calibration
    requires height != 0.0
  {
    Calibration(Scaled(p, plane), Times(raised / height, Times(p, vertical)), height, 0.0)
  }

  /** What becomes of two planes that match exactly. */
  function MatchedOutcome(ground: Mat, vertical: Vec, height: real): Built {
    if Dot(vertical, vertical) < 0.000000000000000000000001 then Refused(SamePlane)
    else Built(Calibration(ground, vertical, height, 0.0))
  }

  lemma BuildMatchedZero(ground: Mat, matched: Mat, vertical: Vec, height: real, tolerance: real)
    requires height > 0.0 && tolerance * tolerance >= 0.0 && tolerance >= 0.0
    requires ResidualSquared(ground, matched) == 0.0 && vertical == Over(Sub(matched.c, ground.c), height)
    ensures BuildMatched(ground, matched, height, tolerance)
         == MatchedOutcome(ground, vertical, height)
  {
  }

  lemma BuildFromIs(ground: Mat, elevated: Mat, scale: real, matched: Mat, height: real, tolerance: real)
    requires height > 0.0 && matched == Scaled(scale, elevated)
    requires Flat(elevated, elevated) > 0.0 ==> scale == Flat(ground, elevated) / Flat(elevated, elevated)
    ensures BuildFrom(ground, elevated, height, tolerance)
         == if Flat(elevated, elevated) <= 0.0 then Refused(Degenerate)
            else if Magnitude(scale) < 0.000000000001 then Refused(Unmatched)
            else BuildMatched(ground, matched, height, tolerance)
  {
  }

  lemma BuildMatchedExactly(ground: Mat, matched: Mat, vertical: Vec, height: real, tolerance: real)
    requires height > 0.0 && tolerance >= 0.0 && matched.a == ground.a && matched.b == ground.b
    requires vertical == Over(Sub(matched.c, ground.c), height)
    ensures BuildMatched(ground, matched, height, tolerance) == MatchedOutcome(ground, vertical, height)
  {
    NoResidual(ground, matched);
    SquareNotNegative(tolerance);
    BuildMatchedZero(ground, matched, vertical, height, tolerance);
  }

  /** Planes that match exactly are never refused for disagreeing. */
  lemma BuildFromMatch(
    ground: Mat, elevated: Mat, scale: real, matched: Mat, vertical: Vec, height: real, tolerance: real)
    requires height > 0.0 && tolerance >= 0.0
    requires Flat(elevated, elevated) > 0.0 ==> scale == Flat(ground, elevated) / Flat(elevated, elevated)
    requires matched == Scaled(scale, elevated) && matched.a == ground.a && matched.b == ground.b
    requires vertical == Over(Sub(matched.c, ground.c), height)
    ensures var built := BuildFrom(ground, elevated, height, tolerance);
      if built.Built? then built.calibration == Calibration(ground, vertical, height, 0.0)
      else built.reason in {Degenerate, Unmatched, SamePlane}
  {
    BuildFromIs(ground, elevated, scale, matched, height, tolerance);
    BuildMatchedExactly(ground, matched, vertical, height, tolerance);
  }

  lemma SquareNotNegative(x: real)
    ensures x * x >= 0.0
  {
  }

  lemma BuildFromExact(
    plane: Mat, vertical: Vec, raised: real, p: real, q: real, height: real, tolerance: real,
    ground: Mat, elevated: Mat)
    requires q != 0.0 && height > 0.0 && tolerance >= 0.0
    requires ground == Scaled(p, plane) && elevated == Scaled(q, AtHeight(plane, vertical, raised))
    ensures var built := BuildFrom(ground, elevated, height, tolerance);
      if built.Built? then built.calibration == ExactCalibration(plane, vertical, raised, p, height)
      else built.reason in {Degenerate, Unmatched, SamePlane}
  {
    var lifted := AtHeight(plane, vertical, raised);
    var x, y := Flat(ground, elevated), Flat(elevated, elevated);
    if y > 0.0 {
      ScaleOfExact(p, q, plane, lifted, Flat(plane, plane), x, y);
    }
    MatchOfExact(p, q, plane, vertical, raised);
    VerticalOfExact(p, plane, vertical, raised, height);
    BuildFromMatch(ground, elevated, p / q, Scaled(p, lifted), Times(raised / height, Times(p, vertical)), height,
                   tolerance);
  }

  /**
   Two exact calibrations of one camera, each saved in any scale, give back
   that camera's ground plane and vertical vector with no residual at all; a
   plane measured too high by some factor only shortens the vertical vector by it.
   */
  lemma ExactPlanesRecoverTheCamera(
    ground: Saved, elevated: Saved, plane: Mat, vertical: Vec, raised: real, alpha: real, beta: real, tolerance: real)
    requires alpha != 0.0 && beta != 0.0 && tolerance >= 0.0
    requires Undoes(ground.matrix, plane, alpha)
    requires Undoes(elevated.matrix, AtHeight(plane, vertical, raised), beta)
    ensures match BuildCalibration(ground, elevated, tolerance)
      case Built(c) =>
        && elevated.planeHeight.Some? && elevated.planeHeight.value > 0.0
        && c == ExactCalibration(plane, vertical, raised, 1.0 / alpha, elevated.planeHeight.value)
      case Refused(reason) => reason != Disagreeing
  {
    if !NearlySingular(ground.matrix) && !NearlySingular(elevated.matrix)
       && elevated.planeHeight.Some? && elevated.planeHeight.value > 0.0 {
      InverseOfExact(ground.matrix, plane, alpha);
      InverseOfExact(elevated.matrix, AtHeight(plane, vertical, raised), beta);
      Reciprocal(beta);
      BuildFromExact(plane, vertical, raised, 1.0 / alpha, 1.0 / beta, elevated.planeHeight.value, tolerance,
                     Inverse(ground.matrix).value, Inverse(elevated.matrix).value);
    }
  }

  // --- A mis-measured elevated plane ---------------------------------------

  lemma HomographyOfStretched(c: Calibration, d: Calibration, k: real, height: real, longer: real)
    requires k != 0.0 && longer == k * height && d.ground == c.ground && c.vertical == Times(k, d.vertical)
    ensures Homography(d, longer) == Homography(c, height)
  {
    StretchedPart(k, height, longer, d.vertical.x, c.vertical.x);
    StretchedPart(k, height, longer, d.vertical.y, c.vertical.y);
    StretchedPart(k, height, longer, d.vertical.z, c.vertical.z);
  }

  lemma StretchedPart(k: real, height: real, longer: real, v: real, w: real)
    requires w == k * v && longer == k * height
    ensures longer * v == height * w
  {
    assert height * w == height * (k * v);
    Associate(height, k, v);
  }

  /** How many times too high the elevated plane was measured is how many times too high people come out. */
  lemma StretchedHeights(c: Calibration, d: Calibration, k: real, foot: Pixel, landmark: Pixel)
    requires k > 0.0 && d.ground == c.ground && c.vertical == Times(k, d.vertical)
    requires HeightFromPixels(c, foot, landmark).Some? && HeightFromPixels(d, foot, landmark).Some?
    ensures HeightFromPixels(d, foot, landmark).value == k * HeightFromPixels(c, foot, landmark).value
  {
    var position := Grounded(Solve(c.ground, Lift(foot))).value;
    StretchedFit(Apply(c.ground, Lift(position)), d.vertical, Lift(landmark), k, c.vertical);
  }

  lemma StretchedFit(ground: Vec, vertical: Vec, landmark: Vec, k: real, longer: Vec)
    requires k > 0.0 && longer == Times(k, vertical)
    requires FittedHeight(ground, vertical, landmark).Some? && FittedHeight(ground, longer, landmark).Some?
    ensures FittedHeight(ground, vertical, landmark).value == k * FittedHeight(ground, longer, landmark).value
  {
    var m, n, n' := Cross(landmark, ground), Cross(landmark, vertical), Cross(landmark, longer);
    CrossTimes(k, landmark, vertical);
    assert n' == Times(k, n);
    var x, y, x', y' := Dot(m, n), Dot(n, n), Dot(m, n'), Dot(n', n');
    DotScaledRight(k, m, n, x, x');
    DotScaledTwice(k, n, k, n, k * k, y, y');
    StretchedRatio(k, k * k, x, y, x', y');
  }

  lemma DotScaledRight(s: real, u: Vec, v: Vec, d: real, y: real)
    requires d == Dot(u, v) && y == Dot(u, Times(s, v))
    ensures y == s * d
  {
    DotTimesRight(s, u, v);
  }

  lemma StretchedRatio(k: real, kk: real, x: real, y: real, x': real, y': real)
    requires k > 0.0 && kk == k * k && x' == k * x && y' == kk * y && y > 0.0 && y' > 0.0
    ensures -x / y == k * (-x' / y')
  {
    var r := -x' / y';
    assert r * y' == -x';
    assert (k * r) * y == -x by {
      assert k * ((k * r) * y) == k * -x;
    }
    Quotient(-x, k * r, y);
  }

  /**
   Measuring the elevated plane k times too high multiplies every learned
   height by k and changes no position found with a height so learned.
   */
  lemma MismeasuredPlaneCancels(
    ground: Mat, elevated: Mat, height: real, k: real, tolerance: real, foot: Pixel, landmark: Pixel, later: Pixel)
    requires height > 0.0 && k > 0.0 && k * height > 0.0
    requires BuildFrom(ground, elevated, height, tolerance).Built?
    requires BuildFrom(ground, elevated, k * height, tolerance).Built?
    requires HeightFromPixels(BuildFrom(ground, elevated, height, tolerance).calibration, foot, landmark).Some?
    requires HeightFromPixels(BuildFrom(ground, elevated, k * height, tolerance).calibration, foot, landmark).Some?
    ensures var c := BuildFrom(ground, elevated, height, tolerance).calibration;
      var d := BuildFrom(ground, elevated, k * height, tolerance).calibration;
      var h, h' := HeightFromPixels(c, foot, landmark).value, HeightFromPixels(d, foot, landmark).value;
      h' == k * h && GroundFromLandmark(d, later, h') == GroundFromLandmark(c, later, h)
  {
    var c := BuildFrom(ground, elevated, height, tolerance).calibration;
    var d := BuildFrom(ground, elevated, k * height, tolerance).calibration;
    StretchedVertical(ground, elevated, height, k, tolerance, c, d);
    var h, h' := HeightFromPixels(c, foot, landmark).value, HeightFromPixels(d, foot, landmark).value;
    StretchedHeights(c, d, k, foot, landmark);
    HomographyOfStretched(c, d, k, h, h');
  }

  lemma StretchedVertical(
    ground: Mat, elevated: Mat, height: real, k: real, tolerance: real, c: Calibration, d: Calibration)
    requires height > 0.0 && k > 0.0 && k * height > 0.0
    requires BuildFrom(ground, elevated, height, tolerance) == Built(c)
    requires BuildFrom(ground, elevated, k * height, tolerance) == Built(d)
    ensures d.ground == c.ground && c.vertical == Times(k, d.vertical)
  {
    var scale := Flat(ground, elevated) / Flat(elevated, elevated);
    var difference := Sub(Scaled(scale, elevated).c, ground.c);
    assert c.vertical == Over(difference, height) && d.vertical == Over(difference, k * height);
    OverLongerVec(difference, height, k);
  }

  lemma OverLongerVec(d: Vec, height: real, k: real)
    requires height > 0.0 && k > 0.0 && k * height > 0.0
    ensures Over(d, height) == Times(k, Over(d, k * height))
  {
    OverLonger(d.x, height, k);
    OverLonger(d.y, height, k);
    OverLonger(d.z, height, k);
  }

  lemma OverLonger(x: real, height: real, k: real)
    requires height > 0.0 && k > 0.0 && k * height > 0.0
    ensures x / height == k * (x / (k * height))
  {
    var q := x / (k * height);
    assert q * (k * height) == x;
    assert (k * q) * height == x;
    Quotient(x, k * q, height);
  }

  // --- Rescaled matrices ---------------------------------------------------

  lemma CubeRatio(s: real, x: real, d: real, x': real, d': real)
    requires s != 0.0 && d != 0.0 && x' == s * (s * x) && d' == s * (s * (s * d))
    ensures d' != 0.0 && x' / d' == (1.0 / s) * (x / d)
  {
    var q, r := x / d, 1.0 / s;
    assert q * d == x && r * s == 1.0;
    assert s * d != 0.0;
    assert s * (s * d) != 0.0;
    assert (r * q) * d' == x' by {
      assert (r * q) * d' == (r * s) * (s * (s * (q * d)));
    }
    Quotient(x', r * q, d');
  }

  /** A rescaled system has the solution rescaled the other way. */
  lemma SolveScaled(s: real, m: Mat, p: Vec)
    requires s != 0.0 && Det(m) != 0.0
    ensures Det(Scaled(s, m)) != 0.0
    ensures Solve(Scaled(s, m), p) == Some(Times(1.0 / s, Solve(m, p).value))
  {
    var d, d' := Det(m), Det(Scaled(s, m));
    DetScaled(s, m, d, d');
    CubeNotZero(s, d, d');
    SolutionScaled(s, 1.0 / s, m, Scaled(s, m), p, d, d', Solve(m, p).value, Solve(Scaled(s, m), p).value);
  }

  lemma SolutionScaled(s: real, t: real, m: Mat, n: Mat, p: Vec, d: real, d': real, w: Vec, w': Vec)
    requires s != 0.0 && t == 1.0 / s && d != 0.0 && d' != 0.0 && d' == s * (s * (s * d))
    requires n == Scaled(s, m) && d == Det(m) && d' == Det(n) && Solve(m, p) == Some(w) && Solve(n, p) == Some(w')
    ensures w' == Times(t, w)
  {
    CrossScaled(s, m.b, m.c);
    CrossScaled(s, m.c, m.a);
    CrossScaled(s, m.a, m.b);
    CramerScaled(s, t, p, Cross(m.b, m.c), Cross(n.b, n.c), d, d', w.x, w'.x);
    CramerScaled(s, t, p, Cross(m.c, m.a), Cross(n.c, n.a), d, d', w.y, w'.y);
    CramerScaled(s, t, p, Cross(m.a, m.b), Cross(n.a, n.b), d, d', w.z, w'.z);
    TimesByPart(t, w, w');
  }

  lemma TimesByPart(t: real, w: Vec, w': Vec)
    requires w'.x == t * w.x && w'.y == t * w.y && w'.z == t * w.z
    ensures w' == Times(t, w)
  {
  }

  lemma CubeNotZero(s: real, d: real, d': real)
    requires s != 0.0 && d != 0.0 && d' == s * (s * (s * d))
    ensures d' != 0.0
  {
    assert s * d != 0.0;
    assert s * (s * d) != 0.0;
  }

  lemma CrossScaled(s: real, u: Vec, v: Vec)
    ensures Cross(Times(s, u), Times(s, v)) == Times(s, Times(s, Cross(u, v)))
  {
    CrossTimes(s, u, Times(s, v));
    CrossTimes(s, u, v);
  }

  lemma DetScaled(s: real, m: Mat, d: real, d': real)
    requires d == Det(m) && d' == Det(Scaled(s, m))
    ensures d' == s * (s * (s * d))
  {
    var n := Cross(m.b, m.c);
    CrossScaled(s, m.b, m.c);
    var e, f := Dot(m.a, Times(s, n)), Dot(m.a, Times(s, Times(s, n)));
    DotScaledRight(s, m.a, n, d, e);
    DotScaledRight(s, m.a, Times(s, n), e, f);
    DotScaledBy(s, m.a, Times(s, Times(s, n)), f, d');
    ProductCube(s, d, e, f, d');
  }

  lemma ProductCube(s: real, d: real, e: real, f: real, g: real)
    requires e == s * d && f == s * e && g == s * f
    ensures g == s * (s * (s * d))
  {
    assert f == s * (s * d);
  }

  lemma CramerScaled(s: real, t: real, p: Vec, n: Vec, n': Vec, d: real, d': real, q: real, q': real)
    requires s != 0.0 && t == 1.0 / s && d != 0.0 && d' != 0.0 && d' == s * (s * (s * d))
    requires n' == Times(s, Times(s, n)) && q == Dot(p, n) / d && q' == Dot(p, n') / d'
    ensures q' == t * q
  {
    var x, y, x' := Dot(p, n), Dot(p, Times(s, n)), Dot(p, n');
    DotScaledRight(s, p, n, x, y);
    DotScaledRight(s, p, Times(s, n), y, x');
    assert x' == s * (s * x);
    CubeRatio(s, x, d, x', d');
  }

  /** The same geometry in another scale. */
  function Rescaled(c: Calibration, s: real): Calibration {
    c.(ground := Scaled(s, c.ground), vertical := Times(s, c.vertical))
  }

  lemma HomographyRescaled(c: Calibration, s: real, height: real)
    ensures Homography(Rescaled(c, s), height) == Scaled(s, Homography(c, height))
  {
    TimesSwap(height, s, c.vertical);
    TimesOfSum(s, c.ground.c, Times(height, c.vertical));
  }

  lemma TimesOfSum(s: real, u: Vec, v: Vec)
    ensures Add(Times(s, u), Times(s, v)) == Times(s, Add(u, v))
  {
    ProductOfSum(s, u.x, v.x);
    ProductOfSum(s, u.y, v.y);
    ProductOfSum(s, u.z, v.z);
  }

  lemma ProductOfSum(s: real, x: real, y: real)
    ensures s * x + s * y == s * (x + y)
  {
  }

  lemma GroundedRescaled(t: real, w: Vec)
    requires t != 0.0 && Grounded(Some(w)).Some? && Grounded(Some(Times(t, w))).Some?
    ensures Grounded(Some(Times(t, w))) == Grounded(Some(w))
  {
    var w' := Times(t, w);
    RatioKept(t, w.x, w.z, w'.x, w'.z);
    RatioKept(t, w.y, w.z, w'.y, w'.z);
  }

  /** No ground position depends on the scale. */
  lemma GroundRescaled(c: Calibration, s: real, pixel: Pixel, height: real)
    requires s != 0.0
    requires GroundFromLandmark(c, pixel, height).Some?
    requires GroundFromLandmark(Rescaled(c, s), pixel, height).Some?
    ensures GroundFromLandmark(Rescaled(c, s), pixel, height) == GroundFromLandmark(c, pixel, height)
  {
    HomographyRescaled(c, s, height);
    SolveScaled(s, Homography(c, height), Lift(pixel));
    Reciprocal(s);
    GroundedRescaled(1.0 / s, Solve(Homography(c, height), Lift(pixel)).value);
  }

  lemma FitRescaled(ground: Vec, vertical: Vec, landmark: Vec, s: real)
    requires s != 0.0
    requires FittedHeight(ground, vertical, landmark).Some?
    requires FittedHeight(Times(s, ground), Times(s, vertical), landmark).Some?
    ensures FittedHeight(Times(s, ground), Times(s, vertical), landmark) == FittedHeight(ground, vertical, landmark)
  {
    var m, n := Cross(landmark, ground), Cross(landmark, vertical);
    var m', n' := Cross(landmark, Times(s, ground)), Cross(landmark, Times(s, vertical));
    CrossTimes(s, landmark, ground);
    CrossTimes(s, landmark, vertical);
    var ss := s * s;
    var x, y, x', y' := Dot(m, n), Dot(n, n), Dot(m', n'), Dot(n', n');
    DotScaledTwice(s, m, s, n, ss, x, x');
    DotScaledTwice(s, n, s, n, ss, y, y');
    NegatedRatio(ss, x, y, x', y');
    assert FittedHeight(ground, vertical, landmark) == Some(-x / y);
    assert FittedHeight(Times(s, ground), Times(s, vertical), landmark) == Some(-x' / y');
  }

  lemma NegatedRatio(r: real, x: real, y: real, x': real, y': real)
    requires y != 0.0 && y' != 0.0 && x' == r * x && y' == r * y
    ensures -x' / y' == -x / y
  {
    RatioKept(r, x, y, x', y');
    Quotient(-x, -(x / y), y);
    Quotient(-x', -(x' / y'), y');
  }

  /** Nor does any height. */
  lemma HeightRescaled(c: Calibration, s: real, foot: Pixel, landmark: Pixel)
    requires s != 0.0
    requires HeightFromPixels(c, foot, landmark).Some? && HeightFromPixels(Rescaled(c, s), foot, landmark).Some?
    ensures HeightFromPixels(Rescaled(c, s), foot, landmark) == HeightFromPixels(c, foot, landmark)
  {
    SolveScaled(s, c.ground, Lift(foot));
    Reciprocal(s);
    var world := Solve(c.ground, Lift(foot)).value;
    GroundedRescaled(1.0 / s, world);
    var at := Grounded(Some(world)).value;
    ApplyScaled(s, c.ground, Lift(at));
    FitRescaled(Apply(c.ground, Lift(at)), c.vertical, Lift(landmark), s);
  }

  lemma InverseScaled(s: real, m: Mat)
    requires s != 0.0 && Det(m) != 0.0
    ensures Inverse(Scaled(s, m)) == Some(Scaled(1.0 / s, Inverse(m).value))
  {
    SolveScaled(s, m, E1);
    SolveScaled(s, m, E2);
    SolveScaled(s, m, E3);
  }

  /** Saving either plane in another scale rescales the calibration, if anything. */
  lemma BuiltRescaled(
    ground: Mat, elevated: Mat, height: real, tolerance: real, s: real, t: real, c: Calibration, d: Calibration)
    requires height > 0.0 && s != 0.0 && t != 0.0
    requires BuildFrom(ground, elevated, height, tolerance) == Built(c)
    requires BuildFrom(Scaled(s, ground), Scaled(t, elevated), height, tolerance) == Built(d)
    ensures d.ground == Scaled(s, c.ground) && d.vertical == Times(s, c.vertical)
  {
    var x, y := Flat(ground, elevated), Flat(elevated, elevated);
    var x', y' := Flat(Scaled(s, ground), Scaled(t, elevated)), Flat(Scaled(t, elevated), Scaled(t, elevated));
    var st, tt, q, q' := s * t, t * t, x / y, x' / y';
    FlatScaled(s, ground, t, elevated, st, x, x');
    FlatScaled(t, elevated, t, elevated, tt, y, y');
    ScaleRescaled(s, t, st, tt, x, y, x', y', q, q');
    VerticalRescaled(ground.c, elevated.c, height, s, t, q, q', c.vertical, d.vertical);
  }

  lemma ScaleRescaled(
    s: real, t: real, st: real, tt: real, x: real, y: real, x': real, y': real, q: real, q': real)
    requires t != 0.0 && y > 0.0 && y' > 0.0 && st == s * t && tt == t * t && x' == st * x && y' == tt * y
    requires q == x / y && q' == x' / y'
    ensures q' * t == s * q
  {
    assert q * y == x && q' * y' == x';
    assert q' * (t * t * y) == s * t * (q * y);
    assert ((q' * t - s * q) * t) * y == 0.0;
  }

  lemma VerticalRescaled(
    g: Vec, e: Vec, height: real, s: real, t: real, q: real, q': real, v: Vec, w: Vec)
    requires height > 0.0 && q' * t == s * q
    requires v == Over(Sub(Times(q, e), g), height)
    requires w == Over(Sub(Times(q', Times(t, e)), Times(s, g)), height)
    ensures w == Times(s, v)
  {
    ScaledTwice(q', t, s * q, e);
    ScaledTwice(s, q, s * q, e);
    TimesOfDifference(s, Times(q, e), g);
    OverOfTimes(s, Sub(Times(q, e), g), height);
  }

  lemma TimesOfDifference(s: real, u: Vec, v: Vec)
    ensures Sub(Times(s, u), Times(s, v)) == Times(s, Sub(u, v))
  {
    ProductOfDifference(s, u.x, v.x);
    ProductOfDifference(s, u.y, v.y);
    ProductOfDifference(s, u.z, v.z);
  }

  lemma ProductOfDifference(s: real, x: real, y: real)
    ensures s * x - s * y == s * (x - y)
  {
  }

  lemma OverOfTimes(s: real, v: Vec, d: real)
    requires d != 0.0
    ensures Over(Times(s, v), d) == Times(s, Over(v, d))
  {
    var n := Times(s, v);
    QuotientOfProduct(s, v.x, d, n.x);
    QuotientOfProduct(s, v.y, d, n.y);
    QuotientOfProduct(s, v.z, d, n.z);
    DifferenceOver(n, d, s, Over(v, d));
  }

  lemma QuotientOfProduct(s: real, x: real, d: real, y: real)
    requires d != 0.0 && y == s * x
    ensures y / d == s * (x / d)
  {
    var q := x / d;
    assert q * d == x;
    Associate(s, q, d);
    Quotient(y, s * q, d);
  }

  /**
   Multiplying either saved matrix by any number but zero leaves every height
   and every ground position unchanged, wherever both calibrations are
   accepted and neither look-up trips a numeric guard.
   */
  lemma SavedScaleIsIrrelevant(
    ground: Saved, elevated: Saved, s: real, t: real, tolerance: real, foot: Pixel, landmark: Pixel, height: real)
    requires s != 0.0 && t != 0.0
    requires BuildCalibration(ground, elevated, tolerance).Built?
    requires BuildCalibration(ground.(matrix := Scaled(s, ground.matrix)),
                              elevated.(matrix := Scaled(t, elevated.matrix)), tolerance).Built?
    ensures var c := BuildCalibration(ground, elevated, tolerance).calibration;
      var d := BuildCalibration(ground.(matrix := Scaled(s, ground.matrix)),
                                elevated.(matrix := Scaled(t, elevated.matrix)), tolerance).calibration;
      && (HeightFromPixels(c, foot, landmark).Some? && HeightFromPixels(d, foot, landmark).Some?
          ==> HeightFromPixels(d, foot, landmark) == HeightFromPixels(c, foot, landmark))
      && (GroundFromLandmark(c, landmark, height).Some? && GroundFromLandmark(d, landmark, height).Some?
          ==> GroundFromLandmark(d, landmark, height) == GroundFromLandmark(c, landmark, height))
  {
    var c := BuildCalibration(ground, elevated, tolerance).calibration;
    var d := BuildCalibration(ground.(matrix := Scaled(s, ground.matrix)),
                              elevated.(matrix := Scaled(t, elevated.matrix)), tolerance).calibration;
    SavedRescaled(ground, elevated, s, t, tolerance, c, d);
    Reciprocal(s);
    var r := 1.0 / s;
    RescaledAgree(c, d, r, foot, landmark, height);
  }

  lemma SavedRescaled(
    ground: Saved, elevated: Saved, s: real, t: real, tolerance: real, c: Calibration, d: Calibration)
    requires s != 0.0 && t != 0.0
    requires BuildCalibration(ground, elevated, tolerance) == Built(c)
    requires BuildCalibration(ground.(matrix := Scaled(s, ground.matrix)),
                              elevated.(matrix := Scaled(t, elevated.matrix)), tolerance) == Built(d)
    ensures d.ground == Scaled(1.0 / s, c.ground) && d.vertical == Times(1.0 / s, c.vertical)
  {
    InverseScaled(s, ground.matrix);
    InverseScaled(t, elevated.matrix);
    Reciprocal(s);
    Reciprocal(t);
    BuiltRescaled(Inverse(ground.matrix).value, Inverse(elevated.matrix).value, elevated.planeHeight.value,
                  tolerance, 1.0 / s, 1.0 / t, c, d);
  }

  lemma RescaledAgree(c: Calibration, d: Calibration, r: real, foot: Pixel, landmark: Pixel, height: real)
    requires r != 0.0 && d.ground == Scaled(r, c.ground) && d.vertical == Times(r, c.vertical)
    ensures HeightFromPixels(c, foot, landmark).Some? && HeightFromPixels(d, foot, landmark).Some?
      ==> HeightFromPixels(d, foot, landmark) == HeightFromPixels(c, foot, landmark)
    ensures GroundFromLandmark(c, landmark, height).Some? && GroundFromLandmark(d, landmark, height).Some?
      ==> GroundFromLandmark(d, landmark, height) == GroundFromLandmark(c, landmark, height)
  {
    var e := Rescaled(c, r);
    assert HeightFromPixels(d, foot, landmark) == HeightFromPixels(e, foot, landmark);
    assert GroundFromLandmark(d, landmark, height) == GroundFromLandmark(e, landmark, height);
    if HeightFromPixels(c, foot, landmark).Some? && HeightFromPixels(d, foot, landmark).Some? {
      HeightRescaled(c, r, foot, landmark);
    }
    if GroundFromLandmark(c, landmark, height).Some? && GroundFromLandmark(d, landmark, height).Some? {
      GroundRescaled(c, r, landmark, height);
    }
  }

  // --- From calibration to position ----------------------------------------

  /** A height measured with a plane k times too high belongs to the true height. */
  lemma ExactHomography(
    plane: Mat, vertical: Vec, raised: real, p: real, height: real, h: real, stretch: real, measured: real)
    requires raised != 0.0 && height != 0.0 && stretch == raised / height && measured * stretch == h
    ensures Homography(ExactCalibration(plane, vertical, raised, p, height), measured)
         == Scaled(p, AtHeight(plane, vertical, h))
  {
    ScaledTwice(measured, stretch, h, Times(p, vertical));
    TimesSwap(h, p, vertical);
    TimesOfSum(p, plane.c, Times(h, vertical));
  }

  lemma PixelOfTimes(s: real, p: Vec, p': Vec)
    requires s != 0.0 && p.z != 0.0 && p' == Times(s, p)
    ensures p'.z != 0.0 && PixelOf(p') == PixelOf(p)
  {
    assert p'.z != 0.0;
    RatioKept(s, p.x, p.z, p'.x, p'.z);
    RatioKept(s, p.y, p.z, p'.y, p'.z);
  }

  lemma SeenScaled(s: real, plane: Mat, at: Pixel)
    requires s != 0.0 && Seen(plane, at).z != 0.0
    ensures Seen(Scaled(s, plane), at).z != 0.0 && PixelOf(Seen(Scaled(s, plane), at)) == PixelOf(Seen(plane, at))
  {
    ApplyScaled(s, plane, Lift(at));
    PixelOfTimes(s, Seen(plane, at), Seen(Scaled(s, plane), at));
  }

  lemma DetNotZero(s: real, m: Mat)
    requires s != 0.0 && Det(m) != 0.0
    ensures Det(Scaled(s, m)) != 0.0
  {
    SolveScaled(s, m, E1);
  }

  /** A height learned and a position found later, from the calibration that exact planes lead to. */
  lemma FoundAgain(
    plane: Mat, vertical: Vec, raised: real, p: real, height: real, c: Calibration, h: real, first: Pixel, later: Pixel,
    learned: real, stretch: real)
    requires raised > 0.0 && height > 0.0 && p != 0.0 && stretch == raised / height
    requires c == ExactCalibration(plane, vertical, raised, p, height)
    requires var lifted := AtHeight(plane, vertical, h);
      && Det(plane) != 0.0 && Det(lifted) != 0.0
      && Seen(plane, first).z != 0.0 && Seen(lifted, first).z != 0.0 && Seen(lifted, later).z != 0.0
      && HeightFromPixels(c, PixelOf(Seen(plane, first)), PixelOf(Seen(lifted, first))) == Some(learned)
    ensures learned * stretch == h
    ensures GroundFromLandmark(c, PixelOf(Seen(AtHeight(plane, vertical, h), later)), learned) in {None, Some(later)}
  {
    var lifted := AtHeight(plane, vertical, h);
    var measured := h / stretch;
    Unstretch(h, stretch, raised, height, measured);
    ExactHomography(plane, vertical, raised, p, height, h, stretch, measured);
    DetNotZero(p, plane);
    DetNotZero(p, lifted);
    SeenScaled(p, plane, first);
    SeenScaled(p, lifted, first);
    SeenScaled(p, lifted, later);
    HeightRoundTrip(c, first, measured);
    GroundRoundTrip(c, later, measured);
  }

  lemma Unstretch(h: real, stretch: real, raised: real, height: real, measured: real)
    requires raised > 0.0 && height > 0.0 && stretch == raised / height && stretch != 0.0 ==> measured == h / stretch
    requires raised > 0.0 && height > 0.0 && stretch == raised / height
    ensures stretch != 0.0 && measured * stretch == h
  {
  }

  /**
   The whole way, from two saved matrices: two exact planes in any scales, the
   elevated one measured any number of times too high, a height learned while
   the feet were seen, and a position found later from the landmark alone. The
   height is wrong by that factor and the position is right, unless a numeric
   guard declines to answer.
   */
  lemma LearnedThenFound(
    ground: Saved, elevated: Saved, plane: Mat, vertical: Vec, raised: real, alpha: real, beta: real, tolerance: real,
    c: Calibration, h: real, first: Pixel, later: Pixel, learned: real)
    requires alpha != 0.0 && beta != 0.0 && tolerance >= 0.0 && raised > 0.0
    requires Undoes(ground.matrix, plane, alpha) && Undoes(elevated.matrix, AtHeight(plane, vertical, raised), beta)
    requires BuildCalibration(ground, elevated, tolerance) == Built(c)
    requires var lifted := AtHeight(plane, vertical, h);
      && Det(plane) != 0.0 && Det(lifted) != 0.0
      && Seen(plane, first).z != 0.0 && Seen(lifted, first).z != 0.0 && Seen(lifted, later).z != 0.0
      && HeightFromPixels(c, PixelOf(Seen(plane, first)), PixelOf(Seen(lifted, first))) == Some(learned)
    ensures learned * (raised / c.elevatedHeight) == h
    ensures GroundFromLandmark(c, PixelOf(Seen(AtHeight(plane, vertical, h), later)), learned) in {None, Some(later)}
  {
    ExactPlanesRecoverTheCamera(ground, elevated, plane, vertical, raised, alpha, beta, tolerance);
    Reciprocal(alpha);
    var height := c.elevatedHeight;
    FoundAgain(plane, vertical, raised, 1.0 / alpha, height, c, h, first, later, learned, raised / height);
  }
}
