/**
 Which upright people the lean gate lets through, and so whose heights are
 ever learned.
 */
module LeanGate {
  import opened LinearAlgebra
  import opened Metrology
  import opened MetrologyProperties
  import opened HeightMemory
  import opened Options

  // --- The comparison of cosines -------------------------------------------

  lemma SignOfProduct(a: real, b: real, p: real)
    requires b > 0.0 && p == a * b
    ensures (p >= 0.0 <==> a >= 0.0) && (p > 0.0 <==> a > 0.0)
  {
  }

  lemma SquareOfProduct(a: real, b: real, p: real)
    requires p == a * b
    ensures Square(p) == Square(a) * Square(b)
  {
    assert (a * b) * (a * b) == (a * a) * (b * b);
  }

  lemma SquareOfNegative(a: real)
    ensures Square(-a) == Square(a)
  {
  }

  lemma SquaresOrdered(a: real, b: real, p: real, q: real)
    requires a >= 0.0 && b >= 0.0 && p == Square(a) && q == Square(b)
    ensures p >= q <==> a >= b
  {
    var d := p - q;
    assert d == (a - b) * (a + b);
    if a + b > 0.0 {
      SignOfProduct(a - b, a + b, d);
    }
  }

  /** The comparison by squares is the comparison of the cosine `dot / r` itself, `r` the product of the lengths. */
  lemma CosineBySquares(limit: real, dot: real, r: real)
    requires r > 0.0
    ensures CosineAtLeast(limit, dot, Square(r)) <==> dot / r >= limit
  {
    var q, least := dot / r, limit * r;
    SquareOfProduct(limit, r, least);
    SignOfProduct(limit, r, least);
    SignOfProduct(q - limit, r, dot - least);
    if dot >= 0.0 && least >= 0.0 {
      SquaresOrdered(dot, least, Square(dot), Square(least));
    } else if dot <= 0.0 && least <= 0.0 {
      SquareOfNegative(dot);
      SquareOfNegative(least);
      SquaresOrdered(-least, -dot, Square(least), Square(dot));
    }
  }

  /** Where an upright person is expected to point: the way to the vertical vanishing point, if within reach. */
  function Aim(c: Calibration, foot: Pixel): Pixel {
    if -0.000000001 < c.vertical.z < 0.000000001 then (c.vertical.x, c.vertical.y)
    else (c.vertical.x / c.vertical.z - foot.0, c.vertical.y / c.vertical.z - foot.1)
  }

  predicate Length(a: real, v: Pixel) { a >= 0.0 && Square(a) == v.0 * v.0 + v.1 * v.1 }

  /** Neither length is too short and the cosine is at least the limit. */
  predicate AlongEnough(limit: real, dot: real, a: real, b: real) {
    a >= 0.000001 && b >= 0.000000001 && dot / (a * b) >= limit
  }

  /** The same on plain numbers: the lengths, and the inner product over their product. */
  lemma GateByNumbers(limit: real, dot: real, observed: real, expected: real, a: real, b: real)
    requires a >= 0.0 && b >= 0.0 && observed == Square(a) && expected == Square(b)
    ensures LongEnough(observed, expected) && CosineWithin(limit, dot, observed, expected) <==>
      AlongEnough(limit, dot, a, b)
  {
    SquaresOrdered(a, 0.000001, observed, 0.000000000001);
    SquaresOrdered(b, 0.000000001, expected, 0.000000000000000001);
    if a >= 0.000001 && b >= 0.000000001 {
      var area := a * b;
      SignOfProduct(a, b, area);
      SquareOfProduct(a, b, area);
      CosineBySquares(limit, dot, area);
    }
  }

  lemma AngleExactly(o: Pixel, e: Pixel, limit: real, a: real, b: real)
    requires Length(a, o) && Length(b, e)
    ensures AngleWithin(o, e, limit) <==> AlongEnough(limit, o.0 * e.0 + o.1 * e.1, a, b)
  {
    GateByNumbers(limit, DotPixel(o, e), DotPixel(o, o), DotPixel(e, e), a, b);
  }

  /**
   The gate in so many words: neither the way from feet to head nor the
   expected one is too short, and the cosine of the angle between them is at
   least that of the greatest lean allowed.
   */
  lemma GateExactly(c: Calibration, foot: Pixel, head: Pixel, way: Pixel, limit: real, a: real, b: real)
    requires way == (head.0 - foot.0, head.1 - foot.1) && Length(a, way) && Length(b, Aim(c, foot))
    ensures WithinLean(c, foot, head, limit) <==>
      AlongEnough(limit, way.0 * Aim(c, foot).0 + way.1 * Aim(c, foot).1, a, b)
  {
    AngleExactly(way, Aim(c, foot), limit, a, b);
  }

  /** Only the direction of what is observed matters, not its length. */
  lemma CosineOfStretched(limit: real, k: real, dot: real, squares: real, longer: real, area: real)
    requires k > 0.0 && longer == k * dot && area == Square(k) * squares
    ensures CosineAtLeast(limit, longer, area) <==> CosineAtLeast(limit, dot, squares)
  {
    var kk, d, l := Square(k), Square(dot), Square(limit);
    SignOfProduct(k, k, kk);
    SignOfProduct(dot, k, longer);
    SquareOfProduct(k, dot, longer);
    assert Square(longer) - l * area == (d - l * squares) * kk;
    SignOfProduct(d - l * squares, kk, Square(longer) - l * area);
    SignOfProduct(l * squares - d, kk, l * area - Square(longer));
  }

  /** Parallel directions pass whatever the limit, opposite ones never do. */
  lemma CosineOfParallel(limit: real, t: real, n: real, dot: real)
    requires -1.0 < limit <= 1.0 && n > 0.0 && t != 0.0 && dot == t * n
    ensures CosineAtLeast(limit, dot, Square(dot)) <==> t > 0.0
  {
    SignOfProduct(t, n, dot);
    SignOfProduct(-t, n, -dot);
    SquareOfNegative(dot);
    var r := if t > 0.0 then dot else -dot;
    CosineBySquares(limit, dot, r);
    Quotient(dot, if t > 0.0 then 1.0 else -1.0, r);
  }

  // --- What is observed of an upright person -------------------------------

  function Way(v: real, vz: real, f: real): real { v - vz * f }

  /** From a pixel towards the vertical vanishing point, in the scale of the vertical vector. */
  function Towards(c: Calibration, pixel: Pixel): Pixel {
    (Way(c.vertical.x, c.vertical.z, pixel.0), Way(c.vertical.y, c.vertical.z, pixel.1))
  }

  predicate Stretches(o: Pixel, k: real, d: Pixel) { o.0 == k * d.0 && o.1 == k * d.1 }

  lemma StretchedProducts(k: real, d: Pixel, e: Pixel, o: Pixel)
    requires Stretches(o, k, d)
    ensures DotPixel(o, e) == k * DotPixel(d, e)
    ensures DotPixel(o, o) == Square(k) * DotPixel(d, d)
  {
    StretchedSums(k, d.0, d.1, e.0, e.1, o.0, o.1);
  }

  lemma StretchedSums(k: real, d: real, d': real, e: real, e': real, o: real, o': real)
    requires o == k * d && o' == k * d'
    ensures o * e + o' * e' == k * (d * e + d' * e')
    ensures o * o + o' * o' == Square(k) * (d * d + d' * d')
  {
    SquareOfProduct(k, d, o);
    SquareOfProduct(k, d', o');
  }

  lemma RaisedPart(
    g: real, v: real, gz: real, vz: real, h: real, hv: real, hvz: real, s: real, sz: real, k: real, f: real, e: real)
    requires gz != 0.0 && sz != 0.0 && hv == h * v && hvz == h * vz && s == g + hv && sz == gz + hvz
    requires k == h / sz && f == g / gz && e == Way(v, vz, f)
    ensures s / sz - f == k * e
  {
    assert f * gz == g && k * sz == h;
    assert (f + k * e) * sz == s by {
      assert (k * e) * sz == (k * sz) * e;
      assert h * e == hv - hvz * f by { assert h * (vz * f) == (h * vz) * f; }
      assert f * sz == f * gz + f * hvz;
    }
    Quotient(s, f + k * e, sz);
  }

  lemma RaisedVec(g: Vec, v: Vec, raised: Vec, s: Vec, h: real, k: real, f: Pixel, e: Pixel)
    requires g.z != 0.0 && s.z != 0.0 && k == h / s.z && raised == Times(h, v) && s == Add(g, raised)
    requires f.0 == g.x / g.z && f.1 == g.y / g.z && e == (Way(v.x, v.z, f.0), Way(v.y, v.z, f.1))
    ensures Stretches(ObservedDirection(f, PixelOf(s)), k, e)
  {
    RaisedPart(g.x, v.x, g.z, v.z, h, raised.x, raised.z, s.x, s.z, k, f.0, e.0);
    RaisedPart(g.y, v.y, g.z, v.z, h, raised.y, raised.z, s.y, s.z, k, f.1, e.1);
  }

  /** The image of an upright person, feet to landmark, is this multiple of the way to the vanishing point. */
  lemma ObservedUpright(c: Calibration, at: Pixel, height: real, foot: Vec, head: Vec)
    requires foot == Seen(c.ground, at) && head == Seen(Homography(c, height), at)
    requires foot.z != 0.0 && head.z != 0.0
    ensures Stretches(ObservedDirection(PixelOf(foot), PixelOf(head)), height / head.z, Towards(c, PixelOf(foot)))
  {
    var f := PixelOf(foot);
    SeenHigher(c.ground, c.vertical, height, at);
    RaisedVec(foot, c.vertical, Times(height, c.vertical), head, height, height / head.z, f, Towards(c, f));
  }

  // --- Who passes ----------------------------------------------------------

  /** Where an upright person of some height is seen, feet and head. */
  predicate UprightAt(c: Calibration, at: Pixel, height: real, foot: Pixel, head: Pixel) {
    var low, high := Seen(c.ground, at), Seen(Homography(c, height), at);
    low.z != 0.0 && high.z != 0.0 && foot == PixelOf(low) && head == PixelOf(high)
  }

  /** Times the vertical's own depth this is the share of the landmark's depth that raising it has added. */
  function HeightOverDepth(c: Calibration, at: Pixel, height: real): real
    requires Seen(Homography(c, height), at).z != 0.0
  {
    height / Seen(Homography(c, height), at).z
  }

  predicate FarFromHorizontal(c: Calibration) { Magnitude(c.vertical.z) >= 0.000000001 }

  lemma ExpectedIsTowards(c: Calibration, pixel: Pixel)
    requires FarFromHorizontal(c)
    ensures Stretches(Towards(c, pixel), c.vertical.z, ExpectedDirection(c, pixel))
  {
    TowardsPart(c.vertical.x, c.vertical.z, pixel.0);
    TowardsPart(c.vertical.y, c.vertical.z, pixel.1);
  }

  lemma TowardsPart(v: real, vz: real, f: real)
    requires vz != 0.0
    ensures Way(v, vz, f) == vz * (v / vz - f)
  {
    var q := v / vz;
    assert q * vz == v;
  }

  lemma StretchTwice(k: real, s: real, t: real, d: Pixel, e: Pixel, o: Pixel)
    requires Stretches(o, k, e) && Stretches(e, s, d) && t == k * s
    ensures Stretches(o, t, d)
  {
    ProductChain(k, s, t, d.0, e.0, o.0);
    ProductChain(k, s, t, d.1, e.1, o.1);
  }

  /**
   With the vertical vanishing point within reach, an upright person passes the
   gate, whatever lean short of 180 degrees it allows, exactly when raising the
   landmark took it away from the camera, unless the directions are too short.
   */
  lemma UprightPassesExactly(c: Calibration, at: Pixel, height: real, foot: Pixel, head: Pixel, limit: real)
    requires UprightAt(c, at, height, foot, head) && FarFromHorizontal(c) && -1.0 < limit <= 1.0
    ensures WithinLean(c, foot, head, limit)
       <==> HasAngle(ObservedDirection(foot, head), ExpectedDirection(c, foot))
            && HeightOverDepth(c, at, height) * c.vertical.z > 0.0
  {
    var o, e := ObservedDirection(foot, head), ExpectedDirection(c, foot);
    var t := HeightOverDepth(c, at, height) * c.vertical.z;
    ObservedAt(c, at, height, foot, head);
    ExpectedIsTowards(c, foot);
    StretchTwice(HeightOverDepth(c, at, height), c.vertical.z, t, e, Towards(c, foot), o);
    ParallelPasses(o, e, t, limit);
  }

  lemma ObservedAt(c: Calibration, at: Pixel, height: real, foot: Pixel, head: Pixel)
    requires UprightAt(c, at, height, foot, head)
    ensures Stretches(ObservedDirection(foot, head), HeightOverDepth(c, at, height), Towards(c, foot))
  {
    ObservedUpright(c, at, height, Seen(c.ground, at), Seen(Homography(c, height), at));
  }

  lemma ParallelPasses(o: Pixel, e: Pixel, t: real, limit: real)
    requires -1.0 < limit <= 1.0 && Stretches(o, t, e)
    ensures AngleWithin(o, e, limit) <==> HasAngle(o, e) && t > 0.0
  {
    if HasAngle(o, e) {
      var n, dot, oo := DotPixel(e, e), DotPixel(o, e), DotPixel(o, o);
      StretchedProducts(t, e, e, o);
      SquareOfProduct(t, n, dot);
      AreaOf(t, n, oo, oo * n, Square(dot));
      if t == 0.0 {
        NoLength(t, e, o);
      }
      CosineOfParallel(limit, t, n, dot);
    }
  }

  lemma NoLength(k: real, e: Pixel, o: Pixel)
    requires Stretches(o, k, e) && k == 0.0
    ensures DotPixel(o, o) == 0.0
  {
    assert o == (0.0, 0.0);
  }

  lemma AreaOf(t: real, n: real, oo: real, area: real, square: real)
    requires oo == Square(t) * n && area == oo * n && square == Square(t) * Square(n)
    ensures area == square
  {
    assert (Square(t) * n) * n == Square(t) * (n * n);
  }

  /** The cosine between the two directions, one turned round when `k` is not positive, is at least `limit`. */
  predicate SignedWithin(k: real, d: Pixel, e: Pixel, limit: real) {
    CosineWithin(limit, if k > 0.0 then DotPixel(d, e) else -DotPixel(d, e), DotPixel(d, d), DotPixel(e, e))
  }

  /**
   With the vanishing point out of reach the gate takes the vertical vector
   itself for the direction of an upright person, so its sign decides: the way
   to the vanishing point is compared with it when the height over the
   landmark's depth is positive, and the opposite way otherwise.
   */
  lemma UprightNearHorizontal(c: Calibration, at: Pixel, height: real, foot: Pixel, head: Pixel, limit: real)
    requires UprightAt(c, at, height, foot, head) && !FarFromHorizontal(c)
    ensures var e := (c.vertical.x, c.vertical.y);
      WithinLean(c, foot, head, limit)
      <==> HasAngle(ObservedDirection(foot, head), e)
           && SignedWithin(HeightOverDepth(c, at, height), Towards(c, foot), e, limit)
  {
    var o, k := ObservedDirection(foot, head), HeightOverDepth(c, at, height);
    var d, e := Towards(c, foot), (c.vertical.x, c.vertical.y);
    ObservedAt(c, at, height, foot, head);
    StretchedProducts(k, d, e, o);
    StretchedPasses(o, k, d, e, limit);
  }

  lemma StretchedPasses(o: Pixel, k: real, d: Pixel, e: Pixel, limit: real)
    requires DotPixel(o, e) == k * DotPixel(d, e) && DotPixel(o, o) == Square(k) * DotPixel(d, d)
    ensures AngleWithin(o, e, limit) <==> HasAngle(o, e) && SignedWithin(k, d, e, limit)
  {
    SignedStretch(limit, k, DotPixel(d, e), DotPixel(d, d), DotPixel(e, e), DotPixel(o, e), DotPixel(o, o));
  }

  lemma SignedStretch(limit: real, k: real, dot: real, dd: real, n: real, longer: real, oo: real)
    requires longer == k * dot && oo == Square(k) * dd
    ensures oo > 0.0 ==>
      (CosineWithin(limit, longer, oo, n) <==> CosineWithin(limit, if k > 0.0 then dot else -dot, dd, n))
  {
    AreaStretched(Square(k), dd, n, oo);
    if k > 0.0 {
      CosineOfStretched(limit, k, dot, dd * n, longer, oo * n);
    } else if k < 0.0 {
      SquareOfNegative(k);
      CosineOfStretched(limit, -k, -dot, dd * n, longer, oo * n);
    } else {
      assert Square(k) == 0.0;
    }
  }

  lemma AreaStretched(kk: real, dd: real, n: real, oo: real)
    requires oo == kk * dd
    ensures oo * n == kk * (dd * n)
  {
  }

  /** Exactly level, an upright person passes exactly when the height over the depth is positive. */
  lemma UprightPassesLevel(c: Calibration, at: Pixel, height: real, foot: Pixel, head: Pixel, limit: real)
    requires UprightAt(c, at, height, foot, head) && c.vertical.z == 0.0 && -1.0 < limit <= 1.0
    ensures WithinLean(c, foot, head, limit)
       <==> HasAngle(ObservedDirection(foot, head), (c.vertical.x, c.vertical.y)) && HeightOverDepth(c, at, height) > 0.0
  {
    var k, e := HeightOverDepth(c, at, height), (c.vertical.x, c.vertical.y);
    UprightNearHorizontal(c, at, height, foot, head, limit);
    assert Towards(c, foot) == e;
    var n := DotPixel(e, e);
    if n > 0.0 {
      CosineOfParallel(limit, if k > 0.0 then 1.0 else -1.0, n, if k > 0.0 then n else -n);
      SquareOfNegative(n);
    }
  }

  // --- What the saved scale has to do with it ------------------------------

  /** With the vanishing point within reach the gate does not depend on the scale of the calibration. */
  lemma GateRescaled(c: Calibration, s: real, foot: Pixel, head: Pixel, limit: real)
    requires s != 0.0 && FarFromHorizontal(c) && FarFromHorizontal(Rescaled(c, s))
    ensures WithinLean(Rescaled(c, s), foot, head, limit) <==> WithinLean(c, foot, head, limit)
  {
    ExpectedRescaled(c, s, foot);
  }

  lemma ExpectedRescaled(c: Calibration, s: real, pixel: Pixel)
    requires s != 0.0 && FarFromHorizontal(c) && FarFromHorizontal(Rescaled(c, s))
    ensures ExpectedDirection(Rescaled(c, s), pixel) == ExpectedDirection(c, pixel)
  {
    AimRescaled(c.vertical, Rescaled(c, s).vertical, s, pixel);
  }

  lemma AimRescaled(v: Vec, w: Vec, s: real, pixel: Pixel)
    requires s != 0.0 && w == Times(s, v) && v.z != 0.0 && w.z != 0.0
    ensures (w.x / w.z - pixel.0, w.y / w.z - pixel.1) == (v.x / v.z - pixel.0, v.y / v.z - pixel.1)
  {
    RatioKept(s, v.x, v.z, w.x, w.z);
    RatioKept(s, v.y, v.z, w.y, w.z);
  }

  /**
   For a level camera the sign its ground plane happens to be saved with
   decides: of a calibration and its negative, which agree on every height and
   position, exactly one lets a given upright person through.
   */
  lemma SavedSignDecides(c: Calibration, at: Pixel, height: real, foot: Pixel, head: Pixel, limit: real)
    requires UprightAt(c, at, height, foot, head) && c.vertical.z == 0.0 && -1.0 < limit <= 1.0
    requires HasAngle(ObservedDirection(foot, head), (c.vertical.x, c.vertical.y))
    ensures UprightAt(Rescaled(c, -1.0), at, height, foot, head)
    ensures WithinLean(Rescaled(c, -1.0), foot, head, limit) <==> !WithinLean(c, foot, head, limit)
  {
    var d, k := Rescaled(c, -1.0), HeightOverDepth(c, at, height);
    MirroredUpright(c, at, height, foot, head);
    MirroredAngle(ObservedDirection(foot, head), c.vertical, d.vertical);
    ObservedAt(c, at, height, foot, head);
    if k == 0.0 {
      NoLength(k, Towards(c, foot), ObservedDirection(foot, head));
    }
    UprightPassesLevel(c, at, height, foot, head, limit);
    UprightPassesLevel(d, at, height, foot, head, limit);
  }

  lemma MirroredUpright(c: Calibration, at: Pixel, height: real, foot: Pixel, head: Pixel)
    requires UprightAt(c, at, height, foot, head)
    ensures UprightAt(Rescaled(c, -1.0), at, height, foot, head)
    ensures HeightOverDepth(Rescaled(c, -1.0), at, height) == -HeightOverDepth(c, at, height)
  {
    var low, high := c.ground, Homography(c, height);
    HomographyRescaled(c, -1.0, height);
    SeenScaled(-1.0, low, at);
    SeenScaled(-1.0, high, at);
    ApplyScaledZ(-1.0, high, Lift(at));
    NegatedDivisor(height, Seen(high, at).z, Seen(Scaled(-1.0, high), at).z);
  }

  lemma NegatedDivisor(x: real, z: real, z': real)
    requires z != 0.0 && z' == -1.0 * z
    ensures z' != 0.0 && x / z' == -(x / z)
  {
    Quotient(x, -(x / z), z');
  }

  lemma MirroredAngle(o: Pixel, v: Vec, w: Vec)
    requires w == Times(-1.0, v)
    ensures HasAngle(o, (w.x, w.y)) <==> HasAngle(o, (v.x, v.y))
  {
    SquareOfNegative(v.x);
    SquareOfNegative(v.y);
  }

  // --- What is learned -----------------------------------------------------

  /**
   A frame of an upright person whose head or shoulders are seen is used
   exactly when raising it took it away from the camera; otherwise the frame
   changes nothing, however many of its landmarks are measurable.
   */
  lemma LearnsFromUprightExactly(frame: Frame, at: Pixel, height: real, settings: Settings)
    requires Measurable(frame) && Head(frame).Some? && -1.0 < settings.leanLimit <= 1.0
    requires FarFromHorizontal(frame.calibration.value)
    requires UprightAt(frame.calibration.value, at, height, frame.foot.value, Head(frame).value)
    ensures var c := frame.calibration.value;
      Usable(frame, settings)
      <==> HasAngle(ObservedDirection(frame.foot.value, Head(frame).value), ExpectedDirection(c, frame.foot.value))
           && HeightOverDepth(c, at, height) * c.vertical.z > 0.0
    ensures HeightOverDepth(frame.calibration.value, at, height) * frame.calibration.value.vertical.z <= 0.0
      ==> forall heights :: Learn(heights, frame, settings) == heights
  {
    UprightPassesExactly(frame.calibration.value, at, height, frame.foot.value, Head(frame).value, settings.leanLimit);
  }

  /** A camera two and a half metres up that looks down by about 37 degrees, with a focal length of 1000 pixels. */
  const LOOKING_DOWN := Calibration(
    Mat(Vec(1000.0, 0.0, 0.0), Vec(0.0, -600.0, 0.8), Vec(0.0, 200000.0, 150.0)), Vec(0.0, -800.0, -0.6), 170.0, 0.0)

  /** Feet and nose, 150 centimetres up, of somebody who stands upright a little in front of it. */
  const UPRIGHT_UNDER_IT := Frame(
    Some(1), Some(LOOKING_DOWN), Some((0.0, 500.0)), true, true, map[Nose := (0.0, 31.25)])

  /**
   The nose is measured to be 150 centimetres up, which is plausible and
   right, and is still not learned, however much lean short of 180 degrees is
   allowed.
   */
  lemma NothingLearnedLookingDown(heights: Heights, settings: Settings)
    requires -1.0 < settings.leanLimit <= 1.0
    ensures Measurable(UPRIGHT_UNDER_IT) && Measured(UPRIGHT_UNDER_IT, Nose) == Some(150.0) && Plausible(Nose, 150.0)
    ensures Learn(heights, UPRIGHT_UNDER_IT, settings) == heights
  {
    UnderItUpright();
    UnderItNearer();
    UnderItMeasured();
    LearnsFromUprightExactly(UPRIGHT_UNDER_IT, UNDER_IT, 150.0, settings);
  }

  const UNDER_IT: Pixel := (0.0, 125.0)

  lemma UnderItUpright()
    ensures UprightAt(LOOKING_DOWN, UNDER_IT, 150.0, UPRIGHT_UNDER_IT.foot.value, UPRIGHT_UNDER_IT.landmarks[Nose])
  {
    assert Seen(LOOKING_DOWN.ground, UNDER_IT) == Vec(0.0, 125000.0, 250.0);
    assert Homography(LOOKING_DOWN, 150.0).c == Vec(0.0, 80000.0, 60.0);
    assert Seen(Homography(LOOKING_DOWN, 150.0), UNDER_IT) == Vec(0.0, 5000.0, 160.0);
  }

  lemma UnderItNearer()
    ensures Seen(Homography(LOOKING_DOWN, 150.0), UNDER_IT).z != 0.0
    ensures HeightOverDepth(LOOKING_DOWN, UNDER_IT, 150.0) * LOOKING_DOWN.vertical.z <= 0.0
  {
    Nearer(LOOKING_DOWN, UNDER_IT, 150.0);
  }

  /** What is raised in front of a camera comes nearer when the vertical points towards the camera. */
  lemma Nearer(c: Calibration, at: Pixel, height: real)
    requires height > 0.0 && Seen(Homography(c, height), at).z > 0.0 && c.vertical.z < 0.0
    ensures HeightOverDepth(c, at, height) * c.vertical.z <= 0.0
  {
    var k, v := HeightOverDepth(c, at, height), c.vertical.z;
    assert k > 0.0;
    SignOfProduct(-v, k, -(k * v));
  }

  lemma UnderItMeasured()
    ensures Measured(UPRIGHT_UNDER_IT, Nose) == Some(150.0)
  {
    UnderItUpright();
    UnderItGuards();
    HeightRoundTrip(LOOKING_DOWN, UNDER_IT, 150.0);
  }

  lemma UnderItGuards()
    ensures Det(LOOKING_DOWN.ground) != 0.0
    ensures Magnitude(1.0 / Seen(LOOKING_DOWN.ground, UNDER_IT).z) >= 0.000000001
    ensures var n := Cross(Lift(UPRIGHT_UNDER_IT.landmarks[Nose]), LOOKING_DOWN.vertical); Dot(n, n) >= 1.0
  {
  }
}
