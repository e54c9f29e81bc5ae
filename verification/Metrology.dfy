/**
 Two-plane metrology: a camera's calibration from two saved planes, a person's
 ground position from a landmark of known height, and a landmark's height from
 the pixel of the feet. Norms are kept squared.
 */
module Metrology {
  import opened LinearAlgebra
  import opened Options

  type Pixel = (real, real)

  /** A saved plane, in image-to-world form. */
  datatype Saved = Saved(matrix: Mat, mapSize: Option<real>, planeHeight: Option<real>)

  /** World-to-image geometry; the vertical vector is in the scale of the ground homography. */
  datatype Calibration = Calibration(ground: Mat, vertical: Vec, elevatedHeight: real, residualSquared: real)

  datatype Refusal =
    | SingularMatrix | OtherMap | NoHeight | BadHeight | Degenerate | Unmatched | Disagreeing | SamePlane

  datatype Built = Built(calibration: Calibration) | Refused(reason: Refusal)

  function Magnitude(x: real): real { if x < 0.0 then -x else x }

  function Over(v: Vec, d: real): Vec
    requires d != 0.0
  {
    Vec(v.x / d, v.y / d, v.z / d)
  }

  predicate NearlySingular(m: Mat) { Magnitude(Det(m)) < 0.000000000001 }

  /** The sum of products over the first two columns. */
  function Flat(m: Mat, n: Mat): real { Dot(m.a, n.a) + Dot(m.b, n.b) }

  function Floor(x: real, low: real): real { if x < low then low else x }

  function ResidualSquared(ground: Mat, matched: Mat): real {
    var difference := Mat(Sub(matched.a, ground.a), Sub(matched.b, ground.b), Vec(0.0, 0.0, 0.0));
    Flat(difference, difference) / Floor(Flat(ground, ground), 0.000000000000000000000001)
  }

  /** The elevated plane is now in the scale of the ground plane. */
  function BuildMatched(ground: Mat, matched: Mat, height: real, tolerance: real): Built
    requires height > 0.0
  {
    var residual := ResidualSquared(ground, matched);
    if tolerance < 0.0 || residual > tolerance * tolerance then Refused(Disagreeing)
    else
      var vertical := Over(Sub(matched.c, ground.c), height);
      if Dot(vertical, vertical) < 0.000000000000000000000001 then Refused(SamePlane)
      else Built(Calibration(ground, vertical, height, residual))
  }

  function BuildFrom(ground: Mat, elevated: Mat, height: real, tolerance: real): Built
    requires height > 0.0
  {
    var denominator := Flat(elevated, elevated);
    if denominator <= 0.0 then Refused(Degenerate)
    else
      var scale := Flat(ground, elevated) / denominator;
      if Magnitude(scale) < 0.000000000001 then Refused(Unmatched)
      else BuildMatched(ground, Scaled(scale, elevated), height, tolerance)
  }

  function BuildCalibration(ground: Saved, elevated: Saved, tolerance: real): Built {
    if NearlySingular(ground.matrix) || NearlySingular(elevated.matrix) then Refused(SingularMatrix)
    else if ground.mapSize.Some? && elevated.mapSize.Some?
            && Magnitude(elevated.mapSize.value - ground.mapSize.value) > 0.000001 then Refused(OtherMap)
    else if elevated.planeHeight.None? then Refused(NoHeight)
    else if elevated.planeHeight.value <= 0.0 then Refused(BadHeight)
    else
      BuildFrom(Inverse(ground.matrix).value, Inverse(elevated.matrix).value, elevated.planeHeight.value, tolerance)
  }

  function AtHeight(ground: Mat, vertical: Vec, height: real): Mat {
    Mat(ground.a, ground.b, Add(ground.c, Times(height, vertical)))
  }

  function Homography(c: Calibration, height: real): Mat { AtHeight(c.ground, c.vertical, height) }

  function Lift(pixel: Pixel): Vec { Vec(pixel.0, pixel.1, 1.0) }

  /** A world point of the plane, from its homogeneous form; none when it is too near infinity. */
  function Grounded(world: Option<Vec>): Option<Pixel> {
    if world.None? || Magnitude(world.value.z) < 0.000000001 then None
    else Some((world.value.x / world.value.z, world.value.y / world.value.z))
  }

  function GroundFromLandmark(c: Calibration, pixel: Pixel, height: real): Option<Pixel> {
    Grounded(Solve(Homography(c, height), Lift(pixel)))
  }

  /** The height for which `landmark ~ ground + height * vertical` fits best. */
  function FittedHeight(ground: Vec, vertical: Vec, landmark: Vec): Option<real> {
    var numerator, denominator := Cross(landmark, ground), Cross(landmark, vertical);
    var scale := Dot(denominator, denominator);
    if scale < 0.000000000001 then None else Some(-Dot(numerator, denominator) / scale)
  }

  function HeightFromPixels(c: Calibration, foot: Pixel, landmark: Pixel): Option<real> {
    var position := Grounded(Solve(c.ground, Lift(foot)));
    if position.None? then None
    else FittedHeight(Apply(c.ground, Lift(position.value)), c.vertical, Lift(landmark))
  }

  /** Where a camera sees the point of this plane, in homogeneous form and as a pixel. */
  function Seen(plane: Mat, at: Pixel): Vec { Apply(plane, Lift(at)) }

  function PixelOf(p: Vec): Pixel
    requires p.z != 0.0
  {
    (p.x / p.z, p.y / p.z)
  }

  /** The image direction that world-vertical projects to at a pixel, not normalised. */
  function ExpectedDirection(c: Calibration, pixel: Pixel): Pixel {
    if Magnitude(c.vertical.z) < 0.000000001 then (c.vertical.x, c.vertical.y)
    else (c.vertical.x / c.vertical.z - pixel.0, c.vertical.y / c.vertical.z - pixel.1)
  }

  function ObservedDirection(foot: Pixel, head: Pixel): Pixel { (head.0 - foot.0, head.1 - foot.1) }

  function DotPixel(u: Pixel, v: Pixel): real { u.0 * v.0 + u.1 * v.1 }

  function Square(x: real): real { x * x }

  /** A cosine of at least `limit`, for vectors with this inner product and this product of squared lengths. */
  predicate CosineAtLeast(limit: real, dot: real, squares: real) {
    if dot >= 0.0 then limit <= 0.0 || Square(dot) >= Square(limit) * squares
    else limit < 0.0 && Square(dot) <= Square(limit) * squares
  }

  /** The two directions, of these squared lengths, are long enough to speak of an angle. */
  predicate LongEnough(observed: real, expected: real) {
    expected >= 0.000000000000000001 && observed >= 0.000000000001
  }

  predicate HasAngle(observed: Pixel, expected: Pixel) {
    LongEnough(DotPixel(observed, observed), DotPixel(expected, expected))
  }

  /** There is an angle between the two and its cosine is at least `limit`. */
  predicate AngleWithin(observed: Pixel, expected: Pixel, limit: real) {
    && HasAngle(observed, expected)
    && CosineWithin(limit, DotPixel(observed, expected), DotPixel(observed, observed), DotPixel(expected, expected))
  }

  predicate CosineWithin(limit: real, dot: real, observed: real, expected: real) {
    CosineAtLeast(limit, dot, observed * expected)
  }

  /** There is a lean angle and its cosine is at least that of the greatest lean allowed. */
  predicate WithinLean(c: Calibration, foot: Pixel, head: Pixel, limit: real) {
    AngleWithin(ObservedDirection(foot, head), ExpectedDirection(c, foot), limit)
  }
}
