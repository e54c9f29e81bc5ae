/** What mis-measuring the elevated plane does to heights that are learned over many frames. */
module SettledHeights {
  import opened HeightMemory
  import LinearAlgebra
  import Metrology
  import MetrologyProperties
  import opened Options

  function Each(f: real -> real, s: seq<real>): seq<real> {
    seq(|s|, i requires 0 <= i < |s| => f(s[i]))
  }

  function Mean(x: real, y: real): real { (x + y) / 2.0 }

  /** A change of unit keeps the order of two heights, their mean and any blend of them. */
  ghost predicate KeepsOrder(f: real -> real) {
    forall x, y {:trigger NoLarger(f(x), f(y))} :: NoLarger(f(x), f(y)) <==> NoLarger(x, y)
  }

  ghost predicate KeepsMeans(f: real -> real) {
    forall x, y {:trigger Mean(f(x), f(y))} :: Mean(f(x), f(y)) == f(Mean(x, y))
  }

  ghost predicate KeepsBlends(f: real -> real, alpha: real) {
    forall x, y {:trigger Blend(alpha, f(x), f(y))} :: Blend(alpha, f(x), f(y)) == f(Blend(alpha, x, y))
  }

  // --- The median in another unit ------------------------------------------

  lemma EachNext(f: real -> real, x: real, s: seq<real>)
    ensures Each(f, [x] + s) == [f(x)] + Each(f, s)
  {
  }

  lemma {:induction false} InsertEach(f: real -> real, x: real, s: seq<real>)
    requires KeepsOrder(f)
    ensures StableSort.Insert(f(x), Each(f, s), NoLarger) == Each(f, StableSort.Insert(x, s, NoLarger))
  {
    if s != [] {
      assert NoLarger(f(x), f(s[0])) <==> NoLarger(x, s[0]);
      if NoLarger(x, s[0]) {
        EachNext(f, x, s);
      } else {
        InsertEach(f, x, s[1..]);
        assert Each(f, s)[1..] == Each(f, s[1..]);
        EachNext(f, s[0], StableSort.Insert(x, s[1..], NoLarger));
      }
    }
  }

  lemma {:induction false} SortEach(f: real -> real, s: seq<real>)
    requires KeepsOrder(f)
    ensures StableSort.SortBy(Each(f, s), NoLarger) == Each(f, StableSort.SortBy(s, NoLarger))
  {
    if s != [] {
      SortEach(f, s[1..]);
      assert Each(f, s)[1..] == Each(f, s[1..]);
      InsertEach(f, s[0], StableSort.SortBy(s[1..], NoLarger));
    }
  }

  lemma MiddleEach(f: real -> real, sorted: seq<real>)
    requires KeepsMeans(f) && sorted != []
    ensures Middle(Each(f, sorted)) == f(Middle(sorted))
  {
    var n := |sorted|;
    if n % 2 == 0 {
      var x, y := sorted[n / 2 - 1], sorted[n / 2];
      assert Middle(sorted) == Mean(x, y) && Middle(Each(f, sorted)) == Mean(f(x), f(y));
    }
  }

  lemma MedianEach(f: real -> real, window: seq<real>)
    requires KeepsOrder(f) && KeepsMeans(f) && window != []
    ensures Median(Each(f, window)) == f(Median(window))
  {
    SortEach(f, window);
    MiddleEach(f, StableSort.SortBy(window, NoLarger));
  }

  // --- The memory in another unit ------------------------------------------

  function ValueIn(f: real -> real, value: Option<real>): Option<real> {
    if value.Some? then Some(f(value.value)) else None
  }

  function MemoryIn(f: real -> real, m: Memory): Memory {
    Memory(Each(f, m.window), ValueIn(f, m.value), m.samples)
  }

  lemma PushedEach(f: real -> real, window: seq<real>, x: real)
    ensures Pushed(Each(f, window), f(x)) == Each(f, Pushed(window, x))
  {
    assert Each(f, window) + [f(x)] == Each(f, window + [x]);
  }

  lemma ObserveEach(f: real -> real, m: Memory, height: real, settings: Settings)
    requires KeepsOrder(f) && KeepsMeans(f) && KeepsBlends(f, settings.alpha)
    ensures Observe(MemoryIn(f, m), f(height), settings) == MemoryIn(f, Observe(m, height, settings))
  {
    PushedEach(f, m.window, height);
    MedianEach(f, Pushed(m.window, height));
  }

  /** Learned from samples in another unit, a memory is the same memory in that unit. */
  lemma {:induction false} MemoryEach(f: real -> real, samples: seq<real>, settings: Settings)
    requires KeepsOrder(f) && KeepsMeans(f) && KeepsBlends(f, settings.alpha)
    ensures MemoryOf(Each(f, samples), settings) == MemoryIn(f, MemoryOf(samples, settings))
  {
    if samples == [] {
      assert Each(f, []) == [];
    } else {
      var front, last := samples[..|samples| - 1], samples[|samples| - 1];
      MemoryEach(f, front, settings);
      assert Each(f, samples)[..|samples| - 1] == Each(f, front);
      ObserveEach(f, MemoryOf(front, settings), last, settings);
    }
  }

  function Stretch(k: real, x: real): real { k * x }

  function Stretching(k: real): real -> real { x => Stretch(k, x) }

  lemma StretchingIsAUnit(k: real, alpha: real)
    requires k > 0.0
    ensures KeepsOrder(Stretching(k)) && KeepsMeans(Stretching(k)) && KeepsBlends(Stretching(k), alpha)
  {
    var f := Stretching(k);
    forall x, y ensures NoLarger(f(x), f(y)) <==> NoLarger(x, y) {
      OrderStretched(k, x, y, Stretch(k, x), Stretch(k, y));
    }
    forall x, y ensures Mean(f(x), f(y)) == f(Mean(x, y)) { MeanStretched(k, x, y, Stretch(k, x), Stretch(k, y)); }
    forall x, y ensures Blend(alpha, f(x), f(y)) == f(Blend(alpha, x, y)) {
      BlendStretched(k, alpha, x, y, Stretch(k, x), Stretch(k, y));
    }
  }

  lemma OrderStretched(k: real, x: real, y: real, x': real, y': real)
    requires k > 0.0 && x' == k * x && y' == k * y
    ensures x' <= y' <==> x <= y
  {
    assert y' - x' == k * (y - x);
    assert x' - y' == k * (x - y);
  }

  lemma MeanStretched(k: real, x: real, y: real, x': real, y': real)
    requires x' == k * x && y' == k * y
    ensures Mean(x', y') == k * Mean(x, y)
  {
  }

  lemma BlendStretched(k: real, alpha: real, x: real, y: real, x': real, y': real)
    requires x' == k * x && y' == k * y
    ensures Blend(alpha, x', y') == k * Blend(alpha, x, y)
  {
    assert (1.0 - alpha) * (k * x) == k * ((1.0 - alpha) * x);
    assert alpha * (k * y) == k * (alpha * y);
  }

  // --- The same run with cameras measured differently ----------------------

  /** The second camera is the first with its elevated plane measured k times too high. */
  predicate Stretched(c: Metrology.Calibration, d: Metrology.Calibration, k: real) {
    d.ground == c.ground && c.vertical == LinearAlgebra.Times(k, d.vertical)
  }

  /** The same frame seen through cameras so calibrated, accepted for the key by both or by neither. */
  predicate SameFrame(a: Frame, b: Frame, k: real, key: Key, settings: Settings) {
    && a.(calibration := None) == b.(calibration := None)
    && (a.calibration.Some? <==> b.calibration.Some?)
    && (a.calibration.Some? ==> Stretched(a.calibration.value, b.calibration.value, k))
    && (Accepts(a, key, settings) <==> Accepts(b, key, settings))
  }

  predicate SameEvent(a: Event, b: Event, k: real, key: Key, settings: Settings) {
    if a.Learns? then b.Learns? && SameFrame(a.frame, b.frame, k, key, settings) else a == b
  }

  ghost predicate SameRun(a: seq<Event>, b: seq<Event>, k: real, key: Key, settings: Settings) {
    |a| == |b| && forall n :: 0 <= n < |a| ==> SameEvent(a[n], b[n], k, key, settings)
  }

  lemma LookScaled(
    c: Metrology.Calibration, d: Metrology.Calibration, k: real, foot: Metrology.Pixel, landmark: Metrology.Pixel,
    height: real, longer: real)
    requires k > 0.0 && Stretched(c, d, k)
    requires Metrology.HeightFromPixels(c, foot, landmark) == Some(height)
    requires Metrology.HeightFromPixels(d, foot, landmark) == Some(longer)
    ensures longer == Stretch(k, height)
  {
    MetrologyProperties.StretchedHeights(c, d, k, foot, landmark);
  }

  lemma SamePixels(a: Frame, b: Frame)
    requires a.(calibration := None) == b.(calibration := None)
    ensures a.foot == b.foot && a.landmarks == b.landmarks
  {
    assert a.foot == a.(calibration := None).foot && a.landmarks == a.(calibration := None).landmarks;
  }

  lemma SampleScaled(a: Frame, b: Frame, k: real, key: Key, settings: Settings)
    requires k > 0.0 && SameFrame(a, b, k, key, settings) && Accepts(a, key, settings)
    ensures Measured(b, key.landmark).value == Stretch(k, Measured(a, key.landmark).value)
  {
    SamePixels(a, b);
    LookScaled(a.calibration.value, b.calibration.value, k, a.foot.value, a.landmarks[key.landmark],
               Measured(a, key.landmark).value, Measured(b, key.landmark).value);
  }

  lemma {:induction false} SamplesScaled(a: seq<Event>, b: seq<Event>, k: real, key: Key, settings: Settings)
    requires k > 0.0 && SameRun(a, b, k, key, settings)
    ensures Accepted(b, key, settings) == Each(Stretching(k), Accepted(a, key, settings))
  {
    if a != [] {
      var n := |a| - 1;
      SamplesScaled(a[..n], b[..n], k, key, settings);
      assert SameEvent(a[n], b[n], k, key, settings);
      if a[n].Learns? && Accepts(a[n].frame, key, settings) {
        SampleScaled(a[n].frame, b[n].frame, k, key, settings);
      }
    }
  }

  /** With every elevated plane measured k times too high each memory is the same in another unit. */
  lemma TablesScaled(a: seq<Event>, b: seq<Event>, k: real, key: Key, settings: Settings)
    requires k > 0.0 && SameRun(a, b, k, key, settings)
    ensures key in After(a, settings) <==> key in After(b, settings)
    ensures key in After(a, settings) ==>
      After(b, settings)[key] == MemoryIn(Stretching(k), After(a, settings)[key])
  {
    TableMatchesSamples(a, settings, key);
    TableMatchesSamples(b, settings, key);
    SamplesScaled(a, b, k, key, settings);
    StretchingIsAUnit(k, settings.alpha);
    MemoryEach(Stretching(k), Accepted(a, key, settings), settings);
  }

  lemma PositionSame(
    c: Metrology.Calibration, d: Metrology.Calibration, k: real, height: real, longer: real, later: Metrology.Pixel)
    requires k > 0.0 && Stretched(c, d, k) && longer == Stretch(k, height)
    ensures Metrology.GroundFromLandmark(d, later, longer) == Metrology.GroundFromLandmark(c, later, height)
  {
    MetrologyProperties.HomographyOfStretched(c, d, k, height, longer);
  }

  /**
   With every elevated plane measured k times too high, each settled height,
   behind its median window and its moving average, is k times too high, and a
   position found with it through such a camera is the same.
   */
  lemma SettledHeightsCancel(
    a: seq<Event>, b: seq<Event>, k: real, key: Key, settings: Settings,
    c: Metrology.Calibration, d: Metrology.Calibration, later: Metrology.Pixel)
    requires k > 0.0 && SameRun(a, b, k, key, settings) && Stretched(c, d, k)
    requires key in After(a, settings) && After(a, settings)[key].value.Some?
    ensures key in After(b, settings) && After(b, settings)[key].value.Some?
    ensures var height, longer := After(a, settings)[key].value.value, After(b, settings)[key].value.value;
      && longer == k * height
      && Metrology.GroundFromLandmark(d, later, longer) == Metrology.GroundFromLandmark(c, later, height)
  {
    TablesScaled(a, b, k, key, settings);
    PositionSame(c, d, k, After(a, settings)[key].value.value, After(b, settings)[key].value.value, later);
  }

  /** Measuring the plane k times too high leads to such a pair of calibrations. */
  lemma BuiltStretched(
    ground: LinearAlgebra.Mat, elevated: LinearAlgebra.Mat, height: real, k: real, tolerance: real)
    requires height > 0.0 && k > 0.0 && k * height > 0.0
    requires Metrology.BuildFrom(ground, elevated, height, tolerance).Built?
    requires Metrology.BuildFrom(ground, elevated, k * height, tolerance).Built?
    ensures Stretched(Metrology.BuildFrom(ground, elevated, height, tolerance).calibration,
                      Metrology.BuildFrom(ground, elevated, k * height, tolerance).calibration, k)
  {
    MetrologyProperties.StretchedVertical(
      ground, elevated, height, k, tolerance,
      Metrology.BuildFrom(ground, elevated, height, tolerance).calibration,
      Metrology.BuildFrom(ground, elevated, k * height, tolerance).calibration);
  }
}
