/** Which heights are learned and what they settle to, sample by sample. */
module HeightRules {
  import opened Approach
  import opened HeightMemory
  import Metrology
  import opened Options
  import StableSort

  // --- The median ----------------------------------------------------------

  ghost predicate Ascending(s: seq<real>) { forall i, j :: 0 <= i < j < |s| ==> s[i] <= s[j] }

  /** Twice the median is the sum of the two middle entries, which of an odd number are one and the same. */
  lemma MedianExactly(window: seq<real>) returns (sorted: seq<real>)
    requires window != []
    ensures multiset(sorted) == multiset(window) && |sorted| == |window| && Ascending(sorted)
    ensures 2.0 * Median(window) == sorted[(|window| - 1) / 2] + sorted[|window| / 2]
  {
    sorted := StableSort.SortBy(window, NoLarger);
    NoLargerIsTotal();
    StableSort.SortBySorted(window, NoLarger);
    assert |multiset(sorted)| == |multiset(window)|;
  }

  // --- The settled height --------------------------------------------------

  /** The last 31 samples. */
  ghost function LastOnes(samples: seq<real>): seq<real> {
    if |samples| <= 31 then samples else samples[|samples| - 31..]
  }

  /** Settled for the first time, or moved its share of the way to the median; left alone by too small a window. */
  predicate SettlesBy(before: Option<real>, after: Option<real>, median: real, enough: bool, alpha: real) {
    if !enough then after == before
    else if before.None? then after == Some(median)
    else after.Some? && PartOfWay(alpha, before.value, median, after.value)
  }

  lemma MovedPart(alpha: real, before: real, median: real)
    ensures PartOfWay(alpha, before, median, HeightMemory.Blend(alpha, before, median))
  {
  }

  lemma ObservedExactly(m: Memory, x: real, settings: Settings)
    ensures var window, after := Pushed(m.window, x), Observe(m, x, settings);
      && window != [] && after.window == window && after.samples == m.samples + 1
      && SettlesBy(m.value, after.value, Median(window), |window| >= settings.minSamples, settings.alpha)
  {
    if m.value.Some? {
      MovedPart(settings.alpha, m.value.value, Median(Pushed(m.window, x)));
    }
  }

  lemma MemoryNext(samples: seq<real>, x: real, settings: Settings)
    ensures MemoryOf(samples + [x], settings) == Observe(MemoryOf(samples, settings), x, settings)
    ensures Pushed(MemoryOf(samples, settings).window, x) == LastOnes(samples + [x])
  {
    assert (samples + [x])[..|samples|] == samples;
    WindowIsLatest(samples, settings);
    PushedLatest(samples, x);
  }

  /**
   What one more sample does: too few of them settle nothing; the first time
   there are enough the height settles at the median of the last 31; and from
   then on every sample moves it a fixed share of the way to that median.
   */
  lemma SettledNext(samples: seq<real>, x: real, settings: Settings)
    ensures var before, after := MemoryOf(samples, settings), MemoryOf(samples + [x], settings);
      var window := LastOnes(samples + [x]);
      && window != [] && after.window == window && after.samples == before.samples + 1
      && SettlesBy(before.value, after.value, Median(window), |window| >= settings.minSamples, settings.alpha)
  {
    MemoryNext(samples, x, settings);
    ObservedExactly(MemoryOf(samples, settings), x, settings);
  }

  /** With every further sample the last ones have this median. */
  ghost predicate MedianStays(samples: seq<real>, more: seq<real>, median: real) {
    more != [] ==>
      && MedianStays(samples, more[..|more| - 1], median)
      && Median(LastOnes(samples + more)) == median
  }

  lemma StillSettled(samples: seq<real>, more: seq<real>, settings: Settings)
    requires MemoryOf(samples, settings).value.Some?
    ensures MemoryOf(samples + more, settings).value.Some?
  {
    SettlesExactly(samples, settings);
    SettlesExactly(samples + more, settings);
  }

  lemma EnoughSamples(samples: seq<real>, settings: Settings)
    requires MemoryOf(samples, settings).value.Some?
    ensures |LastOnes(samples)| >= settings.minSamples
  {
    SettlesExactly(samples, settings);
  }

  /** Of the gap between the median and a first height, this much is left after so many samples. */
  predicate GapLeft(n: nat, alpha: real, from: Option<real>, median: real, value: Option<real>) {
    from.Some? && value.Some? && LeftAfter(n, alpha, from.value, median, value.value)
  }

  lemma GapNext(n: nat, alpha: real, from: Option<real>, median: real, before: Option<real>, value: Option<real>)
    requires GapLeft(n, alpha, from, median, before) && SettlesBy(before, value, median, true, alpha)
    ensures GapLeft(n + 1, alpha, from, median, value)
  {
    LeftNext(n, alpha, from.value, median, before.value, value.value);
  }

  lemma ApproachNext(
    n: nat, from: Option<real>, samples: seq<real>, x: real, settings: Settings, median: real)
    requires GapLeft(n, settings.alpha, from, median, MemoryOf(samples, settings).value)
    requires Median(LastOnes(samples + [x])) == median
    ensures GapLeft(n + 1, settings.alpha, from, median, MemoryOf(samples + [x], settings).value)
  {
    SettledNext(samples, x, settings);
    StillSettled(samples, [x], settings);
    EnoughSamples(samples + [x], settings);
    GapNext(n, settings.alpha, from, median, MemoryOf(samples, settings).value,
            MemoryOf(samples + [x], settings).value);
  }

  lemma NothingMore(samples: seq<real>, settings: Settings, median: real)
    requires MemoryOf(samples, settings).value.Some?
    ensures GapLeft(0, settings.alpha, MemoryOf(samples, settings).value, median, MemoryOf(samples, settings).value)
  {
    LeftAtFirst(settings.alpha, MemoryOf(samples, settings).value.value, median);
  }

  /** While the median stays, the gap between it and a settled height shrinks by the same factor with every sample. */
  lemma {:induction false} SettledApproaches(
    samples: seq<real>, more: seq<real>, settings: Settings, median: real)
    requires MemoryOf(samples, settings).value.Some? && MedianStays(samples, more, median)
    ensures GapLeft(|more|, settings.alpha, MemoryOf(samples, settings).value, median,
                    MemoryOf(samples + more, settings).value)
  {
    if more == [] {
      assert samples + more == samples;
      NothingMore(samples, settings, median);
    } else {
      var front, last := more[..|more| - 1], more[|more| - 1];
      assert samples + more == samples + front + [last];
      SettledApproaches(samples, front, settings, median);
      ApproachNext(|front|, MemoryOf(samples, settings).value, samples + front, last, settings, median);
    }
  }

  // --- Which samples are accepted ------------------------------------------

  /** Heights an adult's landmark has, in centimetres. */
  predicate Adult(landmark: Landmark, height: real) {
    match landmark
    case Knee => 30.0 <= height <= 70.0
    case Hip => 65.0 <= height <= 125.0
    case Shoulder => 110.0 <= height <= 175.0
    case Nose => 125.0 <= height <= 195.0
  }

  /** Feet seen directly, of a person with a settled identity, on a calibrated camera. */
  predicate WellSeen(frame: Frame, identity: int) {
    && frame.calibration.Some? && frame.foot.Some? && frame.feetDirect && frame.identityStable
    && frame.identity == Some(identity)
  }

  /** The lean is judged by the nose, or else by the shoulders; where neither is seen it is not. */
  predicate Upright(frame: Frame, limit: real)
    requires frame.calibration.Some? && frame.foot.Some?
  {
    && (Nose in frame.landmarks ==>
          Metrology.WithinLean(frame.calibration.value, frame.foot.value, frame.landmarks[Nose], limit))
    && (Nose !in frame.landmarks && Shoulder in frame.landmarks ==>
          Metrology.WithinLean(frame.calibration.value, frame.foot.value, frame.landmarks[Shoulder], limit))
  }

  /** A frame adds a sample to a memory exactly when all of this holds, and the sample is the height it shows. */
  lemma SampledExactly(frame: Frame, key: Key, settings: Settings)
    ensures Accepts(frame, key, settings) <==>
      && WellSeen(frame, key.identity) && Upright(frame, settings.leanLimit) && key.landmark in frame.landmarks
      && var height := Metrology.HeightFromPixels(frame.calibration.value, frame.foot.value,
                                                  frame.landmarks[key.landmark]);
         height.Some? && Adult(key.landmark, height.value)
    ensures Accepts(frame, key, settings) ==>
      Measured(frame, key.landmark)
      == Metrology.HeightFromPixels(frame.calibration.value, frame.foot.value, frame.landmarks[key.landmark])
  {
  }
}
