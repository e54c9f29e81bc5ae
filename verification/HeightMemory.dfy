/**
 Learned landmark heights: a window of the last accepted samples and a slow
 average of its median, for each person and landmark.
 */
module HeightMemory {
  import opened Metrology
  import opened Options
  import opened StableSort

  const WINDOW: nat := 31

  datatype Memory = Memory(window: seq<real>, value: Option<real>, samples: nat)

  const EMPTY := Memory([], None, 0)

  predicate NoLarger(a: real, b: real) { a <= b }

  /** A queue that holds at most so many entries drops the oldest. */
  function Pushed(window: seq<real>, x: real): seq<real> {
    var longer := window + [x];
    if |longer| > WINDOW then longer[|longer| - WINDOW..] else longer
  }

  /** The middle entry, or the mean of the two middle ones. */
  function Middle(sorted: seq<real>): real
    requires sorted != []
  {
    var n := |sorted|;
    if n % 2 == 1 then sorted[n / 2] else (sorted[n / 2 - 1] + sorted[n / 2]) / 2.0
  }

  function Median(window: seq<real>): real
    requires window != []
  {
    Middle(SortBy(window, NoLarger))
  }

  function Blend(alpha: real, before: real, median: real): real {
    (1.0 - alpha) * before + alpha * median
  }

  /** `leanLimit` is the cosine of the greatest lean that still counts as upright. */
  datatype Settings = Settings(alpha: real, minSamples: int, leanLimit: real)

  function Observe(m: Memory, height: real, settings: Settings): Memory {
    var window := Pushed(m.window, height);
    if |window| < settings.minSamples then Memory(window, m.value, m.samples + 1)
    else
      var median := Median(window);
      var value := if m.value.None? then median else Blend(settings.alpha, m.value.value, median);
      Memory(window, Some(value), m.samples + 1)
  }

  // --- Learning ------------------------------------------------------------

  datatype Landmark = Knee | Hip | Shoulder | Nose

  const LOWEST_FIRST := [Knee, Hip, Shoulder, Nose]

  /** Plausible heights of a standing adult, in centimetres. */
  function Bounds(landmark: Landmark): (real, real) {
    match landmark
    case Knee => (30.0, 70.0)
    case Hip => (65.0, 125.0)
    case Shoulder => (110.0, 175.0)
    case Nose => (125.0, 195.0)
  }

  predicate Plausible(landmark: Landmark, height: real) {
    Bounds(landmark).0 <= height <= Bounds(landmark).1
  }

  datatype Key = Key(identity: int, landmark: Landmark)

  type Heights = map<Key, Memory>

  /** A frame of one person, with the calibration of its camera and the pixels of what is seen. */
  datatype Frame = Frame(
    identity: Option<int>,
    calibration: Option<Calibration>,
    foot: Option<Pixel>,
    feetDirect: bool,
    identityStable: bool,
    landmarks: map<Landmark, Pixel>)

  /** The pixel the lean is judged by. */
  function Head(frame: Frame): Option<Pixel> {
    if Nose in frame.landmarks then Some(frame.landmarks[Nose])
    else if Shoulder in frame.landmarks then Some(frame.landmarks[Shoulder])
    else None
  }

  /** Known feet of a known person on a calibrated camera. */
  predicate Measurable(frame: Frame) {
    && frame.calibration.Some? && frame.identity.Some? && frame.foot.Some?
    && frame.feetDirect && frame.identityStable
  }

  predicate Usable(frame: Frame, settings: Settings) {
    && Measurable(frame)
    && (Head(frame).Some? ==>
          WithinLean(frame.calibration.value, frame.foot.value, Head(frame).value, settings.leanLimit))
  }

  function Measured(frame: Frame, landmark: Landmark): Option<real>
    requires Measurable(frame)
  {
    if landmark in frame.landmarks then
      HeightFromPixels(frame.calibration.value, frame.foot.value, frame.landmarks[landmark])
    else None
  }

  function MemoryAt(heights: Heights, key: Key): Memory { if key in heights then heights[key] else EMPTY }

  predicate Accepts(frame: Frame, key: Key, settings: Settings) {
    && Usable(frame, settings) && frame.identity == Some(key.identity)
    && Measured(frame, key.landmark).Some? && Plausible(key.landmark, Measured(frame, key.landmark).value)
  }

  function LearnOne(heights: Heights, frame: Frame, landmark: Landmark, settings: Settings): Heights
    requires Usable(frame, settings)
  {
    var key := Key(frame.identity.value, landmark);
    if !Accepts(frame, key, settings) then heights
    else heights[key := Observe(MemoryAt(heights, key), Measured(frame, landmark).value, settings)]
  }

  /** The first `n` landmarks, lowest first. */
  function LearnSome(heights: Heights, frame: Frame, n: nat, settings: Settings): Heights
    requires Usable(frame, settings) && n <= |LOWEST_FIRST|
  {
    if n == 0 then heights
    else LearnOne(LearnSome(heights, frame, n - 1, settings), frame, LOWEST_FIRST[n - 1], settings)
  }

  function Learn(heights: Heights, frame: Frame, settings: Settings): Heights {
    if Usable(frame, settings) then LearnSome(heights, frame, |LOWEST_FIRST|, settings) else heights
  }

  function KeysOf(identity: int): set<Key> {
    set landmark | landmark in LOWEST_FIRST :: Key(identity, landmark)
  }

  function Forget(heights: Heights, identity: int): Heights { heights - KeysOf(identity) }

  /** The estimator's own table, learned and forgotten in place. */
  class Estimator {
    const settings: Settings
    var heights: Heights

    constructor (settings: Settings)
      ensures this.settings == settings && heights == map[]
    {
      this.settings, heights := settings, map[];
    }

    method LearnLandmark(frame: Frame, landmark: Landmark)
      requires Usable(frame, settings)
      modifies this`heights
      ensures heights == LearnOne(old(heights), frame, landmark, settings)
    {
      var height := Measured(frame, landmark);
      if height.None? || !(Bounds(landmark).0 <= height.value <= Bounds(landmark).1) {
        return;
      }
      var key := Key(frame.identity.value, landmark);
      if key !in heights {
        heights := heights[key := EMPTY];
      }
      heights := heights[key := Observe(heights[key], height.value, settings)];
    }

    method LearnLandmarkHeights(frame: Frame)
      modifies this`heights
      ensures heights == Learn(old(heights), frame, settings)
    {
      if !Usable(frame, settings) {
        return;
      }
      for n := 0 to |LOWEST_FIRST|
        invariant heights == LearnSome(old(heights), frame, n, settings)
      {
        LearnLandmark(frame, LOWEST_FIRST[n]);
      }
    }

    method ForgetIdentity(identity: int)
      modifies this`heights
      ensures heights == Forget(old(heights), identity)
    {
      for n := 0 to |LOWEST_FIRST|
        invariant heights == old(heights) - (set k | 0 <= k < n :: Key(identity, LOWEST_FIRST[k]))
      {
        heights := heights - {Key(identity, LOWEST_FIRST[n])};
      }
      assert (set k | 0 <= k < |LOWEST_FIRST| :: Key(identity, LOWEST_FIRST[k])) == KeysOf(identity);
    }
  }

  // --- The median ----------------------------------------------------------

  lemma NoLargerIsTotal()
    ensures TotalPreorder(NoLarger)
  {
  }

  predicate Within(low: real, x: real, high: real) { low <= x <= high }

  /** How many entries lie between the two. */
  function Inside(s: seq<real>, low: real, high: real): nat {
    if s == [] then 0 else (if Within(low, s[0], high) then 1 else 0) + Inside(s[1..], low, high)
  }

  lemma {:induction false} InsertInside(x: real, s: seq<real>, low: real, high: real)
    ensures Inside(Insert(x, s, NoLarger), low, high) == (if Within(low, x, high) then 1 else 0) + Inside(s, low, high)
  {
    if s == [] || NoLarger(x, s[0]) {
      assert ([x] + s)[1..] == s;
    } else {
      InsertInside(x, s[1..], low, high);
      assert ([s[0]] + Insert(x, s[1..], NoLarger))[1..] == Insert(x, s[1..], NoLarger);
    }
  }

  lemma {:induction false} SortInside(s: seq<real>, low: real, high: real)
    ensures Inside(SortBy(s, NoLarger), low, high) == Inside(s, low, high)
  {
    if s != [] {
      SortInside(s[1..], low, high);
      InsertInside(s[0], SortBy(s[1..], NoLarger), low, high);
    }
  }

  /** A prefix or suffix that lies outside leaves only the rest to be inside. */
  lemma {:induction false} InsideAtMost(s: seq<real>, low: real, high: real, from: nat, to: nat)
    requires from <= to <= |s|
    requires forall k :: 0 <= k < from || to <= k < |s| ==> !Within(low, s[k], high)
    ensures Inside(s, low, high) <= to - from
  {
    if s != [] {
      var rest := s[1..];
      forall k | 0 <= k < |rest| ensures rest[k] == s[k + 1] {}
      InsideAtMost(rest, low, high, if from == 0 then 0 else from - 1, if to == 0 then 0 else to - 1);
    }
  }

  /**
   As long as more than half of the window lies between two heights, the
   median does: fewer wild samples than good ones cannot move it out.
   */
  lemma MedianResistsOutliers(window: seq<real>, low: real, high: real)
    requires 2 * Inside(window, low, high) > |window|
    ensures window != [] && low <= Median(window) <= high
  {
    SortedWindow(window, low, high);
    MiddleResists(SortBy(window, NoLarger), low, high);
  }

  lemma MiddleResists(sorted: seq<real>, low: real, high: real)
    requires Sorted(sorted, NoLarger) && 2 * Inside(sorted, low, high) > |sorted|
    ensures sorted != [] && low <= Middle(sorted) <= high
  {
    var n := |sorted|;
    MiddleInside(sorted, low, high, n / 2);
    if n % 2 == 0 {
      MiddleInside(sorted, low, high, n / 2 - 1);
      Halfway(sorted[n / 2 - 1], sorted[n / 2], low, high);
    }
  }

  lemma Halfway(a: real, b: real, low: real, high: real)
    requires low <= a <= high && low <= b <= high
    ensures low <= (a + b) / 2.0 <= high
  {
  }

  lemma SortedWindow(window: seq<real>, low: real, high: real)
    ensures Sorted(SortBy(window, NoLarger), NoLarger)
    ensures Inside(SortBy(window, NoLarger), low, high) == Inside(window, low, high)
  {
    NoLargerIsTotal();
    SortBySorted(window, NoLarger);
    SortInside(window, low, high);
  }

  lemma MiddleInside(sorted: seq<real>, low: real, high: real, m: nat)
    requires Sorted(sorted, NoLarger) && 2 * Inside(sorted, low, high) > |sorted|
    requires m < |sorted| && |sorted| - 2 <= 2 * m <= |sorted|
    ensures low <= sorted[m] <= high
  {
    if sorted[m] < low {
      forall k | 0 <= k <= m ensures sorted[k] < low {
        assert k < m ==> NoLarger(sorted[k], sorted[m]);
      }
      InsideAtMost(sorted, low, high, m + 1, |sorted|);
    }
    if high < sorted[m] {
      forall k | m <= k < |sorted| ensures high < sorted[k] {
        assert m < k ==> NoLarger(sorted[m], sorted[k]);
      }
      InsideAtMost(sorted, low, high, 0, m);
    }
  }

  ghost predicate AllWithin(s: seq<real>, low: real, high: real) {
    forall k :: 0 <= k < |s| ==> Within(low, s[k], high)
  }

  lemma {:induction false} AllInside(s: seq<real>, low: real, high: real)
    requires AllWithin(s, low, high)
    ensures Inside(s, low, high) == |s|
  {
    if s != [] {
      assert AllWithin(s[1..], low, high);
      AllInside(s[1..], low, high);
    }
  }

  // --- One memory over any samples -----------------------------------------

  /** The memory after these accepted samples, oldest first. */
  ghost function MemoryOf(samples: seq<real>, settings: Settings): Memory {
    if samples == [] then EMPTY
    else Observe(MemoryOf(samples[..|samples| - 1], settings), samples[|samples| - 1], settings)
  }

  ghost function Latest(samples: seq<real>): seq<real> {
    if |samples| <= WINDOW then samples else samples[|samples| - WINDOW..]
  }

  lemma PushedLatest(front: seq<real>, last: real)
    ensures Pushed(Latest(front), last) == Latest(front + [last])
  {
    if |front| > WINDOW {
      assert Latest(front) == front[|front| - WINDOW..];
      assert (front + [last])[|front| + 1 - WINDOW..] == front[|front| - WINDOW..][1..] + [last];
      assert (front[|front| - WINDOW..] + [last])[1..] == front[|front| - WINDOW..][1..] + [last];
    }
  }

  /** The window is exactly the last samples, and the count counts them all. */
  lemma {:induction false} WindowIsLatest(samples: seq<real>, settings: Settings)
    ensures var m := MemoryOf(samples, settings); m.window == Latest(samples) && m.samples == |samples|
  {
    if samples != [] {
      var front, last := samples[..|samples| - 1], samples[|samples| - 1];
      WindowIsLatest(front, settings);
      assert samples == front + [last];
      PushedLatest(front, last);
    }
  }

  /** A height settles exactly when enough samples fit the window, and never before. */
  lemma {:induction false} SettlesExactly(samples: seq<real>, settings: Settings)
    ensures MemoryOf(samples, settings).value.Some?
       <==> samples != [] && settings.minSamples <= |samples| && settings.minSamples <= WINDOW
  {
    if samples != [] {
      WindowIsLatest(samples, settings);
      SettlesExactly(samples[..|samples| - 1], settings);
    }
  }

  lemma ProductNotNegative(x: real, y: real)
    requires x >= 0.0 && y >= 0.0
    ensures x * y >= 0.0
  {
  }

  lemma BlendBetween(alpha: real, a: real, b: real, low: real, high: real)
    requires 0.0 <= alpha <= 1.0 && low <= a <= high && low <= b <= high
    ensures low <= Blend(alpha, a, b) <= high
  {
    ProductNotNegative(1.0 - alpha, a - low);
    ProductNotNegative(alpha, b - low);
    ProductNotNegative(1.0 - alpha, high - a);
    ProductNotNegative(alpha, high - b);
    assert Blend(alpha, a, b) - low == (1.0 - alpha) * (a - low) + alpha * (b - low);
    assert high - Blend(alpha, a, b) == (1.0 - alpha) * (high - a) + alpha * (high - b);
  }

  lemma MedianBetween(window: seq<real>, low: real, high: real)
    requires window != [] && AllWithin(window, low, high)
    ensures low <= Median(window) <= high
  {
    AllInside(window, low, high);
    MedianResistsOutliers(window, low, high);
  }

  ghost predicate ValueWithin(m: Memory, low: real, high: real) {
    m.value.Some? ==> low <= m.value.value <= high
  }

  lemma ObserveBetween(m: Memory, height: real, settings: Settings, low: real, high: real)
    requires 0.0 <= settings.alpha <= 1.0 && ValueWithin(m, low, high)
    requires AllWithin(Pushed(m.window, height), low, high)
    ensures ValueWithin(Observe(m, height, settings), low, high)
  {
    var window := Pushed(m.window, height);
    MedianBetween(window, low, high);
    if m.value.Some? {
      BlendBetween(settings.alpha, m.value.value, Median(window), low, high);
    }
  }

  /** Whatever bounds every accepted sample bounds the settled height, through window and average. */
  lemma {:induction false} ValueStaysBetween(samples: seq<real>, settings: Settings, low: real, high: real)
    requires 0.0 <= settings.alpha <= 1.0 && AllWithin(samples, low, high)
    ensures ValueWithin(MemoryOf(samples, settings), low, high)
  {
    if samples != [] {
      var front, last := samples[..|samples| - 1], samples[|samples| - 1];
      ValueStaysBetween(front, settings, low, high);
      WindowIsLatest(front, settings);
      assert samples == front + [last];
      PushedLatest(front, last);
      assert AllWithin(Latest(samples), low, high);
      ObserveBetween(MemoryOf(front, settings), last, settings, low, high);
    }
  }

  lemma {:induction false} Extremes(samples: seq<real>) returns (i: nat, j: nat)
    requires samples != []
    ensures i < |samples| && j < |samples| && AllWithin(samples, samples[i], samples[j])
  {
    if |samples| == 1 {
      i, j := 0, 0;
    } else {
      var last := |samples| - 1;
      i, j := Extremes(samples[..last]);
      forall k | 0 <= k < last ensures Within(samples[i], samples[k], samples[j]) {
        assert samples[..last][k] == samples[k];
      }
      if samples[last] < samples[i] { i := last; }
      if samples[last] > samples[j] { j := last; }
    }
  }

  // --- Every memory over any run -------------------------------------------

  datatype Event = Learns(frame: Frame) | Forgets(identity: int)

  function Next(heights: Heights, event: Event, settings: Settings): Heights {
    match event
    case Learns(frame) => Learn(heights, frame, settings)
    case Forgets(identity) => Forget(heights, identity)
  }

  ghost function After(events: seq<Event>, settings: Settings): Heights {
    if events == [] then map[]
    else Next(After(events[..|events| - 1], settings), events[|events| - 1], settings)
  }

  /** The samples accepted for one person's landmark since the person was last forgotten. */
  ghost function Accepted(events: seq<Event>, key: Key, settings: Settings): seq<real> {
    if events == [] then []
    else
      var before := Accepted(events[..|events| - 1], key, settings);
      match events[|events| - 1]
      case Learns(frame) =>
        if Accepts(frame, key, settings) then before + [Measured(frame, key.landmark).value] else before
      case Forgets(identity) => if identity == key.identity then [] else before
  }

  ghost predicate Agrees(heights: Heights, samples: seq<real>, key: Key, settings: Settings) {
    MemoryAt(heights, key) == MemoryOf(samples, settings) && (key in heights <==> samples != [])
  }

  lemma LearnOneAt(heights: Heights, frame: Frame, landmark: Landmark, settings: Settings, key: Key)
    requires Usable(frame, settings)
    ensures var after := LearnOne(heights, frame, landmark, settings);
      if landmark == key.landmark && Accepts(frame, key, settings) then
        key in after
        && after[key] == Observe(MemoryAt(heights, key), Measured(frame, landmark).value, settings)
      else MemoryAt(after, key) == MemoryAt(heights, key) && (key in after <==> key in heights)
  {
  }

  function Position(landmark: Landmark): nat {
    match landmark
    case Knee => 0
    case Hip => 1
    case Shoulder => 2
    case Nose => 3
  }

  lemma {:induction false} LearnSomeAt(heights: Heights, frame: Frame, n: nat, settings: Settings, key: Key)
    requires Usable(frame, settings) && n <= |LOWEST_FIRST|
    ensures var after := LearnSome(heights, frame, n, settings);
      if Position(key.landmark) < n && Accepts(frame, key, settings) then
        key in after
        && after[key] == Observe(MemoryAt(heights, key), Measured(frame, key.landmark).value, settings)
      else MemoryAt(after, key) == MemoryAt(heights, key) && (key in after <==> key in heights)
  {
    if n > 0 {
      LearnSomeAt(heights, frame, n - 1, settings, key);
      LearnOneAt(LearnSome(heights, frame, n - 1, settings), frame, LOWEST_FIRST[n - 1], settings, key);
    }
  }

  /** The table holds for every key exactly the memory of the samples accepted for it. */
  lemma {:induction false} TableMatchesSamples(events: seq<Event>, settings: Settings, key: Key)
    ensures Agrees(After(events, settings), Accepted(events, key, settings), key, settings)
  {
    if events != [] {
      var front := events[..|events| - 1];
      var heights, samples := After(front, settings), Accepted(front, key, settings);
      TableMatchesSamples(front, settings, key);
      match events[|events| - 1]
      case Learns(frame) =>
        if Usable(frame, settings) {
          LearnSomeAt(heights, frame, |LOWEST_FIRST|, settings, key);
        }
        if Accepts(frame, key, settings) {
          var more := samples + [Measured(frame, key.landmark).value];
          assert more[..|more| - 1] == samples;
        }
      case Forgets(identity) =>
        assert LOWEST_FIRST[Position(key.landmark)] == key.landmark;
    }
  }

  lemma {:induction false} AcceptedPlausible(events: seq<Event>, key: Key, settings: Settings)
    ensures AllWithin(Accepted(events, key, settings), Bounds(key.landmark).0, Bounds(key.landmark).1)
  {
    if events != [] {
      AcceptedPlausible(events[..|events| - 1], key, settings);
    }
  }

  /**
   Every settled height of every person, over any frames and forgettings, lies
   between the smallest and the largest sample accepted for it since the
   person was last forgotten, and inside the landmark's anatomical bounds.
   */
  lemma HeightsStayHonest(events: seq<Event>, settings: Settings, key: Key) returns (i: nat, j: nat)
    requires 0.0 <= settings.alpha <= 1.0
    requires key in After(events, settings) && After(events, settings)[key].value.Some?
    ensures var value, samples := After(events, settings)[key].value.value, Accepted(events, key, settings);
      && i < |samples| && j < |samples| && samples[i] <= value <= samples[j]
      && AllWithin(samples, samples[i], samples[j])
      && Plausible(key.landmark, value)
  {
    var samples := Accepted(events, key, settings);
    TableMatchesSamples(events, settings, key);
    i, j := Extremes(samples);
    ValueStaysBetween(samples, settings, samples[i], samples[j]);
    AcceptedPlausible(events, key, settings);
    ValueStaysBetween(samples, settings, Bounds(key.landmark).0, Bounds(key.landmark).1);
  }
}
