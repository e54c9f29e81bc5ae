/**
 The provisional identity coordinator, as functions on values: which pairs of
 one update are accepted, and what each accepted or rejected pair does to the
 streaks and to the holds on new master identities.
 */
module ProvisionalPairs {
  import opened Observations
  import opened OneToOnePairing
  import opened Options

  datatype TrackKey = TrackKey(camera: string, track: int)

  type PairKey = (TrackKey, TrackKey)

  datatype Params = Params(
    maxDistance: real,
    maxSkew: real,
    requiredPairFrames: nat,
    confirmFrames: nat,
    graceFrames: nat,
    holdMaxFrames: nat,
    margin: real,
    maxDisagreement: real,
    dist: (Point, Point) -> real)

  function AtLeast(low: nat, x: int): nat { if x < low then low else x }

  /** The constructor's clamping of whatever the caller asked for. */
  function Clamp(
    dist: (Point, Point) -> real, maxDistance: real, maxSkew: real, required: int, confirm: int,
    grace: int, holdMax: int, margin: real, disagreement: Option<real>): Params
  {
    var distance := Max(0.0, maxDistance);
    var frames := AtLeast(1, required);
    Params(distance, Max(0.0, maxSkew), frames, AtLeast(frames, confirm), AtLeast(0, grace),
           AtLeast(frames, holdMax), Max(0.0, margin),
           if disagreement.None? then Max(20.0, distance * 0.5) else Max(0.0, disagreement.value), dist)
  }

  predicate ParamsOk(p: Params) {
    1 <= p.requiredPairFrames <= p.confirmFrames && p.requiredPairFrames <= p.holdMaxFrames
  }

  /** One usable observation of a camera. */
  datatype Item = Item(key: TrackKey, point: Point, capturedAt: real)

  /** The camera field of an observation: absent, empty or filled in. */
  datatype Label = Missing | Empty | Named(name: string)

  /** An observation as it arrives; a track, point or time that cannot be used is none. */
  datatype Raw = Raw(camera: Label, track: Option<int>, point: Option<Point>, time: Option<real>)

  /** An absent camera is filled in, an empty one is not; anything else missing makes it unusable. */
  function ItemOf(camera: string, raw: Raw): Option<Item> {
    if raw.camera.Empty? || raw.track.None? || raw.point.None? || raw.time.None? then None
    else
      var owner := if raw.camera.Missing? then camera else raw.camera.name;
      Some(Item(TrackKey(owner, raw.track.value), raw.point.value, raw.time.value))
  }

  function Normalize(camera: string, raws: seq<Raw>): seq<Item> {
    if raws == [] then []
    else
      var last := ItemOf(camera, raws[|raws| - 1]);
      Normalize(camera, raws[..|raws| - 1]) + (if last.Some? then [last.value] else [])
  }

  /**
   What the appearance memory answers during one update, by call: identity
   look-ups, whether a split can be undone, and the identity both tracks share
   once accepted. The answers are arbitrary.
   */
  datatype Answers = Answers(
    leftIdentity: nat -> Option<int>,
    rightIdentity: (nat, nat) -> Option<int>,
    recoverable: (nat, nat) -> bool,
    shared: (nat, nat) -> Option<int>)

  /** One update: nothing to pair, or two cameras. */
  datatype Input = Idle | Cameras(left: seq<Item>, right: seq<Item>, answers: Answers)

  /** What arrives with one update: not a mapping at all, or the streams of some cameras in order. */
  datatype Report = NoStreams | Streams(cameras: seq<(string, seq<Raw>)>, answers: Answers)

  /** Only the first two streams are paired. */
  function InputOf(report: Report): Input {
    if report.NoStreams? || |report.cameras| < 2 then Idle
    else
      var first, second := report.cameras[0], report.cameras[1];
      Cameras(Normalize(first.0, first.1), Normalize(second.0, second.1), report.answers)
  }

  // --- Which pairs are accepted --------------------------------------------

  datatype Reason =
    | DifferentMaster | TimeSkew | TooFar
    | NotSelected | Ambiguous | MovementDisagreement | NotObserved

  datatype Screening = Reject(reason: Reason) | Consider(cost: real)

  function Screen(p: Params, input: Input, i: nat, j: nat): Screening
    requires input.Cameras? && i < |input.left| && j < |input.right|
  {
    var l, r := input.left[i], input.right[j];
    var a, b := input.answers.leftIdentity(i), input.answers.rightIdentity(i, j);
    if a.Some? && b.Some? && a != b && !input.answers.recoverable(i, j) then Reject(DifferentMaster)
    else if Abs(l.capturedAt - r.capturedAt) > p.maxSkew then Reject(TimeSkew)
    else if p.dist(l.point, r.point) > p.maxDistance then Reject(TooFar)
    else Consider(p.dist(l.point, r.point))
  }

  datatype Scan = Scan(rejected: seq<Event>, entries: seq<Candidate>)

  /** What one evaluated pair does: it fails for a reason, or it is accepted. */
  datatype Event =
    | Fail(at: Pair, reason: Reason)
    | Accept(at: Pair)

  function ScanPair(p: Params, input: Input, scan: Scan, i: nat, j: nat): Scan
    requires input.Cameras? && i < |input.left| && j < |input.right|
  {
    match Screen(p, input, i, j)
    case Reject(reason) => scan.(rejected := scan.rejected + [Fail((i, j), reason)])
    case Consider(cost) => scan.(entries := scan.entries + [Candidate((i, j), cost)])
  }

  function ScanRow(p: Params, input: Input, scan: Scan, i: nat, j: nat): Scan
    requires input.Cameras? && i < |input.left| && j <= |input.right|
  {
    if j == 0 then scan else ScanPair(p, input, ScanRow(p, input, scan, i, j - 1), i, j - 1)
  }

  function ScanRows(p: Params, input: Input, i: nat): Scan
    requires input.Cameras? && i <= |input.left|
  {
    if i == 0 then Scan([], [])
    else ScanRow(p, input, ScanRows(p, input, i - 1), i - 1, |input.right|)
  }

  predicate SharesOneEnd(a: Pair, b: Pair) {
    (a.0 == b.0 && a.1 != b.1) || (a.1 == b.1 && a.0 != b.0)
  }

  /** Some other candidate for one of the two people costs less than a margin more. */
  predicate HasRival(p: Params, entries: seq<Candidate>, chosen: Candidate) {
    exists k :: 0 <= k < |entries|
      && SharesOneEnd(entries[k].pair, chosen.pair) && entries[k].cost - chosen.cost < p.margin
  }

  function Decide(p: Params, entries: seq<Candidate>, best: seq<Pair>, entry: Candidate): Event {
    if entry.pair !in best then Fail(entry.pair, NotSelected)
    else if HasRival(p, entries, entry) then Fail(entry.pair, Ambiguous)
    else Accept(entry.pair)
  }

  /** The failures, or the acceptances, among the first `n` candidates. */
  function Decided(p: Params, entries: seq<Candidate>, best: seq<Pair>, n: nat, accepted: bool): seq<Event>
    requires n <= |entries|
  {
    if n == 0 then []
    else
      var event := Decide(p, entries, best, entries[n - 1]);
      Decided(p, entries, best, n - 1, accepted) + (if event.Accept? == accepted then [event] else [])
  }

  /** Everything that happens to a pair in one update, in order; no state is involved. */
  function EventsOf(p: Params, input: Input): seq<Event> {
    if input.Idle? then []
    else
      var scan := ScanRows(p, input, |input.left|);
      var best := BestPairs(|input.left|, |input.right|, scan.entries);
      scan.rejected
      + Decided(p, scan.entries, best, |scan.entries|, false)
      + Decided(p, scan.entries, best, |scan.entries|, true)
  }

  predicate InInput(input: Input, at: Pair) {
    input.Cameras? && at.0 < |input.left| && at.1 < |input.right|
  }

  function KeyAt(input: Input, at: Pair): PairKey
    requires InInput(input, at)
  {
    (input.left[at.0].key, input.right[at.1].key)
  }

  function Evaluated(input: Input): set<PairKey> {
    if input.Idle? then {}
    else set i, j | 0 <= i < |input.left| && 0 <= j < |input.right| :: KeyAt(input, (i, j))
  }

  // --- The coordinator's state ---------------------------------------------

  datatype Streak = Streak(count: nat, last: nat, left: Point, right: Point)

  datatype Hold = Hold(started: nat, lastValid: nat, grace: Option<nat>)

  /** A request for a shared provisional identity, with the streak that led to it. */
  datatype Creation = Creation(update: nat, key: PairKey, streak: nat)

  /** `applied` counts holds the memory was asked for and not yet asked to release. */
  datatype State = State(
    index: nat,
    streaks: map<PairKey, Streak>,
    holds: map<PairKey, Hold>,
    applied: multiset<PairKey>,
    created: seq<Creation>)

  const INITIAL := State(0, map[], map[], multiset{}, [])

  // --- Holds ---------------------------------------------------------------

  function Release(s: State, key: PairKey): State {
    if key in s.holds then s.(holds := s.holds - {key}, applied := s.applied - multiset{key}) else s
  }

  function MarkValid(s: State, key: PairKey): State {
    if key in s.holds then s.(holds := s.holds[key := s.holds[key].(lastValid := s.index, grace := None)])
    else s.(holds := s.holds[key := Hold(s.index, s.index, None)], applied := s.applied + multiset{key})
  }

  predicate Contradicts(reason: Reason) {
    reason in {DifferentMaster, Ambiguous, NotSelected, MovementDisagreement}
  }

  function MarkFailed(s: State, key: PairKey, reason: Reason): State {
    if key !in s.holds then s
    else if Contradicts(reason) then Release(s, key)
    else if s.holds[key].grace.None? then
      s.(holds := s.holds[key := s.holds[key].(grace := Some(s.index))])
    else s
  }

  // --- Streaks -------------------------------------------------------------

  function Motion(to: Point, from: Point): Point { (to.0 - from.0, to.1 - from.1) }

  predicate Consecutive(s: State, key: PairKey) {
    key in s.streaks && s.streaks[key].last + 1 == s.index
  }

  predicate Disagrees(p: Params, before: (Point, Point), after: (Point, Point)) {
    p.dist(Motion(after.0, before.0), Motion(after.1, before.1)) > p.maxDisagreement
  }

  predicate Contradicted(p: Params, s: State, key: PairKey, left: Point, right: Point) {
    Consecutive(s, key) && Disagrees(p, (s.streaks[key].left, s.streaks[key].right), (left, right))
  }

  function AdvancedStreak(p: Params, s: State, key: PairKey, left: Point, right: Point): Streak {
    var count := if Consecutive(s, key) && !Contradicted(p, s, key, left, right)
                 then s.streaks[key].count + 1 else 1;
    Streak(count, s.index, left, right)
  }

  /** What acceptance does to the pair's hold before an identity is requested. */
  function HoldAccepted(s: State, key: PairKey, contradicted: bool, shared: Option<int>): State {
    if contradicted then MarkFailed(s, key, MovementDisagreement)
    else if shared.None? then MarkValid(s, key)
    else Release(s, key)
  }

  function Request(s: State, key: PairKey, streak: nat): State {
    Release(s, key).(created := s.created + [Creation(s.index, key, streak)])
  }

  function AcceptPair(p: Params, s: State, key: PairKey, left: Point, right: Point, shared: Option<int>): State {
    var contradicted := Contradicted(p, s, key, left, right);
    var streak := AdvancedStreak(p, s, key, left, right);
    var advanced := s.(streaks := s.streaks[key := streak]);
    var held := HoldAccepted(advanced, key, contradicted, shared);
    if shared.None? && !contradicted && streak.count >= p.requiredPairFrames then Request(held, key, streak.count)
    else held
  }

  function Apply(p: Params, s: State, input: Input, event: Event): State
    requires InInput(input, event.at)
  {
    var key := KeyAt(input, event.at);
    match event
    case Fail(_, reason) => MarkFailed(s, key, reason)
    case Accept(at) =>
      AcceptPair(p, s, key, input.left[at.0].point, input.right[at.1].point, input.answers.shared(at.0, at.1))
  }

  predicate EventsIn(input: Input, events: seq<Event>) {
    forall n :: 0 <= n < |events| ==> InInput(input, events[n].at)
  }

  function ApplyAll(p: Params, s: State, input: Input, events: seq<Event>): State
    requires EventsIn(input, events)
  {
    if events == [] then s
    else Apply(p, ApplyAll(p, s, input, events[..|events| - 1]), input, events[|events| - 1])
  }

  // --- The end of an update ------------------------------------------------

  function HoldUnobserved(s: State, evaluated: set<PairKey>, key: PairKey): Hold
    requires key in s.holds
  {
    if key in evaluated || s.holds[key].grace.Some? then s.holds[key]
    else s.holds[key].(grace := Some(s.index))
  }

  function MarkUnobserved(s: State, evaluated: set<PairKey>): State {
    s.(holds := map key | key in s.holds :: HoldUnobserved(s, evaluated, key))
  }

  predicate Expired(p: Params, s: State, hold: Hold) {
    || s.index - hold.started >= p.holdMaxFrames
    || (hold.grace.Some? && s.index - hold.grace.value > p.graceFrames)
  }

  function ExpiredKeys(p: Params, s: State): set<PairKey> {
    set key | key in s.holds && Expired(p, s, s.holds[key])
  }

  function Expire(p: Params, s: State): State {
    s.(holds := s.holds - ExpiredKeys(p, s), applied := s.applied - multiset(ExpiredKeys(p, s)))
  }

  predicate Outdated(p: Params, s: State, streak: Streak) {
    var staleAfter := if p.requiredPairFrames >= p.confirmFrames then p.requiredPairFrames else p.confirmFrames;
    streak.last <= s.index - staleAfter
  }

  function Prune(p: Params, s: State): State {
    s.(streaks := map key | key in s.streaks && !Outdated(p, s, s.streaks[key]) :: s.streaks[key])
  }

  lemma EventsInInput(p: Params, input: Input)
    ensures EventsIn(input, EventsOf(p, input))
  {
    if input.Cameras? {
      var scan := ScanRows(p, input, |input.left|);
      var best := BestPairs(|input.left|, |input.right|, scan.entries);
      ScanRowsIn(p, input, |input.left|);
      DecidedIn(p, input, scan.entries, best, |scan.entries|, false);
      DecidedIn(p, input, scan.entries, best, |scan.entries|, true);
    }
  }

  predicate EntriesIn(input: Input, entries: seq<Candidate>) {
    forall n :: 0 <= n < |entries| ==> InInput(input, entries[n].pair)
  }

  lemma {:induction false} ScanRowIn(p: Params, input: Input, scan: Scan, i: nat, j: nat)
    requires input.Cameras? && i < |input.left| && j <= |input.right|
    requires EventsIn(input, scan.rejected) && EntriesIn(input, scan.entries)
    ensures var after := ScanRow(p, input, scan, i, j);
      EventsIn(input, after.rejected) && EntriesIn(input, after.entries)
  {
    if j > 0 {
      ScanRowIn(p, input, scan, i, j - 1);
    }
  }

  lemma {:induction false} ScanRowsIn(p: Params, input: Input, i: nat)
    requires input.Cameras? && i <= |input.left|
    ensures var scan := ScanRows(p, input, i);
      EventsIn(input, scan.rejected) && EntriesIn(input, scan.entries)
  {
    if i > 0 {
      ScanRowsIn(p, input, i - 1);
      ScanRowIn(p, input, ScanRows(p, input, i - 1), i - 1, |input.right|);
    }
  }

  lemma {:induction false} DecidedIn(
    p: Params, input: Input, entries: seq<Candidate>, best: seq<Pair>, n: nat, accepted: bool)
    requires n <= |entries| && EntriesIn(input, entries)
    ensures EventsIn(input, Decided(p, entries, best, n, accepted))
  {
    if n > 0 {
      DecidedIn(p, input, entries, best, n - 1, accepted);
    }
  }

  function Begin(s: State): State {
    s.(index := s.index + 1)
  }

  function Paired(p: Params, begun: State, input: Input): State {
    EventsInInput(p, input);
    ApplyAll(p, begun, input, EventsOf(p, input))
  }

  /** The state once every event of the update has been applied. */
  function Folded(p: Params, s: State, input: Input): State {
    Paired(p, Begin(s), input)
  }

  function Finish(p: Params, s: State, evaluated: set<PairKey>): State {
    Expire(p, MarkUnobserved(s, evaluated))
  }

  /** The state before the streaks are pruned. */
  function Digest(p: Params, s: State, input: Input): State {
    Finish(p, Folded(p, s, input), Evaluated(input))
  }

  function Update(p: Params, s: State, input: Input): State {
    Prune(p, Digest(p, s, input))
  }
}
