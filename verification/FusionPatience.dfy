/** Exactly which pairs may be fused in a frame, and which frames of one pair are, whatever they look like. */
module FusionPatience {
  import opened CameraFusion
  import opened FusionProperties
  import opened Observations
  import opened OneToOnePairing

  /** Where the two points are: in range, apart in the tolerance band, out of it, or not both there. */
  datatype Place = Near | Band(measured: bool) | Far | Unplaced(linked: bool)

  /** How far apart the two were taken: within the limit, within twice the limit, or more. */
  datatype Timing = OnTime | Late | TooLate

  /** All that counts about how one frame shows a pair; `flagged` says the coordinator vouches for it. */
  datatype Look = Look(place: Place, timing: Timing, allowed: bool, flagged: bool)

  predicate Linked(l: Observation, r: Observation) {
    (l.identity.Some? && l.identity == r.identity) || (l.group.Some? && l.group == r.group)
  }

  function PlaceOf(cfg: Config, l: Observation, r: Observation): Place {
    if l.point.None? || r.point.None? then Unplaced(Linked(l, r))
    else
      var distance := cfg.dist(l.point.value, r.point.value);
      if distance <= cfg.maxDistance then Near
      else if distance <= 2.5 * cfg.maxDistance then Band(l.quality == Hard && r.quality == Hard)
      else Far
  }

  function TimingOf(cfg: Config, l: Observation, r: Observation): Timing {
    if Gap(l, r) <= cfg.maxSkew then OnTime else if Gap(l, r) <= 2.0 * cfg.maxSkew then Late else TooLate
  }

  function LookOf(cfg: Config, l: Observation, r: Observation): Look {
    Look(PlaceOf(cfg, l, r), TimingOf(cfg, l, r), cfg.requireReid ==> MayBeOne(l, r),
         Linked(l, r) && l.pairRecent && r.pairRecent)
  }

  /** What a match costs: the distance and a little of the time; more than the whole band without a place. */
  function Price(cfg: Config, l: Observation, r: Observation): real {
    if l.point.None? || r.point.None? then 3.5 * cfg.maxDistance
    else
      var limit := if cfg.maxSkew < 0.000000001 then 0.000000001 else cfg.maxSkew;
      cfg.dist(l.point.value, r.point.value) + 0.001 * (Gap(l, r) / limit)
  }

  // --- The rule ------------------------------------------------------------

  /** What the memory holds of the pair. */
  datatype Tally = Tally(credit: nat, violations: nat)

  function TallyOf(memory: Memory, key: PairKey): Tally {
    if key in memory then Tally(memory[key].fused, memory[key].violations) else Tally(0, 0)
  }

  predicate Held(t: Tally, flagged: bool) { t.credit >= 2 || flagged }

  predicate InTime(t: Tally, look: Look) { look.timing.OnTime? || (look.timing.Late? && Held(t, look.flagged)) }

  /** Whether a pair that looks like this may be drawn as one person. */
  predicate Drawn(t: Tally, look: Look) {
    match look.place
    case Near => InTime(t, look) && look.allowed
    case Band(measured) =>
      && InTime(t, look) && look.allowed && Held(t, look.flagged)
      && (measured ==> t.violations < 5)
    case Far => false
    case Unplaced(linked) => linked && look.timing.OnTime?
  }

  function Counted(t: Tally, look: Look): nat {
    match look.place
    case Near => 0
    case Band(measured) => if measured && Held(t, look.flagged) then t.violations + 1 else t.violations
    case Far => t.violations
    case Unplaced(_) => t.violations
  }

  function Credited(t: Tally, fused: bool): nat {
    if fused then (if t.credit < 4 then t.credit + 1 else 4) else if t.credit > 1 then t.credit - 1 else 0
  }

  function NextTally(t: Tally, look: Look, fused: bool): Tally {
    Tally(Credited(t, fused), Counted(t, look))
  }

  lemma JudgedAs(cfg: Config, memory: Memory, l: Observation, r: Observation)
    ensures var key, verdict, look := KeyOf(l, r), Judge(cfg, memory, l, r), LookOf(cfg, l, r);
      && (verdict.cost.Some? <==> Drawn(TallyOf(memory, key), look))
      && (verdict.cost.Some? ==> verdict.cost.value == Price(cfg, l, r))
      && TallyOf(verdict.memory, key) == Tally(TallyOf(memory, key).credit, Counted(TallyOf(memory, key), look))
  {
    MayBeOneIsAllowed(l, r);
    assert Skew(l, r) == Gap(l, r) >= 0.0;
    assert Linked(l, r) <==> SameMaster(l, r) || SameGroup(l, r);
    assert PreviouslyFused(memory, l, r) <==> Held(TallyOf(memory, KeyOf(l, r)), LookOf(cfg, l, r).flagged);
  }

  lemma JudgeKeepsOthers(cfg: Config, memory: Memory, l: Observation, r: Observation, key: PairKey)
    requires KeyOf(l, r) != key
    ensures TallyOf(Judge(cfg, memory, l, r).memory, key) == TallyOf(memory, key)
  {
  }

  // --- One frame, whoever else is in it ------------------------------------

  /** The key belongs to this pair of observations and to no other of the frame. */
  ghost predicate ShownAt(key: PairKey, left: seq<Observation>, right: seq<Observation>, at: Pair) {
    && at.0 < |left| && at.1 < |right| && KnownAs(key, left[at.0], right[at.1])
    && forall i, j :: 0 <= i < |left| && 0 <= j < |right| && (i, j) != at ==> !KnownAs(key, left[i], right[j])
  }

  /** Whether the pair has been looked at before `at`, row by row. */
  predicate Earlier(at: Pair, i: nat, j: nat) { at.0 < i || (at.0 == i && at.1 < j) }

  /** At this one price or not at all. */
  ghost predicate ListedAt(entries: seq<Candidate>, at: Pair, listed: bool, price: real) {
    forall cost :: Candidate(at, cost) in entries <==> listed && cost == price
  }

  /** What looking at the pair does: the tally before and after, and whether it may be matched, at which price. */
  datatype Finding = Finding(before: Tally, after: Tally, drawn: bool, price: real)

  function FindingOf(cfg: Config, t: Tally, l: Observation, r: Observation): Finding {
    var look := LookOf(cfg, l, r);
    Finding(t, Tally(t.credit, Counted(t, look)), Drawn(t, look), Price(cfg, l, r))
  }

  ghost predicate Looked(survey: Survey, key: PairKey, at: Pair, f: Finding, yet: bool) {
    && TallyOf(survey.memory, key) == (if yet then f.after else f.before)
    && ListedAt(survey.entries, at, yet && f.drawn, f.price)
  }

  lemma LookedNext(
    cfg: Config, key: PairKey, left: seq<Observation>, right: seq<Observation>, at: Pair, f: Finding,
    before: Survey, after: Survey, i: nat, j: nat)
    requires ShownAt(key, left, right, at) && i < |left| && 0 < j <= |right|
    requires f == FindingOf(cfg, f.before, left[at.0], right[at.1])
    requires Looked(before, key, at, f, Earlier(at, i, j - 1))
    requires after == Consider(cfg, before, i, left[i], j - 1, right[j - 1])
    ensures Looked(after, key, at, f, Earlier(at, i, j))
  {
    KnownAsKey(key, left[i], right[j - 1]);
    if (i, j - 1) == at {
      JudgedAs(cfg, before.memory, left[i], right[j - 1]);
    } else {
      assert !KnownAs(key, left[i], right[j - 1]);
      JudgeKeepsOthers(cfg, before.memory, left[i], right[j - 1], key);
    }
  }

  lemma {:induction false} RowLooked(
    cfg: Config, key: PairKey, left: seq<Observation>, right: seq<Observation>, at: Pair, f: Finding,
    survey: Survey, i: nat, j: nat)
    requires ShownAt(key, left, right, at) && i < |left| && j <= |right|
    requires f == FindingOf(cfg, f.before, left[at.0], right[at.1]) && Looked(survey, key, at, f, Earlier(at, i, 0))
    ensures Looked(SurveyRow(cfg, survey, i, left[i], right, j), key, at, f, Earlier(at, i, j))
  {
    if j > 0 {
      RowLooked(cfg, key, left, right, at, f, survey, i, j - 1);
      LookedNext(cfg, key, left, right, at, f, SurveyRow(cfg, survey, i, left[i], right, j - 1),
                 SurveyRow(cfg, survey, i, left[i], right, j), i, j);
    }
  }

  lemma {:induction false} RowsLooked(
    cfg: Config, memory: Memory, key: PairKey, left: seq<Observation>, right: seq<Observation>, at: Pair, i: nat)
    requires ShownAt(key, left, right, at) && i <= |left|
    ensures Looked(SurveyRows(cfg, memory, left, right, i), key, at,
                   FindingOf(cfg, TallyOf(memory, key), left[at.0], right[at.1]), Earlier(at, i, 0))
  {
    if i > 0 {
      var f := FindingOf(cfg, TallyOf(memory, key), left[at.0], right[at.1]);
      RowsLooked(cfg, memory, key, left, right, at, i - 1);
      RowLooked(cfg, key, left, right, at, f, SurveyRows(cfg, memory, left, right, i - 1), i - 1, |right|);
      assert Earlier(at, i - 1, |right|) == Earlier(at, i, 0);
    }
  }

  /**
   In any frame, whoever else is in it: a pair whose key no other pair of the
   frame shares is a candidate exactly when the rule draws it, at its price.
   */
  lemma CandidateExactly(
    cfg: Config, memory: Memory, left: seq<Observation>, right: seq<Observation>, key: PairKey, at: Pair, cost: real)
    requires ShownAt(key, left, right, at)
    ensures Candidate(at, cost) in SurveyRows(cfg, memory, left, right, |left|).entries <==>
      && Drawn(TallyOf(memory, key), LookOf(cfg, left[at.0], right[at.1]))
      && cost == Price(cfg, left[at.0], right[at.1])
  {
    RowsLooked(cfg, memory, key, left, right, at, |left|);
  }


  lemma {:induction false} CommitTally(
    memory: Memory, key: PairKey, left: seq<Observation>, right: seq<Observation>, at: Pair, pairs: seq<Pair>)
    requires ShownAt(key, left, right, at) && IndicesWithin(pairs, |left|, |right|) && OneToOne(pairs)
    ensures var commit, t := CommitPairs(memory, left, right, pairs), TallyOf(memory, key);
      && (key in commit.fusedKeys <==> at in pairs)
      && TallyOf(commit.memory, key) == if at in pairs then Tally(Credited(t, true), t.violations) else t
  {
    if pairs != [] {
      var front, last := pairs[..|pairs| - 1], pairs[|pairs| - 1];
      FreshEndpoints(pairs);
      CommitTally(memory, key, left, right, at, front);
      KnownAsKey(key, left[last.0], right[last.1]);
      assert at in pairs <==> at in front || at == last;
      assert at in front ==> at != last;
    }
  }

  lemma AgedTally(memory: Memory, seen: set<PairKey>, fused: set<PairKey>, key: PairKey)
    requires key in seen
    ensures TallyOf(AgeMemory(memory, seen, fused), key)
         == if key in fused then TallyOf(memory, key)
            else Tally(Credited(TallyOf(memory, key), false), TallyOf(memory, key).violations)
  {
  }

  /**
   In any such frame the pair is fused only if the rule draws it, and what is
   remembered of it afterwards is what the rule makes of what was seen and of
   whether it was fused.
   */
  lemma CrowdStep(cfg: Config, memory: Memory, frame: Frame, key: PairKey, at: Pair)
    requires |frame| >= 2 && ShownAt(key, frame[0], frame[1], at)
    ensures var t, look, cycle := TallyOf(memory, key), LookOf(cfg, frame[0][at.0], frame[1][at.1]),
                                  FuseCycle(cfg, memory, frame);
      && (at in cycle.pairs ==> Drawn(t, look))
      && TallyOf(cycle.memory, key) == NextTally(t, look, at in cycle.pairs)
  {
    var left, right := frame[0], frame[1];
    var survey, pairs := SurveyRows(cfg, memory, left, right, |left|), FuseCycle(cfg, memory, frame).pairs;
    SurveyBest(cfg, memory, left, right);
    RowsLooked(cfg, memory, key, left, right, at, |left|);
    if at in pairs {
      ChosenIsListed(|left|, |right|, survey.entries, at);
    }
    CommitTally(survey.memory, key, left, right, at, pairs);
    SurveyRowsSeen(cfg, memory, left, right, |left|);
    assert left[..|left|] == left;
    KnownAsKey(key, left[at.0], right[at.1]);
    var commit := CommitPairs(survey.memory, left, right, pairs);
    AgedTally(commit.memory, survey.seen, commit.fusedKeys, key);
  }

  lemma ChosenIsListed(left: nat, right: nat, entries: seq<Candidate>, at: Pair)
    requires WellFormed(left, right, entries) && at in BestPairs(left, right, entries)
    ensures exists cost :: Candidate(at, cost) in entries
  {
    BestPairsMatching(left, right, entries);
    CostsListed(entries, at);
    var n :| 0 <= n < |entries| && entries[n].pair == at;
    assert Candidate(at, entries[n].cost) in entries;
  }

  // --- Runs of one pair on its own -----------------------------------------

  ghost predicate OnePair(key: PairKey, frame: Frame) {
    |frame| >= 2 && |frame[0]| == 1 && |frame[1]| == 1 && KnownAs(key, frame[0][0], frame[1][0])
  }

  ghost predicate OnlyPair(key: PairKey, frames: seq<Frame>) {
    forall n :: 0 <= n < |frames| ==> OnePair(key, frames[n])
  }

  ghost function LooksOf(cfg: Config, key: PairKey, frames: seq<Frame>): (looks: seq<Look>)
    requires OnlyPair(key, frames)
    ensures |looks| == |frames|
  {
    if frames == [] then []
    else
      var last := frames[|frames| - 1];
      LooksOf(cfg, key, frames[..|frames| - 1]) + [LookOf(cfg, last[0][0], last[1][0])]
  }

  function TallyAfter(t: Tally, looks: seq<Look>): Tally {
    if looks == [] then t
    else
      var before, last := TallyAfter(t, looks[..|looks| - 1]), looks[|looks| - 1];
      NextTally(before, last, Drawn(before, last))
  }

  /** On its own a pair is fused exactly when the rule draws it. */
  lemma LookStep(cfg: Config, memory: Memory, key: PairKey, frame: Frame)
    requires OnePair(key, frame)
    ensures var t, look := TallyOf(memory, key), LookOf(cfg, frame[0][0], frame[1][0]);
      && (FuseCycle(cfg, memory, frame).pairs != [] <==> Drawn(t, look))
      && TallyOf(FuseCycle(cfg, memory, frame).memory, key) == NextTally(t, look, Drawn(t, look))
  {
    var pairs := FuseCycle(cfg, memory, frame).pairs;
    DuelCycle(cfg, memory, frame);
    JudgedAs(cfg, memory, frame[0][0], frame[1][0]);
    KnownAsKey(key, frame[0][0], frame[1][0]);
    CrowdStep(cfg, memory, frame, key, (0, 0));
    assert pairs == [] || pairs == [(0, 0)];
  }

  lemma {:induction false} TallyOfRun(cfg: Config, memory: Memory, key: PairKey, frames: seq<Frame>)
    requires OnlyPair(key, frames)
    ensures TallyOf(MemoryAfter(cfg, memory, frames), key)
         == TallyAfter(TallyOf(memory, key), LooksOf(cfg, key, frames))
  {
    if frames != [] {
      var last := |frames| - 1;
      TallyOfRun(cfg, memory, key, frames[..last]);
      LookStep(cfg, MemoryAfter(cfg, memory, frames[..last]), key, frames[last]);
      assert LooksOf(cfg, key, frames)[..last] == LooksOf(cfg, key, frames[..last]);
    }
  }

  lemma {:induction false} LooksPrefix(cfg: Config, key: PairKey, frames: seq<Frame>, n: nat)
    requires OnlyPair(key, frames) && n <= |frames|
    ensures LooksOf(cfg, key, frames)[..n] == LooksOf(cfg, key, frames[..n])
    ensures n < |frames| ==> LooksOf(cfg, key, frames)[n] == LookOf(cfg, frames[n][0][0], frames[n][1][0])
  {
    var looks, last := LooksOf(cfg, key, frames), |frames| - 1;
    if n == |frames| {
      assert frames[..n] == frames && looks[..n] == looks;
    } else {
      LooksPrefix(cfg, key, frames[..last], n);
      assert frames[..last][..n] == frames[..n];
      assert looks[..n] == LooksOf(cfg, key, frames[..last])[..n];
    }
  }

  /** From any memory and over any frames of the pair, a frame is fused exactly when the rule draws it. */
  lemma DrawnExactly(cfg: Config, memory: Memory, key: PairKey, frames: seq<Frame>, n: nat)
    requires OnlyPair(key, frames) && n < |frames|
    ensures var looks := LooksOf(cfg, key, frames);
      FusesAt(cfg, memory, frames, n) <==> Drawn(TallyAfter(TallyOf(memory, key), looks[..n]), looks[n])
  {
    TallyOfRun(cfg, memory, key, frames[..n]);
    LookStep(cfg, MemoryAfter(cfg, memory, frames[..n]), key, frames[n]);
    LooksPrefix(cfg, key, frames, n);
  }

  // --- What the rule comes to ----------------------------------------------

  /** How many of the looks have both points measured, apart in the band. */
  function Disagreements(looks: seq<Look>): nat {
    if looks == [] then 0
    else Disagreements(looks[..|looks| - 1]) + (if looks[|looks| - 1].place == Band(true) then 1 else 0)
  }

  /** In time, allowed, never in range nor out of the band, and linked while a point is missing. */
  ghost predicate Doubtful(looks: seq<Look>) {
    forall n :: 0 <= n < |looks| ==>
      && looks[n].timing.OnTime? && looks[n].allowed
      && (looks[n].place.Band? || looks[n].place == Unplaced(true))
  }

  /** Without a frame in range every measured disagreement counts, up to the sixth. */
  lemma {:induction false} PatienceRunsOut(t: Tally, looks: seq<Look>)
    requires t.credit >= 2 && t.violations == 0 && Doubtful(looks)
    ensures var after, count := TallyAfter(t, looks), Disagreements(looks);
      if count < 6 then after.violations == count && after.credit >= 2 else after.violations >= 6
  {
    if looks != [] {
      PatienceRunsOut(t, looks[..|looks| - 1]);
    }
  }

  /**
   From a settled pair on, as long as no frame is in range: of the frames with
   both points measured exactly the first five are fused, however many others
   come between them; a frame without a place always is; and one with an
   inferred point is until the sixth measured one, and after it exactly while
   the pairing still has credit for two frames or is vouched for.
   */
  lemma MixedFramesSplitExactly(cfg: Config, memory: Memory, key: PairKey, frames: seq<Frame>, n: nat)
    requires Settled(memory, key) && OnlyPair(key, frames) && Doubtful(LooksOf(cfg, key, frames)) && n < |frames|
    ensures var looks := LooksOf(cfg, key, frames);
      FusesAt(cfg, memory, frames, n) <==>
        match looks[n].place
        case Band(true) => Disagreements(looks[..n]) < 5
        case Band(false) =>
          || Disagreements(looks[..n]) < 6
          || Held(TallyAfter(TallyOf(memory, key), looks[..n]), looks[n].flagged)
        case _ => true
  {
    DrawnExactly(cfg, memory, key, frames, n);
    PatienceRunsOut(TallyOf(memory, key), LooksOf(cfg, key, frames)[..n]);
  }

  /**
   After the sixth the pair may flicker: the very next frame with an inferred
   point fuses it again exactly when it had credit for three frames, or is
   vouched for.
   */
  lemma InferredPointMends(cfg: Config, memory: Memory, key: PairKey, first: Frame, second: Frame)
    requires OnePair(key, first) && OnePair(key, second)
    requires var a, b := LookOf(cfg, first[0][0], first[1][0]), LookOf(cfg, second[0][0], second[1][0]);
      a.place == Band(true) && b.place == Band(false) && b.timing.OnTime? && b.allowed
    requires TallyOf(memory, key).credit >= 2 && TallyOf(memory, key).violations == 5
    ensures !FusesAt(cfg, memory, [first, second], 0)
    ensures FusesAt(cfg, memory, [first, second], 1) <==>
      TallyOf(memory, key).credit >= 3 || LookOf(cfg, second[0][0], second[1][0]).flagged
  {
    var frames, t := [first, second], TallyOf(memory, key);
    var looks := LooksOf(cfg, key, frames);
    LooksPrefix(cfg, key, frames, 0);
    LooksPrefix(cfg, key, frames, 1);
    assert looks[..0] == [] && looks[..1] == [looks[0]] && [looks[0]][..0] == [];
    assert TallyAfter(t, looks[..1]) == NextTally(t, looks[0], Drawn(t, looks[0]));
    DrawnExactly(cfg, memory, key, frames, 0);
    DrawnExactly(cfg, memory, key, frames, 1);
  }
}
