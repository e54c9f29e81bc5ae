/** Pairing the observations of two cameras into fused people, with a memory of pairings. */
module CameraFusion {
  import opened Observations
  import opened OneToOnePairing
  import opened Options

  const TOLERANCE_FACTOR: real := 2.5
  const PAIR_FRAMES: nat := 2
  const SPLIT_FRAMES: nat := 6
  const MAX_IDLE_CYCLES: nat := 30

  /** The distance is a parameter: nothing below depends on how it is computed. */
  datatype Config = Config(
    maxDistance: real,
    maxSkew: real,
    requireReid: bool,
    dist: (Point, Point) -> real)
  {
    function Tolerance(): real { maxDistance * TOLERANCE_FACTOR }
  }

  /** What a camera hands over: the time may be unusable. */
  datatype Sighting = Sighting(seen: Observation, time: Option<real>)

  /** A missing point takes the grade with it. */
  function Tidy(s: Sighting): Observation
    requires s.time.Some?
  {
    s.seen.(capturedAt := s.time.value, quality := if s.seen.point.None? then NoQuality else s.seen.quality)
  }

  /** Sightings with no usable time are dropped. */
  function Normalize(sightings: seq<Sighting>): seq<Observation> {
    if sightings == [] then []
    else
      var last := sightings[|sightings| - 1];
      Normalize(sightings[..|sightings| - 1]) + (if last.time.Some? then [Tidy(last)] else [])
  }

  function NormalizeAll(cameras: seq<seq<Sighting>>): seq<seq<Observation>> {
    seq(|cameras|, c requires 0 <= c < |cameras| => Normalize(cameras[c]))
  }

  // --- Keys and history ----------------------------------------------------

  datatype PairKey =
    | Master(id: int)
    | Temporary(group: string)
    | Tracks(leftCamera: string, leftTrack: Option<int>, rightCamera: string, rightTrack: Option<int>)

  predicate SameMaster(l: Observation, r: Observation) {
    l.identity.Some? && l.identity == r.identity
  }

  predicate SameGroup(l: Observation, r: Observation) {
    l.group.Some? && l.group == r.group
  }

  function KeyOf(l: Observation, r: Observation): PairKey {
    if SameMaster(l, r) then Master(l.identity.value)
    else if SameGroup(l, r) then Temporary(l.group.value)
    else Tracks(l.camera, l.track, r.camera, r.track)
  }

  /** A field the source leaves out of a record reads as zero. */
  datatype Entry = Entry(fused: nat, violations: nat, age: nat)

  type Memory = map<PairKey, Entry>

  function Recall(memory: Memory, key: PairKey): Entry {
    if key in memory then memory[key] else Entry(0, 0, 0)
  }

  predicate PreviouslyFused(memory: Memory, l: Observation, r: Observation) {
    || Recall(memory, KeyOf(l, r)).fused >= PAIR_FRAMES
    || ((SameMaster(l, r) || SameGroup(l, r)) && l.pairRecent && r.pairRecent)
  }

  // --- Judging one candidate pair ------------------------------------------

  function Skew(l: Observation, r: Observation): real {
    Abs(l.capturedAt - r.capturedAt)
  }

  predicate Unsettled(state: Option<string>) {
    state == Some("provisional") || state == Some("challenged")
  }

  /** The identity layer's veto. */
  predicate IdentityAllows(l: Observation, r: Observation) {
    if l.identity.None? && r.identity.None? && SameGroup(l, r) then true
    else if l.identity.None? || r.identity.None? || l.identity != r.identity then false
    else if Unsettled(l.state) || Unsettled(r.state) then true
    else l.reidConfirmed && r.reidConfirmed
  }

  /** Skew and identity gates for a pair whose distance is acceptable. */
  function Gate(cfg: Config, held: bool, l: Observation, r: Observation, distance: real): Option<real> {
    var limit := cfg.maxSkew * (if held then 2.0 else 1.0);
    if Skew(l, r) > limit || (cfg.requireReid && !IdentityAllows(l, r)) then None
    else Some(distance + Skew(l, r) / Max(cfg.maxSkew, 0.000000001) * 0.001)
  }

  /** The memory after the pair was looked at, and its cost if it may be matched. */
  datatype Verdict = Verdict(memory: Memory, cost: Option<real>)

  function Judge(cfg: Config, memory: Memory, l: Observation, r: Observation): Verdict {
    var key := KeyOf(l, r);
    var held := PreviouslyFused(memory, l, r);
    if l.point.None? || r.point.None? then
      var linked := SameMaster(l, r) || SameGroup(l, r);
      Verdict(memory,
              if linked && Skew(l, r) <= cfg.maxSkew then Some(cfg.Tolerance() + cfg.maxDistance) else None)
    else
      var distance := cfg.dist(l.point.value, r.point.value);
      if distance > cfg.maxDistance then
        if distance > cfg.Tolerance() || !held then Verdict(memory, None)
        else if IsSoft(l.quality) || IsSoft(r.quality) then
          Verdict(memory, Gate(cfg, held, l, r, distance))
        else
          var entry := Recall(memory, key);
          var violations := entry.violations + 1;
          var updated := memory[key := entry.(violations := violations)];
          Verdict(updated, if violations < SPLIT_FRAMES then Gate(cfg, held, l, r, distance) else None)
      else
        var updated := if key in memory then memory[key := memory[key].(violations := 0)] else memory;
        Verdict(updated, Gate(cfg, held, l, r, distance))
  }

  // --- All pairs of one cycle ----------------------------------------------

  datatype Survey = Survey(memory: Memory, seen: set<PairKey>, entries: seq<Candidate>)

  function Consider(cfg: Config, s: Survey, i: nat, l: Observation, j: nat, r: Observation): Survey {
    var verdict := Judge(cfg, s.memory, l, r);
    Survey(verdict.memory, s.seen + {KeyOf(l, r)},
           if verdict.cost.Some? then s.entries + [Candidate((i, j), verdict.cost.value)] else s.entries)
  }

  /** Row `i` against the first `j` right observations. */
  function SurveyRow(cfg: Config, s: Survey, i: nat, l: Observation, right: seq<Observation>, j: nat): Survey
    requires j <= |right|
  {
    if j == 0 then s
    else Consider(cfg, SurveyRow(cfg, s, i, l, right, j - 1), i, l, j - 1, right[j - 1])
  }

  function SurveyRows(cfg: Config, memory: Memory, left: seq<Observation>, right: seq<Observation>, i: nat): Survey
    requires i <= |left|
  {
    if i == 0 then Survey(memory, {}, [])
    else SurveyRow(cfg, SurveyRows(cfg, memory, left, right, i - 1), i - 1, left[i - 1], right, |right|)
  }

  // --- Committing the chosen pairs -----------------------------------------

  function Fuse(l: Observation, r: Observation): Person {
    var group := SoleClaim(l.group, r.group);
    var state :=
      if group.Some? then Some("analyzing")
      else if l.state == Some("challenged") || r.state == Some("challenged") then Some("challenged")
      else if l.state == Some("provisional") || r.state == Some("provisional") then Some("provisional")
      else if l.state == r.state then l.state else None;
    Person(Center([l, r]), PointsOf([l, r]), [l.camera, r.camera], [l, r],
           SoleClaim(l.identity, r.identity), group, state, [])
  }

  function Credit(memory: Memory, key: PairKey): Memory {
    var entry := Recall(memory, key);
    var raised := if entry.fused + 1 < 2 * PAIR_FRAMES then entry.fused + 1 else 2 * PAIR_FRAMES;
    memory[key := entry.(fused := raised, age := 0)]
  }

  predicate IndicesWithin(pairs: seq<Pair>, left: nat, right: nat) {
    forall k :: 0 <= k < |pairs| ==> pairs[k].0 < left && pairs[k].1 < right
  }

  datatype Commit = Commit(memory: Memory, fusedKeys: set<PairKey>)

  function CommitPairs(memory: Memory, left: seq<Observation>, right: seq<Observation>, pairs: seq<Pair>): Commit
    requires IndicesWithin(pairs, |left|, |right|)
  {
    if pairs == [] then Commit(memory, {})
    else
      var before := CommitPairs(memory, left, right, pairs[..|pairs| - 1]);
      var pair := pairs[|pairs| - 1];
      var key := KeyOf(left[pair.0], right[pair.1]);
      Commit(Credit(before.memory, key), before.fusedKeys + {key})
  }

  function FusePairs(left: seq<Observation>, right: seq<Observation>, pairs: seq<Pair>): seq<Person>
    requires IndicesWithin(pairs, |left|, |right|)
  {
    seq(|pairs|, k requires 0 <= k < |pairs| => Fuse(left[pairs[k].0], right[pairs[k].1]))
  }

  lemma FusePairsLast(left: seq<Observation>, right: seq<Observation>, pairs: seq<Pair>)
    requires IndicesWithin(pairs, |left|, |right|) && pairs != []
    ensures var front, last := pairs[..|pairs| - 1], pairs[|pairs| - 1];
      FusePairs(left, right, pairs) == FusePairs(left, right, front) + [Fuse(left[last.0], right[last.1])]
  {
  }

  // --- Aging ---------------------------------------------------------------

  /** What is left of one remembered pairing after a cycle; nothing once it is too old. */
  function Aged(entry: Entry, seen: bool, fused: bool): Option<Entry> {
    if fused then Some(entry.(age := 0))
    else if seen then Some(entry.(age := 0, fused := if entry.fused > 1 then entry.fused - 1 else 0))
    else if entry.age + 1 > MAX_IDLE_CYCLES then None
    else Some(entry.(age := entry.age + 1))
  }

  function AgeMemory(memory: Memory, seen: set<PairKey>, fused: set<PairKey>): Memory {
    map key | key in memory && Aged(memory[key], key in seen, key in fused).Some?
      :: Aged(memory[key], key in seen, key in fused).value
  }

  // --- One cycle -----------------------------------------------------------

  function Unpaired(observations: seq<Observation>, used: set<nat>, n: nat): seq<Person>
    requires n <= |observations|
  {
    if n == 0 then []
    else Unpaired(observations, used, n - 1)
         + (if n - 1 in used then [] else [Singleton(observations[n - 1])])
  }

  function Singletons(cameras: seq<seq<Observation>>): seq<Person> {
    if cameras == [] then []
    else Singletons(cameras[..|cameras| - 1]) + Unpaired(cameras[|cameras| - 1], {}, |cameras[|cameras| - 1]|)
  }

  datatype Cycle = Cycle(memory: Memory, pairs: seq<Pair>, people: seq<Person>)

  /** Pairs the first two cameras and ages the memory; with fewer cameras nothing is paired. */
  function FuseCycle(cfg: Config, memory: Memory, cameras: seq<seq<Observation>>): Cycle {
    if |cameras| < 2 then Cycle(memory, [], Singletons(cameras))
    else
      var left, right := cameras[0], cameras[1];
      var survey := SurveyRows(cfg, memory, left, right, |left|);
      var pairs := BestPairs(|left|, |right|, survey.entries);
      SurveyBest(cfg, memory, left, right);
      var commit := CommitPairs(survey.memory, left, right, pairs);
      Cycle(AgeMemory(commit.memory, survey.seen, commit.fusedKeys), pairs,
            FusePairs(left, right, pairs)
            + Unpaired(left, Lefts(pairs), |left|)
            + Unpaired(right, Rights(pairs), |right|)
            + Singletons(cameras[2..]))
  }

  // --- What a survey produces ----------------------------------------------

  /** A condition every candidate satisfies, whatever the memory said. */
  ghost predicate Admissible(cfg: Config, l: Observation, r: Observation) {
    && (cfg.requireReid || l.point.None? || r.point.None? ==> SameMaster(l, r) || SameGroup(l, r))
    && (l.point.Some? && r.point.Some? ==>
          cfg.dist(l.point.value, r.point.value) <= Max(cfg.maxDistance, cfg.Tolerance()))
    && Skew(l, r) <= 2.0 * Max(cfg.maxSkew, 0.0)
  }

  lemma JudgeAdmissible(cfg: Config, memory: Memory, l: Observation, r: Observation)
    ensures Judge(cfg, memory, l, r).cost.Some? ==> Admissible(cfg, l, r)
  {
  }

  ghost predicate Cleared(cfg: Config, left: seq<Observation>, right: seq<Observation>, p: Pair) {
    p.0 < |left| && p.1 < |right| && Admissible(cfg, left[p.0], right[p.1])
  }

  ghost predicate AllCleared(cfg: Config, left: seq<Observation>, right: seq<Observation>, entries: seq<Candidate>) {
    forall k :: 0 <= k < |entries| ==> Cleared(cfg, left, right, entries[k].pair)
  }

  lemma {:induction false} SurveyRowCleared(
    cfg: Config, s: Survey, left: seq<Observation>, right: seq<Observation>, i: nat, j: nat)
    requires i < |left| && j <= |right|
    requires AllCleared(cfg, left, right, s.entries)
    ensures AllCleared(cfg, left, right, SurveyRow(cfg, s, i, left[i], right, j).entries)
  {
    if j > 0 {
      SurveyRowCleared(cfg, s, left, right, i, j - 1);
      var before := SurveyRow(cfg, s, i, left[i], right, j - 1);
      JudgeAdmissible(cfg, before.memory, left[i], right[j - 1]);
    }
  }

  lemma {:induction false} SurveyRowInOrder(
    cfg: Config, s: Survey, l: Observation, right: seq<Observation>, i: nat, j: nat)
    requires j <= |right|
    requires InOrder(s.entries, i, 0)
    ensures InOrder(SurveyRow(cfg, s, i, l, right, j).entries, i, j)
  {
    if j > 0 {
      SurveyRowInOrder(cfg, s, l, right, i, j - 1);
      AppendInOrder(SurveyRow(cfg, s, i, l, right, j - 1).entries, i, j - 1);
    }
  }

  lemma {:induction false} SurveyRowsOk(
    cfg: Config, memory: Memory, left: seq<Observation>, right: seq<Observation>, i: nat)
    requires i <= |left|
    ensures AllCleared(cfg, left, right, SurveyRows(cfg, memory, left, right, i).entries)
    ensures InOrder(SurveyRows(cfg, memory, left, right, i).entries, i, 0)
  {
    if i > 0 {
      SurveyRowsOk(cfg, memory, left, right, i - 1);
      var before := SurveyRows(cfg, memory, left, right, i - 1);
      SurveyRowCleared(cfg, before, left, right, i - 1, |right|);
      SurveyRowInOrder(cfg, before, left[i - 1], right, i - 1, |right|);
      var entries := SurveyRow(cfg, before, i - 1, left[i - 1], right, |right|).entries;
      forall k | 0 <= k < |entries| ensures Before(entries[k].pair, i, 0) {
        assert Cleared(cfg, left, right, entries[k].pair);
        assert Before(entries[k].pair, i - 1, |right|);
      }
    }
  }

  /** The keys of all pairs both cameras show in a cycle. */
  ghost function SeenKeys(left: seq<Observation>, right: seq<Observation>): set<PairKey> {
    set a, b | 0 <= a < |left| && 0 <= b < |right| :: KeyOf(left[a], right[b])
  }

  lemma {:induction false} SurveyRowSeen(
    cfg: Config, s: Survey, i: nat, l: Observation, right: seq<Observation>, j: nat)
    requires j <= |right|
    ensures SurveyRow(cfg, s, i, l, right, j).seen == s.seen + SeenKeys([l], right[..j])
  {
    if j == 0 {
      assert SeenKeys([l], right[..0]) == {};
    } else {
      SurveyRowSeen(cfg, s, i, l, right, j - 1);
      SeenOneMore(l, right, j);
    }
  }

  lemma SeenOneMore(l: Observation, right: seq<Observation>, j: nat)
    requires 0 < j <= |right|
    ensures SeenKeys([l], right[..j]) == SeenKeys([l], right[..j - 1]) + {KeyOf(l, right[j - 1])}
  {
    assert [l][0] == l && right[..j][j - 1] == right[j - 1];
    forall b | 0 <= b < j - 1 ensures right[..j][b] == right[..j - 1][b] {}
  }

  lemma {:induction false} SurveyRowsSeen(
    cfg: Config, memory: Memory, left: seq<Observation>, right: seq<Observation>, i: nat)
    requires i <= |left|
    ensures SurveyRows(cfg, memory, left, right, i).seen == SeenKeys(left[..i], right)
  {
    if i > 0 {
      SurveyRowsSeen(cfg, memory, left, right, i - 1);
      SurveyRowSeen(cfg, SurveyRows(cfg, memory, left, right, i - 1), i - 1, left[i - 1], right, |right|);
      SeenSplit(left, right, i);
      assert right[..|right|] == right;
    }
  }

  lemma SeenSplit(left: seq<Observation>, right: seq<Observation>, i: nat)
    requires 0 < i <= |left|
    ensures SeenKeys(left[..i], right) == SeenKeys(left[..i - 1], right) + SeenKeys([left[i - 1]], right)
  {
    var whole, front, row := left[..i], left[..i - 1], [left[i - 1]];
    assert whole[i - 1] == row[0];
    forall a | 0 <= a < i - 1 ensures whole[a] == front[a] {}
    forall key | key in SeenKeys(whole, right)
      ensures key in SeenKeys(front, right) + SeenKeys(row, right)
    {
      var a, b :| 0 <= a < |whole| && 0 <= b < |right| && KeyOf(whole[a], right[b]) == key;
      if a < i - 1 {
        assert KeyOf(front[a], right[b]) == key;
      } else {
        assert KeyOf(row[0], right[b]) == key;
      }
    }
    forall key | key in SeenKeys(front, right) + SeenKeys(row, right)
      ensures key in SeenKeys(whole, right)
    {
      if key in SeenKeys(front, right) {
        var a, b :| 0 <= a < |front| && 0 <= b < |right| && KeyOf(front[a], right[b]) == key;
        assert KeyOf(whole[a], right[b]) == key;
      } else {
        var a, b :| 0 <= a < |row| && 0 <= b < |right| && KeyOf(row[a], right[b]) == key;
        assert KeyOf(whole[i - 1], right[b]) == key;
      }
    }
  }

  /** The chosen pairs are one-to-one and every one of them passed the gates. */
  lemma SurveyBest(cfg: Config, memory: Memory, left: seq<Observation>, right: seq<Observation>)
    ensures var entries := SurveyRows(cfg, memory, left, right, |left|).entries;
      var pairs := BestPairs(|left|, |right|, entries);
      && WellFormed(|left|, |right|, entries)
      && OneToOne(pairs) && IndicesWithin(pairs, |left|, |right|)
      && forall k :: 0 <= k < |pairs| ==> Cleared(cfg, left, right, pairs[k])
  {
    SurveyRowsOk(cfg, memory, left, right, |left|);
    var entries := SurveyRows(cfg, memory, left, right, |left|).entries;
    ClearedSelection(cfg, left, right, entries);
  }

  lemma ClearedSelection(cfg: Config, left: seq<Observation>, right: seq<Observation>, entries: seq<Candidate>)
    requires AllCleared(cfg, left, right, entries) && DistinctPairs(entries)
    ensures var pairs := BestPairs(|left|, |right|, entries);
      && WellFormed(|left|, |right|, entries)
      && OneToOne(pairs) && IndicesWithin(pairs, |left|, |right|)
      && forall k :: 0 <= k < |pairs| ==> Cleared(cfg, left, right, pairs[k])
  {
    forall k | 0 <= k < |entries| ensures entries[k].pair.0 < |left| && entries[k].pair.1 < |right| {
      assert Cleared(cfg, left, right, entries[k].pair);
    }
    var pairs := BestPairs(|left|, |right|, entries);
    BestPairsMatching(|left|, |right|, entries);
    forall k | 0 <= k < |pairs| ensures Cleared(cfg, left, right, pairs[k]) {
      CostsListed(entries, pairs[k]);
      var n :| 0 <= n < |entries| && entries[n].pair == pairs[k];
      assert Cleared(cfg, left, right, entries[n].pair);
    }
  }
}
