/** What a fusion cycle keeps, and what the pair memory guarantees over whole runs. */
module FusionProperties {
  import opened CameraFusion
  import opened Observations
  import opened OneToOnePairing
  import opened Options

  // --- Every observation ends up in exactly one person ---------------------

  ghost function Carried(people: seq<Person>): multiset<Observation> {
    if people == [] then multiset{}
    else Carried(people[..|people| - 1]) + multiset(people[|people| - 1].observations)
  }

  ghost function AllSeen(cameras: seq<seq<Observation>>): multiset<Observation> {
    if cameras == [] then multiset{}
    else AllSeen(cameras[..|cameras| - 1]) + multiset(cameras[|cameras| - 1])
  }

  lemma {:induction false} CarriedConcat(a: seq<Person>, b: seq<Person>)
    ensures Carried(a + b) == Carried(a) + Carried(b)
  {
    if b == [] {
      assert a + b == a;
    } else {
      var front, last := b[..|b| - 1], b[|b| - 1];
      CarriedConcat(a, front);
      assert (a + b)[..|a + b| - 1] == a + front && (a + b)[|a + b| - 1] == last;
      assert Carried(a + b) == Carried(a + front) + multiset(last.observations);
    }
  }

  /** The observations among the first `n` that are not used. */
  ghost function Rest(observations: seq<Observation>, used: set<nat>, n: nat): multiset<Observation>
    requires n <= |observations|
  {
    if n == 0 then multiset{}
    else if n - 1 in used then Rest(observations, used, n - 1)
    else Rest(observations, used, n - 1) + multiset{observations[n - 1]}
  }

  lemma {:induction false} UnpairedCarries(observations: seq<Observation>, used: set<nat>, n: nat)
    requires n <= |observations|
    ensures Carried(Unpaired(observations, used, n)) == Rest(observations, used, n)
  {
    if n > 0 {
      UnpairedCarries(observations, used, n - 1);
      var before := Unpaired(observations, used, n - 1);
      if n - 1 in used {
        assert Unpaired(observations, used, n) == before;
      } else {
        CarriedOneMore(before, Singleton(observations[n - 1]));
      }
    }
  }

  lemma {:induction false} RestOfNone(observations: seq<Observation>, n: nat)
    requires n <= |observations|
    ensures Rest(observations, {}, n) == multiset(observations[..n])
  {
    if n > 0 {
      RestOfNone(observations, n - 1);
      assert observations[..n] == observations[..n - 1] + [observations[n - 1]];
    }
  }

  lemma {:induction false} RestUse(observations: seq<Observation>, used: set<nat>, n: nat, x: nat)
    requires n <= |observations| && x < |observations| && x !in used
    ensures Rest(observations, used, n)
         == Rest(observations, used + {x}, n) + (if x < n then multiset{observations[x]} else multiset{})
  {
    if n > 0 {
      RestUse(observations, used, n - 1, x);
      var wider := used + {x};
      if n - 1 == x {
        assert Rest(observations, wider, n) == Rest(observations, wider, n - 1);
      } else if n - 1 in used {
        assert Rest(observations, wider, n) == Rest(observations, wider, n - 1);
      } else {
        assert n - 1 !in wider;
        assert Rest(observations, wider, n) == Rest(observations, wider, n - 1) + multiset{observations[n - 1]};
      }
    }
  }

  lemma FreshEndpoints(pairs: seq<Pair>)
    requires pairs != [] && OneToOne(pairs)
    ensures var front, last := pairs[..|pairs| - 1], pairs[|pairs| - 1];
      OneToOne(front) && last.0 !in Lefts(front) && last.1 !in Rights(front)
  {
    var front, last := pairs[..|pairs| - 1], pairs[|pairs| - 1];
    TouchesByEndpoint(front, last);
    forall k | 0 <= k < |front| ensures front[k].0 != last.0 && front[k].1 != last.1 {
      assert pairs[k] == front[k];
    }
  }

  /** Moving one observation of each camera from the rest into a pair. */
  lemma MoveToPair<T>(
    all: multiset<T>, carried: multiset<T>, left: multiset<T>, right: multiset<T>,
    left': multiset<T>, right': multiset<T>, l: T, r: T)
    requires carried + left + right == all
    requires left == left' + multiset{l} && right == right' + multiset{r}
    ensures carried + multiset([l, r]) + left' + right' == all
  {
    assert multiset([l, r]) == multiset{l} + multiset{r};
  }

  lemma CarriedOneMore(people: seq<Person>, person: Person)
    ensures Carried(people + [person]) == Carried(people) + multiset(person.observations)
  {
    assert (people + [person])[..|people|] == people;
  }

  lemma FusedCarryLast(left: seq<Observation>, right: seq<Observation>, pairs: seq<Pair>)
    requires IndicesWithin(pairs, |left|, |right|) && pairs != []
    ensures var front, last := pairs[..|pairs| - 1], pairs[|pairs| - 1];
      Carried(FusePairs(left, right, pairs))
      == Carried(FusePairs(left, right, front)) + multiset([left[last.0], right[last.1]])
  {
    var front, last := pairs[..|pairs| - 1], pairs[|pairs| - 1];
    FusePairsLast(left, right, pairs);
    CarriedOneMore(FusePairs(left, right, front), Fuse(left[last.0], right[last.1]));
  }

  /** Paired and unpaired observations together are all of them. */
  lemma {:induction false} FusedCarry(left: seq<Observation>, right: seq<Observation>, pairs: seq<Pair>)
    requires IndicesWithin(pairs, |left|, |right|) && OneToOne(pairs)
    ensures Carried(FusePairs(left, right, pairs))
          + Rest(left, Lefts(pairs), |left|) + Rest(right, Rights(pairs), |right|)
         == multiset(left) + multiset(right)
  {
    if pairs == [] {
      RestOfNone(left, |left|);
      RestOfNone(right, |right|);
      assert left[..|left|] == left && right[..|right|] == right;
    } else {
      var front, last := pairs[..|pairs| - 1], pairs[|pairs| - 1];
      FreshEndpoints(pairs);
      FusedCarry(left, right, front);
      FusedCarryLast(left, right, pairs);
      RestUse(left, Lefts(front), |left|, last.0);
      RestUse(right, Rights(front), |right|, last.1);
      MoveToPair(multiset(left) + multiset(right), Carried(FusePairs(left, right, front)),
                 Rest(left, Lefts(front), |left|), Rest(right, Rights(front), |right|),
                 Rest(left, Lefts(pairs), |left|), Rest(right, Rights(pairs), |right|),
                 left[last.0], right[last.1]);
    }
  }

  lemma {:induction false} SingletonsCarry(cameras: seq<seq<Observation>>)
    ensures Carried(Singletons(cameras)) == AllSeen(cameras)
  {
    if cameras != [] {
      var front, last := cameras[..|cameras| - 1], cameras[|cameras| - 1];
      SingletonsCarry(front);
      UnpairedCarries(last, {}, |last|);
      RestOfNone(last, |last|);
      assert last[..|last|] == last;
      CarriedConcat(Singletons(front), Unpaired(last, {}, |last|));
    }
  }

  lemma {:induction false} AllSeenFromTwo(cameras: seq<seq<Observation>>)
    requires |cameras| >= 2
    ensures AllSeen(cameras) == multiset(cameras[0]) + multiset(cameras[1]) + AllSeen(cameras[2..])
  {
    if |cameras| == 2 {
      assert cameras[..1] == [cameras[0]] && cameras[..1][..0] == [];
      assert AllSeen(cameras[..1]) == AllSeen(cameras[..1][..0]) + multiset(cameras[0]);
    } else {
      var front := cameras[..|cameras| - 1];
      AllSeenFromTwo(front);
      assert cameras[2..][..|cameras[2..]| - 1] == front[2..];
    }
  }

  /** How many observations the people hold between them. */
  lemma {:induction false} CarriedSize(people: seq<Person>, pairs: nat)
    requires pairs <= |people|
    requires forall k :: 0 <= k < |people| ==> |people[k].observations| == if k < pairs then 2 else 1
    ensures |Carried(people)| == |people| + pairs
  {
    if people != [] {
      var front := people[..|people| - 1];
      if pairs == |people| {
        CarriedSize(front, pairs - 1);
      } else {
        CarriedSize(front, pairs);
      }
    }
  }

  ghost predicate OneEach(people: seq<Person>) {
    forall k :: 0 <= k < |people| ==> |people[k].observations| == 1
  }

  lemma {:induction false} UnpairedOneEach(observations: seq<Observation>, used: set<nat>, n: nat)
    requires n <= |observations|
    ensures OneEach(Unpaired(observations, used, n))
  {
    if n > 0 {
      UnpairedOneEach(observations, used, n - 1);
    }
  }

  lemma {:induction false} SingletonsOneEach(cameras: seq<seq<Observation>>)
    ensures OneEach(Singletons(cameras))
  {
    if cameras != [] {
      SingletonsOneEach(cameras[..|cameras| - 1]);
      UnpairedOneEach(cameras[|cameras| - 1], {}, |cameras[|cameras| - 1]|);
    }
  }

  lemma CycleConserves(cfg: Config, memory: Memory, cameras: seq<seq<Observation>>)
    ensures var cycle := FuseCycle(cfg, memory, cameras);
      && Carried(cycle.people) == AllSeen(cameras)
      && |cycle.people| + |cycle.pairs| == |AllSeen(cameras)|
      && |cycle.pairs| <= |cycle.people|
      && (cycle.pairs != [] ==> |cameras| >= 2 && IndicesWithin(cycle.pairs, |cameras[0]|, |cameras[1]|))
      && forall k :: 0 <= k < |cycle.people| ==>
           if k < |cycle.pairs|
           then cycle.people[k].observations == [cameras[0][cycle.pairs[k].0], cameras[1][cycle.pairs[k].1]]
           else |cycle.people[k].observations| == 1
  {
    if |cameras| < 2 {
      SingletonsCarry(cameras);
      SingletonsOneEach(cameras);
      CarriedSize(Singletons(cameras), 0);
    } else {
      SurveyBest(cfg, memory, cameras[0], cameras[1]);
      PairingConserves(cameras, FuseCycle(cfg, memory, cameras).pairs);
    }
  }

  /** Everybody in the cycle, for any one-to-one choice of pairs. */
  ghost function Everybody(cameras: seq<seq<Observation>>, pairs: seq<Pair>): seq<Person>
    requires |cameras| >= 2 && IndicesWithin(pairs, |cameras[0]|, |cameras[1]|)
  {
    FusePairs(cameras[0], cameras[1], pairs)
    + Unpaired(cameras[0], Lefts(pairs), |cameras[0]|)
    + Unpaired(cameras[1], Rights(pairs), |cameras[1]|)
    + Singletons(cameras[2..])
  }

  lemma PairingConserves(cameras: seq<seq<Observation>>, pairs: seq<Pair>)
    requires |cameras| >= 2
    requires IndicesWithin(pairs, |cameras[0]|, |cameras[1]|) && OneToOne(pairs)
    ensures var people := Everybody(cameras, pairs);
      && Carried(people) == AllSeen(cameras)
      && |people| + |pairs| == |AllSeen(cameras)|
      && |pairs| <= |people|
      && forall k :: 0 <= k < |people| ==>
           if k < |pairs| then people[k].observations == [cameras[0][pairs[k].0], cameras[1][pairs[k].1]]
           else |people[k].observations| == 1
  {
    var people := Everybody(cameras, pairs);
    ConservesMultiset(cameras, pairs);
    EverybodyShape(cameras, pairs);
    CarriedSize(people, |pairs|);
  }

  lemma OneEachConcat(a: seq<Person>, b: seq<Person>)
    requires OneEach(a) && OneEach(b)
    ensures OneEach(a + b)
  {
  }

  lemma EverybodyShape(cameras: seq<seq<Observation>>, pairs: seq<Pair>)
    requires |cameras| >= 2
    requires IndicesWithin(pairs, |cameras[0]|, |cameras[1]|)
    ensures var people := Everybody(cameras, pairs);
      && |pairs| <= |people|
      && forall k :: 0 <= k < |people| ==>
           if k < |pairs| then people[k].observations == [cameras[0][pairs[k].0], cameras[1][pairs[k].1]]
           else |people[k].observations| == 1
  {
    var left, right := cameras[0], cameras[1];
    var fused: seq<Person> := FusePairs(left, right, pairs);
    var alone := Unpaired(left, Lefts(pairs), |left|);
    var others := Unpaired(right, Rights(pairs), |right|);
    var extra := Singletons(cameras[2..]);
    UnpairedOneEach(left, Lefts(pairs), |left|);
    UnpairedOneEach(right, Rights(pairs), |right|);
    SingletonsOneEach(cameras[2..]);
    OneEachConcat(alone, others);
    OneEachConcat(alone + others, extra);
    var rest: seq<Person> := alone + others + extra;
    assert Everybody(cameras, pairs) == fused + rest;
    forall k | 0 <= k < |fused + rest|
      ensures if k < |pairs| then (fused + rest)[k].observations == [left[pairs[k].0], right[pairs[k].1]]
              else |(fused + rest)[k].observations| == 1
    {
      if k >= |pairs| {
        assert (fused + rest)[k] == rest[k - |pairs|];
      }
    }
  }

  lemma ConservesMultiset(cameras: seq<seq<Observation>>, pairs: seq<Pair>)
    requires |cameras| >= 2
    requires IndicesWithin(pairs, |cameras[0]|, |cameras[1]|) && OneToOne(pairs)
    ensures Carried(Everybody(cameras, pairs)) == AllSeen(cameras)
  {
    var left, right := cameras[0], cameras[1];
    var fused: seq<Person> := FusePairs(left, right, pairs);
    var alone := Unpaired(left, Lefts(pairs), |left|);
    var others := Unpaired(right, Rights(pairs), |right|);
    var extra := Singletons(cameras[2..]);
    FusedCarry(left, right, pairs);
    UnpairedCarries(left, Lefts(pairs), |left|);
    UnpairedCarries(right, Rights(pairs), |right|);
    SingletonsCarry(cameras[2..]);
    CarriedConcat(fused, alone);
    CarriedConcat(fused + alone, others);
    CarriedConcat(fused + alone + others, extra);
    AllSeenFromTwo(cameras);
  }

  /** The sightings with a usable time, as observations, counted with multiplicity. */
  ghost function Usable(sightings: seq<Sighting>): multiset<Observation> {
    if sightings == [] then multiset{}
    else if sightings[0].time.None? then Usable(sightings[1..])
    else
      var seen, time := sightings[0].seen, sightings[0].time.value;
      multiset{if seen.point.Some? then seen.(capturedAt := time)
               else seen.(capturedAt := time, quality := NoQuality)} + Usable(sightings[1..])
  }

  ghost function AllUsable(cameras: seq<seq<Sighting>>): multiset<Observation> {
    if cameras == [] then multiset{} else AllUsable(cameras[..|cameras| - 1]) + Usable(cameras[|cameras| - 1])
  }

  lemma {:induction false} UsableAppend(front: seq<Sighting>, last: Sighting)
    ensures Usable(front + [last]) == Usable(front) + (if last.time.Some? then multiset{Tidy(last)} else multiset{})
  {
    if front == [] {
      assert Usable([]) == multiset{};
      assert ([last])[1..] == [];
    } else {
      UsableAppend(front[1..], last);
      assert (front + [last])[1..] == front[1..] + [last];
    }
  }

  lemma {:induction false} NormalizeKeeps(sightings: seq<Sighting>)
    ensures multiset(Normalize(sightings)) == Usable(sightings)
  {
    if sightings != [] {
      var front, last := sightings[..|sightings| - 1], sightings[|sightings| - 1];
      NormalizeKeeps(front);
      UsableAppend(front, last);
      assert sightings == front + [last];
    }
  }

  lemma {:induction false} AllNormalized(cameras: seq<seq<Sighting>>)
    ensures AllSeen(NormalizeAll(cameras)) == AllUsable(cameras)
  {
    if cameras != [] {
      var front, last := cameras[..|cameras| - 1], cameras[|cameras| - 1];
      AllNormalized(front);
      NormalizeKeeps(last);
      assert NormalizeAll(cameras)[..|cameras| - 1] == NormalizeAll(front);
    }
  }

  /**
   Fusion conserves people. Every sighting of the cycle with a usable time,
   counted with multiplicity, is carried by exactly one fused person; the first
   people are the fused pairs, each one observation of the first camera with
   one of the second, and everybody else carries a single observation.
   */
  lemma FusionConservesPeople(cfg: Config, memory: Memory, sightings: seq<seq<Sighting>>)
    ensures var cameras := NormalizeAll(sightings);
      var cycle := FuseCycle(cfg, memory, cameras);
      && Carried(cycle.people) == AllUsable(sightings)
      && |cycle.people| + |cycle.pairs| == |AllUsable(sightings)|
      && |cycle.pairs| <= |cycle.people|
      && (cycle.pairs != [] ==> |cameras| >= 2 && IndicesWithin(cycle.pairs, |cameras[0]|, |cameras[1]|))
      && forall k :: 0 <= k < |cycle.people| ==>
           if k < |cycle.pairs|
           then cycle.people[k].observations == [cameras[0][cycle.pairs[k].0], cameras[1][cycle.pairs[k].1]]
           else |cycle.people[k].observations| == 1
  {
    CycleConserves(cfg, memory, NormalizeAll(sightings));
    AllNormalized(sightings);
  }

  // --- Appearance is a veto ------------------------------------------------

  /** While a temporary group still analyses a person no master is assigned. */
  ghost predicate GroupsHaveNoMaster(observations: seq<Observation>) {
    forall k :: 0 <= k < |observations| ==> observations[k].group.Some? ==> observations[k].identity.None?
  }

  /**
   With appearance required, both sides of every fused pair carry the same
   master or the same temporary group; if groups exclude masters, no two
   different masters are ever fused, and the person keeps the one master.
   */
  lemma FusedPairsAgree(cfg: Config, memory: Memory, cameras: seq<seq<Observation>>, k: nat)
    requires |cameras| >= 2
    requires k < |FuseCycle(cfg, memory, cameras).pairs|
    ensures var cycle := FuseCycle(cfg, memory, cameras);
      var p := cycle.pairs[k];
      && p.0 < |cameras[0]| && p.1 < |cameras[1]| && k < |cycle.people|
      && Admissible(cfg, cameras[0][p.0], cameras[1][p.1])
      && (cfg.requireReid ==>
            SameMaster(cameras[0][p.0], cameras[1][p.1]) || SameGroup(cameras[0][p.0], cameras[1][p.1]))
      && (cfg.requireReid && GroupsHaveNoMaster(cameras[0]) && GroupsHaveNoMaster(cameras[1]) ==>
            && cameras[0][p.0].identity == cameras[1][p.1].identity
            && cycle.people[k].identity == cameras[0][p.0].identity)
  {
    var left, right := cameras[0], cameras[1];
    var cycle := FuseCycle(cfg, memory, cameras);
    SurveyBest(cfg, memory, left, right);
    assert Cleared(cfg, left, right, cycle.pairs[k]);
    assert cycle.people[k] == Fuse(left[cycle.pairs[k].0], right[cycle.pairs[k].1]);
  }

  /**
   With at most 18 people on the smaller side, no other one-to-one choice
   among the admitted candidates fuses more pairs, or as many at less cost.
   */
  lemma FusesAsManyAsPossible(cfg: Config, memory: Memory, cameras: seq<seq<Observation>>, ps: seq<Pair>)
    requires |cameras| >= 2 && (|cameras[0]| <= 18 || |cameras[1]| <= 18)
    requires Matching(ps, CostsOf(SurveyRows(cfg, memory, cameras[0], cameras[1], |cameras[0]|).entries))
    ensures var costs := CostsOf(SurveyRows(cfg, memory, cameras[0], cameras[1], |cameras[0]|).entries);
      var pairs := FuseCycle(cfg, memory, cameras).pairs;
      Matching(pairs, costs) && AtLeastAsGood(pairs, ps, costs)
  {
    SurveyBest(cfg, memory, cameras[0], cameras[1]);
    BestPairsOptimal(|cameras[0]|, |cameras[1]|,
                     SurveyRows(cfg, memory, cameras[0], cameras[1], |cameras[0]|).entries, ps);
  }

  /**
   A candidate with no geometry costs more than every candidate with
   geometry, as soon as the fusion distance exceeds a fiftieth of a millimetre.
   */
  lemma BlindCandidatesCostMost(
    cfg: Config, first: Memory, second: Memory, l: Observation, r: Observation, l': Observation, r': Observation)
    requires cfg.maxDistance > 0.002
    requires l.point.Some? && r.point.Some? && (l'.point.None? || r'.point.None?)
    requires Judge(cfg, first, l, r).cost.Some? && Judge(cfg, second, l', r').cost.Some?
    ensures Judge(cfg, first, l, r).cost.value < Judge(cfg, second, l', r').cost.value
  {
    var span := Max(cfg.maxSkew, 0.000000001);
    SkewShare(Skew(l, r), span);
  }

  lemma SkewShare(skew: real, span: real)
    requires span > 0.0 && skew <= 2.0 * span
    ensures skew / span <= 2.0
  {
    var share := skew / span;
    assert share * span == skew;
    if share > 2.0 {
      MoreThanTwice(share, span);
    }
  }

  lemma MoreThanTwice(share: real, span: real)
    requires share > 2.0 && span > 0.0
    ensures share * span > 2.0 * span
  {
    assert (share - 2.0) * span > 0.0;
  }

  /** The distance along a line. */
  function Along(a: Point, b: Point): real { Abs(a.0 - b.0) }

  /** And only then: for any smaller distance there is a camera pair in which geometry costs at least as much. */
  lemma BlindCandidateMayCostLess(maxDistance: real) returns (cfg: Config, memory: Memory, frame: seq<Observation>)
    requires 0.0 <= maxDistance <= 0.002
    ensures cfg.maxDistance == maxDistance && |frame| == 4
    ensures frame[0].point.Some? && frame[1].point.Some? && frame[2].point.None? && frame[3].point.None?
    ensures var seen, blind := Judge(cfg, memory, frame[0], frame[1]), Judge(cfg, memory, frame[2], frame[3]);
      seen.cost.Some? && blind.cost.Some? && blind.cost.value <= seen.cost.value
  {
    var apart := maxDistance * TOLERANCE_FACTOR;
    cfg := Config(maxDistance, 1.0, false, Along);
    var l := Observation("a", Some(1), Some(7), None, None, true, true, Soft, Some((0.0, 0.0)), 2.0);
    var r := l.(camera := "b", point := Some((apart, 0.0)), capturedAt := 0.0);
    var l', r' := l.(point := None, capturedAt := 0.0), r.(point := None);
    memory, frame := map[Master(7) := Entry(2, 0, 0)], [l, r, l', r'];
    assert Skew(l, r) == 2.0 && Skew(l', r') == 0.0;
    assert KeyOf(l, r) == Master(7) && PreviouslyFused(memory, l, r);
    assert Judge(cfg, memory, l', r').cost == Some(3.5 * maxDistance);
    assert cfg.dist(l.point.value, r.point.value) == Along((0.0, 0.0), (apart, 0.0)) == apart;
    assert Gate(cfg, true, l, r, apart) == Some(apart + 0.002);
  }

  // --- The pair memory over whole runs -------------------------------------

  type Frame = seq<seq<Observation>>

  ghost function RunMemory(cfg: Config, frames: seq<Frame>): Memory {
    if frames == [] then map[]
    else FuseCycle(cfg, RunMemory(cfg, frames[..|frames| - 1]), frames[|frames| - 1]).memory
  }

  /** Two-camera cycles since both cameras last showed the pairing. */
  ghost function Unseen(frames: seq<Frame>, key: PairKey): nat {
    if frames == [] then 0
    else
      var before := Unseen(frames[..|frames| - 1], key);
      var frame := frames[|frames| - 1];
      if |frame| < 2 then before
      else if key in SeenKeys(frame[0], frame[1]) then 0
      else before + 1
  }

  ghost predicate CreditBounded(memory: Memory) {
    forall key :: key in memory ==> memory[key].fused <= 2 * PAIR_FRAMES
  }

  /** Only keys in `touched` differ from `before`. */
  ghost predicate OnlyTouches(before: Memory, after: Memory, touched: set<PairKey>) {
    && (forall key :: key in before && key !in touched ==> key in after && after[key] == before[key])
    && (forall key :: key in after && key !in touched ==> key in before)
  }

  lemma {:induction false} SurveyRowMemory(
    cfg: Config, s: Survey, i: nat, l: Observation, right: seq<Observation>, j: nat)
    requires j <= |right| && CreditBounded(s.memory)
    ensures var after := SurveyRow(cfg, s, i, l, right, j);
      CreditBounded(after.memory) && s.seen <= after.seen && OnlyTouches(s.memory, after.memory, after.seen)
  {
    if j > 0 {
      SurveyRowMemory(cfg, s, i, l, right, j - 1);
    }
  }

  lemma {:induction false} SurveyRowsMemory(
    cfg: Config, memory: Memory, left: seq<Observation>, right: seq<Observation>, i: nat)
    requires i <= |left| && CreditBounded(memory)
    ensures var after := SurveyRows(cfg, memory, left, right, i);
      CreditBounded(after.memory) && OnlyTouches(memory, after.memory, after.seen)
  {
    if i > 0 {
      SurveyRowsMemory(cfg, memory, left, right, i - 1);
      SurveyRowMemory(cfg, SurveyRows(cfg, memory, left, right, i - 1), i - 1, left[i - 1], right, |right|);
    }
  }

  lemma {:induction false} CommitMemory(
    memory: Memory, left: seq<Observation>, right: seq<Observation>, pairs: seq<Pair>)
    requires IndicesWithin(pairs, |left|, |right|) && CreditBounded(memory)
    ensures var commit := CommitPairs(memory, left, right, pairs);
      && CreditBounded(commit.memory)
      && OnlyTouches(memory, commit.memory, commit.fusedKeys)
      && commit.fusedKeys <= SeenKeys(left, right)
  {
    if pairs != [] {
      CommitMemory(memory, left, right, pairs[..|pairs| - 1]);
      var last := pairs[|pairs| - 1];
      assert KeyOf(left[last.0], right[last.1]) in SeenKeys(left, right);
    }
  }

  lemma AgedEntry(before: Memory, memory: Memory, seen: set<PairKey>, fused: set<PairKey>, key: PairKey)
    requires OnlyTouches(before, memory, seen) && fused <= seen && CreditBounded(memory)
    ensures var after := AgeMemory(memory, seen, fused);
      && CreditBounded(after)
      && (key in after ==>
            if key in seen then after[key].age == 0
            else key in before && after[key] == before[key].(age := before[key].age + 1) && after[key].age <= 30)
      && (key !in seen && key in before && before[key].age < 30 ==> key in after)
  {
  }

  /** One two-camera cycle: what it does to every remembered pairing. */
  lemma CycleMemory(cfg: Config, memory: Memory, frame: Frame, key: PairKey)
    requires |frame| >= 2 && CreditBounded(memory)
    ensures var after := FuseCycle(cfg, memory, frame).memory;
      && CreditBounded(after)
      && (key in after ==>
            if key in SeenKeys(frame[0], frame[1]) then after[key].age == 0
            else key in memory && after[key] == memory[key].(age := memory[key].age + 1) && after[key].age <= 30)
      && (key !in SeenKeys(frame[0], frame[1]) && key in memory && memory[key].age < 30 ==> key in after)
  {
    var left, right := frame[0], frame[1];
    var survey := SurveyRows(cfg, memory, left, right, |left|);
    var pairs := FuseCycle(cfg, memory, frame).pairs;
    SurveyBest(cfg, memory, left, right);
    SurveyRowsMemory(cfg, memory, left, right, |left|);
    SurveyRowsSeen(cfg, memory, left, right, |left|);
    assert left[..|left|] == left;
    CommitMemory(survey.memory, left, right, pairs);
    var commit := CommitPairs(survey.memory, left, right, pairs);
    OnlyTouchesBoth(memory, survey.memory, commit.memory, survey.seen, commit.fusedKeys);
    AgedEntry(memory, commit.memory, survey.seen, commit.fusedKeys, key);
  }

  lemma OnlyTouchesBoth(a: Memory, b: Memory, c: Memory, first: set<PairKey>, second: set<PairKey>)
    requires OnlyTouches(a, b, first) && OnlyTouches(b, c, second) && second <= first
    ensures OnlyTouches(a, c, first)
  {
  }

  /**
   After any run a pairing's credit is at most four frames and its age counts
   exactly the two-camera cycles since it was last seen, at most thirty.
   */
  lemma {:induction false} MemoryStaysBounded(cfg: Config, frames: seq<Frame>, key: PairKey)
    ensures CreditBounded(RunMemory(cfg, frames))
    ensures key in RunMemory(cfg, frames) ==>
      && RunMemory(cfg, frames)[key].fused <= 4
      && RunMemory(cfg, frames)[key].age == Unseen(frames, key)
      && Unseen(frames, key) <= 30
  {
    if frames != [] {
      var front, last := frames[..|frames| - 1], frames[|frames| - 1];
      MemoryStaysBounded(cfg, front, key);
      if |last| >= 2 {
        CycleMemory(cfg, RunMemory(cfg, front), last, key);
      }
    }
  }

  ghost predicate Unshown(frames: seq<Frame>, key: PairKey) {
    forall n :: 0 <= n < |frames| && |frames[n]| >= 2 ==> key !in SeenKeys(frames[n][0], frames[n][1])
  }

  /** Cycles with two cameras. */
  ghost function Paired(frames: seq<Frame>): nat {
    if frames == [] then 0 else Paired(frames[..|frames| - 1]) + (if |frames[|frames| - 1]| >= 2 then 1 else 0)
  }

  /**
   A remembered pairing that neither camera pair shows is remembered as it was
   until exactly thirty two-camera cycles have passed since it was last seen.
   */
  lemma {:induction false} UnshownIsRemembered(cfg: Config, past: seq<Frame>, frames: seq<Frame>, key: PairKey)
    requires key in RunMemory(cfg, past) && Unshown(frames, key)
    ensures var before, after := RunMemory(cfg, past)[key], RunMemory(cfg, past + frames);
      && (key in after <==> before.age + Paired(frames) <= 30)
      && (key in after ==> after[key] == before.(age := before.age + Paired(frames)))
  {
    MemoryStaysBounded(cfg, past, key);
    if frames == [] {
      assert past + frames == past;
    } else {
      var front, last := frames[..|frames| - 1], frames[|frames| - 1];
      UnshownIsRemembered(cfg, past, front, key);
      assert past + frames == past + front + [last];
      UnshownNext(cfg, past + front, last, key);
    }
  }

  lemma UnshownNext(cfg: Config, frames: seq<Frame>, last: Frame, key: PairKey)
    requires |last| >= 2 ==> key !in SeenKeys(last[0], last[1])
    ensures var before, after := RunMemory(cfg, frames), RunMemory(cfg, frames + [last]);
      if |last| < 2 then after == before
      else
        && (key in after <==> key in before && before[key].age < 30)
        && (key in after ==> after[key] == before[key].(age := before[key].age + 1))
  {
    assert (frames + [last])[..|frames|] == frames;
    if |last| >= 2 {
      MemoryStaysBounded(cfg, frames, key);
      CycleMemory(cfg, RunMemory(cfg, frames), last, key);
    }
  }

  // --- A settled pair splits once, without flicker -------------------------

  /** What a pairing is remembered under: a shared master, or else a shared group, or else the two tracks. */
  predicate KnownAs(key: PairKey, l: Observation, r: Observation) {
    var master, group := l.identity.Some? && l.identity == r.identity, l.group.Some? && l.group == r.group;
    match key
    case Master(id) => master && l.identity == Some(id)
    case Temporary(name) => !master && group && l.group == Some(name)
    case Tracks(a, x, b, y) =>
      !master && !group && l.camera == a && l.track == x && r.camera == b && r.track == y
  }

  lemma KnownAsKey(key: PairKey, l: Observation, r: Observation)
    ensures KnownAs(key, l, r) <==> KeyOf(l, r) == key
  {
  }

  predicate InDoubt(state: Option<string>) { state in {Some("provisional"), Some("challenged")} }

  /** As far as appearance goes: one group without masters, or one master, in doubt or confirmed by both cameras. */
  predicate MayBeOne(l: Observation, r: Observation) {
    || (l.identity.None? && r.identity.None? && l.group.Some? && l.group == r.group)
    || (l.identity.Some? && l.identity == r.identity
        && (InDoubt(l.state) || InDoubt(r.state) || (l.reidConfirmed && r.reidConfirmed)))
  }

  lemma MayBeOneIsAllowed(l: Observation, r: Observation)
    ensures MayBeOne(l, r) <==> IdentityAllows(l, r)
  {
  }

  function Gap(l: Observation, r: Observation): real {
    if l.capturedAt >= r.capturedAt then l.capturedAt - r.capturedAt else r.capturedAt - l.capturedAt
  }

  /** One person in each camera, known under one key, both with a measured foot. */
  ghost predicate Duel(cfg: Config, key: PairKey, frame: Frame) {
    && |frame| >= 2 && |frame[0]| == 1 && |frame[1]| == 1
    && KnownAs(key, frame[0][0], frame[1][0])
    && frame[0][0].point.Some? && frame[1][0].point.Some?
    && frame[0][0].quality == Hard && frame[1][0].quality == Hard
    && Gap(frame[0][0], frame[1][0]) <= cfg.maxSkew
    && (cfg.requireReid ==> MayBeOne(frame[0][0], frame[1][0]))
  }

  ghost function Apart(cfg: Config, frame: Frame): real
    requires |frame| >= 2 && |frame[0]| == 1 && |frame[1]| == 1
    requires frame[0][0].point.Some? && frame[1][0].point.Some?
  {
    cfg.dist(frame[0][0].point.value, frame[1][0].point.value)
  }

  /** Too far apart to fuse fresh, near enough to be tolerated. */
  ghost predicate InBand(cfg: Config, key: PairKey, frame: Frame) {
    Duel(cfg, key, frame) && cfg.maxDistance < Apart(cfg, frame) <= 2.5 * cfg.maxDistance
  }

  ghost predicate InAgreement(cfg: Config, key: PairKey, frame: Frame) {
    Duel(cfg, key, frame) && Apart(cfg, frame) <= cfg.maxDistance
  }

  lemma SingleCandidate(cost: real)
    ensures BestPairs(1, 1, [Candidate((0, 0), cost)]) == [(0, 0)]
  {
    var entries := [Candidate((0, 0), cost)];
    var costs := CostsOf(entries);
    assert entries[0].pair == (0, 0);
    CostsListed(entries, (0, 0));
    assert !HasBit(0, 0);
    var none := Scan(costs, 1, 1, 0, 0, 0);
    assert none == Best(0, 0.0, []);
    assert Take(costs, 1, 1, 0, 0, 0).pairs == [(0, 0)];
    assert Scan(costs, 1, 1, 0, 0, 1) == Take(costs, 1, 1, 0, 0, 0);
    assert Solve(costs, 1, 1, 0, 0) == Scan(costs, 1, 1, 0, 0, 1);
  }

  /** With one observation on each side the cycle does what the verdict says. */
  lemma DuelCycle(cfg: Config, memory: Memory, frame: Frame)
    requires |frame| >= 2 && |frame[0]| == 1 && |frame[1]| == 1
    ensures var verdict := Judge(cfg, memory, frame[0][0], frame[1][0]);
      var key := KeyOf(frame[0][0], frame[1][0]);
      var cycle := FuseCycle(cfg, memory, frame);
      if verdict.cost.Some?
      then cycle.pairs == [(0, 0)] && cycle.memory == AgeMemory(Credit(verdict.memory, key), {key}, {key})
      else cycle.pairs == [] && cycle.memory == AgeMemory(verdict.memory, {key}, {})
  {
    var left, right := frame[0], frame[1];
    var start := Survey(memory, {}, []);
    var verdict := Judge(cfg, memory, left[0], right[0]);
    var survey := Consider(cfg, start, 0, left[0], 0, right[0]);
    DuelSurvey(cfg, memory, left, right);
    SurveyBest(cfg, memory, left, right);
    if verdict.cost.Some? {
      SingleCandidate(verdict.cost.value);
      DuelCommit(survey.memory, left, right);
    }
  }

  lemma DuelSurvey(cfg: Config, memory: Memory, left: seq<Observation>, right: seq<Observation>)
    requires |left| == 1 && |right| == 1
    ensures var verdict := Judge(cfg, memory, left[0], right[0]);
      SurveyRows(cfg, memory, left, right, 1)
      == Survey(verdict.memory, {KeyOf(left[0], right[0])},
                if verdict.cost.Some? then [Candidate((0, 0), verdict.cost.value)] else [])
  {
    var start := Survey(memory, {}, []);
    assert SurveyRows(cfg, memory, left, right, 0) == start;
    assert SurveyRow(cfg, start, 0, left[0], right, 0) == start;
    assert SurveyRow(cfg, start, 0, left[0], right, 1) == Consider(cfg, start, 0, left[0], 0, right[0]);
  }

  lemma DuelCommit(memory: Memory, left: seq<Observation>, right: seq<Observation>)
    requires |left| == 1 && |right| == 1
    ensures var key := KeyOf(left[0], right[0]);
      CommitPairs(memory, left, right, [(0, 0)])
      == Commit(Credit(memory, key), {key})
  {
    assert [(0, 0)][..0] == [];
    assert CommitPairs(memory, left, right, [(0, 0)][..0]) == Commit(memory, {});
  }

  ghost function MemoryAfter(cfg: Config, memory: Memory, frames: seq<Frame>): Memory {
    if frames == [] then memory
    else FuseCycle(cfg, MemoryAfter(cfg, memory, frames[..|frames| - 1]), frames[|frames| - 1]).memory
  }

  /** Whether the pair is drawn as one person in frame `n` of a run from `memory`. */
  ghost predicate FusesAt(cfg: Config, memory: Memory, frames: seq<Frame>, n: nat)
    requires n < |frames|
  {
    FuseCycle(cfg, MemoryAfter(cfg, memory, frames[..n]), frames[n]).pairs != []
  }

  ghost predicate Settled(memory: Memory, key: PairKey) {
    key in memory && memory[key].fused >= 2 && memory[key].violations == 0
  }

  /** Where the count stands after `n` frames in the band. */
  ghost predicate Counting(memory: Memory, key: PairKey, n: nat) {
    && key in memory
    && (n < SPLIT_FRAMES ==> memory[key].violations == n && memory[key].fused >= PAIR_FRAMES)
    && (n >= SPLIT_FRAMES ==> memory[key].violations >= SPLIT_FRAMES - 1)
  }

  /** What a pair passes and what its memory keeps, when it is seen in range. */
  lemma RangeVerdict(cfg: Config, memory: Memory, key: PairKey, frame: Frame)
    requires InAgreement(cfg, key, frame)
    ensures var l, r := frame[0][0], frame[1][0];
      var verdict := Judge(cfg, memory, l, r);
      && KeyOf(l, r) == key && verdict.cost.Some?
      && Recall(verdict.memory, key) == Recall(memory, key).(violations := 0)
  {
    KnownAsKey(key, frame[0][0], frame[1][0]);
    MayBeOneIsAllowed(frame[0][0], frame[1][0]);
  }

  lemma BandVerdict(cfg: Config, memory: Memory, key: PairKey, frame: Frame)
    requires InBand(cfg, key, frame) && key in memory && memory[key].fused >= PAIR_FRAMES
    ensures var l, r := frame[0][0], frame[1][0];
      var verdict, violations := Judge(cfg, memory, l, r), memory[key].violations + 1;
      && KeyOf(l, r) == key && (verdict.cost.Some? <==> violations < SPLIT_FRAMES)
      && verdict.memory == memory[key := memory[key].(violations := violations)]
  {
    KnownAsKey(key, frame[0][0], frame[1][0]);
    MayBeOneIsAllowed(frame[0][0], frame[1][0]);
  }

  /** The memory of a key after a cycle that showed it once. */
  lemma ShownOnce(memory: Memory, key: PairKey)
    ensures var entry, after := Recall(memory, key), AgeMemory(Credit(memory, key), {key}, {key});
      key in after && after[key].violations == entry.violations && after[key].age == 0
      && after[key].fused == if entry.fused < 4 then entry.fused + 1 else 4
  {
  }

  lemma BandStep(cfg: Config, memory: Memory, key: PairKey, frame: Frame, n: nat)
    requires Counting(memory, key, n) && InBand(cfg, key, frame)
    ensures Counting(FuseCycle(cfg, memory, frame).memory, key, n + 1)
    ensures FuseCycle(cfg, memory, frame).pairs != [] <==> n + 1 < SPLIT_FRAMES
  {
    DuelCycle(cfg, memory, frame);
    if memory[key].fused >= PAIR_FRAMES {
      BandVerdict(cfg, memory, key, frame);
      ShownOnce(memory[key := memory[key].(violations := memory[key].violations + 1)], key);
    } else {
      KnownAsKey(key, frame[0][0], frame[1][0]);
    }
  }

  lemma {:induction false} BandRun(cfg: Config, memory: Memory, key: PairKey, frames: seq<Frame>)
    requires Settled(memory, key)
    requires forall n :: 0 <= n < |frames| ==> InBand(cfg, key, frames[n])
    ensures Counting(MemoryAfter(cfg, memory, frames), key, |frames|)
  {
    if frames != [] {
      BandRun(cfg, memory, key, frames[..|frames| - 1]);
      BandStep(cfg, MemoryAfter(cfg, memory, frames[..|frames| - 1]), key,
               frames[|frames| - 1], |frames| - 1);
    }
  }

  /**
   A settled pair whose distance stays in the tolerance band is drawn as one
   person for exactly the first five frames and as two from then on.
   */
  lemma SplitWithoutFlicker(cfg: Config, memory: Memory, key: PairKey, frames: seq<Frame>, n: nat)
    requires Settled(memory, key)
    requires forall m :: 0 <= m < |frames| ==> InBand(cfg, key, frames[m])
    requires n < |frames|
    ensures FusesAt(cfg, memory, frames, n) <==> n < 5
  {
    BandRun(cfg, memory, key, frames[..n]);
    BandStep(cfg, MemoryAfter(cfg, memory, frames[..n]), key, frames[n], n);
  }

  /** One frame in agreement fuses the pair again and forgets every violation. */
  lemma AgreementFuses(cfg: Config, memory: Memory, key: PairKey, frame: Frame)
    requires InAgreement(cfg, key, frame)
    ensures FuseCycle(cfg, memory, frame).pairs == [(0, 0)]
    ensures var after := FuseCycle(cfg, memory, frame).memory;
      key in after && after[key].violations == 0
      && after[key].fused == if Recall(memory, key).fused < 4 then Recall(memory, key).fused + 1 else 4
  {
    DuelCycle(cfg, memory, frame);
    RangeVerdict(cfg, memory, key, frame);
    ShownOnce(Judge(cfg, memory, frame[0][0], frame[1][0]).memory, key);
  }

  /** Two such frames settle a pair, so the patience above is earned anew. */
  lemma AgreementSettles(cfg: Config, memory: Memory, key: PairKey, first: Frame, second: Frame)
    requires InAgreement(cfg, key, first) && InAgreement(cfg, key, second)
    ensures Settled(FuseCycle(cfg, FuseCycle(cfg, memory, first).memory, second).memory, key)
  {
    AgreementFuses(cfg, memory, key, first);
    AgreementFuses(cfg, FuseCycle(cfg, memory, first).memory, key, second);
  }
}
