/** Where each person of a fusion cycle is drawn and what it is said to be, told from what the cameras saw. */
module FusedPeople {
  import opened CameraFusion
  import opened FusionProperties
  import opened Observations
  import opened OneToOnePairing
  import opened Options

  /** The better seen of two points, or the only one; halfway between two seen equally well. */
  predicate DrawnBetween(center: Option<Point>, a: Observation, b: Observation) {
    if a.point.None? then center == b.point
    else if b.point.None? then center == a.point
    else
      var p, q := a.point.value, b.point.value;
      && (BetterSeen(a.quality, b.quality) ==> center == Some(p))
      && (BetterSeen(b.quality, a.quality) ==> center == Some(q))
      && (a.quality == b.quality ==> center == Some(((p.0 + q.0) / 2.0, (p.1 + q.1) / 2.0)))
  }

  /** The value is claimed by one of the two and not disputed by the other. */
  predicate Undisputed<T(==)>(claim: Option<T>, a: Option<T>, b: Option<T>) {
    && (claim.Some? ==> claim in {a, b} && {a, b} <= {claim, None})
    && (claim.None? ==> (a.None? && b.None?) || (a.Some? && b.Some? && a != b))
  }

  predicate StateOfTwo(person: Person, a: Observation, b: Observation) {
    if person.group.Some? then person.state == Some("analyzing")
    else if Some("challenged") in {a.state, b.state} then person.state == Some("challenged")
    else if Some("provisional") in {a.state, b.state} then person.state == Some("provisional")
    else person.state == if a.state == b.state then a.state else None
  }

  function Place(o: Observation): seq<Point> { if o.point.Some? then [o.point.value] else [] }

  predicate ShowsTwo(person: Person, a: Observation, b: Observation) {
    && person.observations == [a, b] && person.sources == [a.camera, b.camera] && person.suppressed == []
    && person.points == Place(a) + Place(b)
    && DrawnBetween(person.center, a, b)
    && Undisputed(person.identity, a.identity, b.identity) && Undisputed(person.group, a.group, b.group)
    && StateOfTwo(person, a, b)
  }

  predicate ShowsOne(person: Person) {
    && |person.observations| == 1
    && var o := person.observations[0];
       && person.center == o.point && person.points == Place(o)
       && person.sources == [o.camera] && person.suppressed == []
       && person.identity == o.identity && person.group == o.group && person.state == o.state
  }

  ghost predicate ShowEach(people: seq<Person>) {
    forall k :: 0 <= k < |people| ==> ShowsOne(people[k])
  }

  lemma BestOfTwo(a: Observation, b: Observation)
    requires a.point.Some? && b.point.Some?
    ensures Authoritative([a, b]) ==
      if BetterSeen(a.quality, b.quality) then [a] else if BetterSeen(b.quality, a.quality) then [b] else [a, b]
  {
    var both, one := [a, b], [b];
    var best := BestRank(both);
    assert both[1..] == one && one[1..] == [];
    assert Positioned(one) == [b] + Positioned([]) == one;
    assert Positioned(both) == [a] + Positioned(one) == both;
    assert BestRank(one) == Rank(b.quality);
    assert OfRank(one, best) == (if Rank(b.quality) == best then [b] else []) + OfRank([], best);
    assert OfRank(both, best) == (if Rank(a.quality) == best then [a] else []) + OfRank(one, best);
  }

  lemma BestOfOne(a: Observation, b: Observation)
    requires a.point.None? || b.point.None?
    ensures Authoritative([a, b]) == if a.point.Some? then [a] else if b.point.Some? then [b] else []
  {
    var both, one := [a, b], [b];
    assert both[1..] == one && one[1..] == [];
    assert [a][1..] == [];
    var positioned := Positioned(both);
    assert Positioned(one) == if b.point.Some? then one + [] else [] + [];
    assert positioned == if a.point.Some? then [a] + [] else [] + Positioned(one);
    assert |positioned| <= 1;
    if positioned != [] {
      assert positioned[1..] == [];
      assert BestRank(positioned) == Rank(positioned[0].quality);
      assert OfRank(positioned, BestRank(positioned)) == [positioned[0]] + [];
    }
  }

  lemma MeanOfOne(o: Observation)
    requires o.point.Some?
    ensures AllPositioned([o]) && Mean([o]) == o.point.value
  {
    assert [o][..0] == [];
    assert PointSum([o], false) == AddScaled((0.0, 0.0), 1.0, o.point.value);
  }

  lemma MeanOfTwo(a: Observation, b: Observation)
    requires a.point.Some? && b.point.Some?
    ensures AllPositioned([a, b])
    ensures var p, q := a.point.value, b.point.value; Mean([a, b]) == ((p.0 + q.0) / 2.0, (p.1 + q.1) / 2.0)
  {
    assert [a, b][..1] == [a] && [a][..0] == [];
    assert PointSum([a], false) == AddScaled((0.0, 0.0), 1.0, a.point.value);
    assert PointSum([a, b], false) == AddScaled(PointSum([a], false), 1.0, b.point.value);
  }

  lemma CenterBetween(a: Observation, b: Observation)
    ensures DrawnBetween(Center([a, b]), a, b)
  {
    CenterIsMeanOfBest([a, b]);
    if a.point.Some? && b.point.Some? {
      BestOfTwo(a, b);
      MeanOfTwo(a, b);
    } else {
      BestOfOne(a, b);
    }
    if a.point.Some? {
      MeanOfOne(a);
    }
    if b.point.Some? {
      MeanOfOne(b);
    }
  }

  lemma FusedShowsTwo(a: Observation, b: Observation)
    ensures ShowsTwo(Fuse(a, b), a, b)
  {
    CenterBetween(a, b);
    assert [a, b][1..] == [b] && [b][1..] == [];
    assert PointsOf([b]) == (if b.point.Some? then [b.point.value] else []) + PointsOf([]);
  }

  lemma SingletonShowsOne(o: Observation)
    ensures ShowsOne(Singleton(o))
  {
    var one := [o];
    assert one[1..] == [];
    assert PointsOf(one) == (if o.point.Some? then [o.point.value] else []) + PointsOf([]);
  }

  lemma {:induction false} UnpairedShow(observations: seq<Observation>, used: set<nat>, n: nat)
    requires n <= |observations|
    ensures ShowEach(Unpaired(observations, used, n))
  {
    if n > 0 {
      UnpairedShow(observations, used, n - 1);
      SingletonShowsOne(observations[n - 1]);
    }
  }

  lemma {:induction false} SingletonsShow(cameras: seq<seq<Observation>>)
    ensures ShowEach(Singletons(cameras))
  {
    if cameras != [] {
      SingletonsShow(cameras[..|cameras| - 1]);
      UnpairedShow(cameras[|cameras| - 1], {}, |cameras[|cameras| - 1]|);
    }
  }

  lemma EverybodyShows(cameras: seq<seq<Observation>>, pairs: seq<Pair>, k: nat)
    requires |cameras| >= 2 && IndicesWithin(pairs, |cameras[0]|, |cameras[1]|) && k < |Everybody(cameras, pairs)|
    ensures if k < |pairs|
            then ShowsTwo(Everybody(cameras, pairs)[k], cameras[0][pairs[k].0], cameras[1][pairs[k].1])
            else ShowsOne(Everybody(cameras, pairs)[k])
  {
    var left, right := cameras[0], cameras[1];
    UnpairedShow(left, Lefts(pairs), |left|);
    UnpairedShow(right, Rights(pairs), |right|);
    SingletonsShow(cameras[2..]);
    if k < |pairs| {
      FusedShowsTwo(left[pairs[k].0], right[pairs[k].1]);
    }
  }

  /**
   Over a whole cycle, from the sightings as they arrive: the fused pairs come
   first and are drawn where the better seen of their two points is, or halfway
   between two seen equally well, or not at all; everybody else is drawn where
   its own camera sees it. Names and groups stand when nobody disputes them.
   */
  lemma PeopleShowWhatWasSeen(cfg: Config, memory: Memory, sightings: seq<seq<Sighting>>, k: nat)
    requires k < |FuseCycle(cfg, memory, NormalizeAll(sightings)).people|
    ensures var cycle := FuseCycle(cfg, memory, NormalizeAll(sightings));
      var person := cycle.people[k];
      if k < |cycle.pairs|
      then |person.observations| == 2 && ShowsTwo(person, person.observations[0], person.observations[1])
      else ShowsOne(person)
  {
    var cameras := NormalizeAll(sightings);
    if |cameras| < 2 {
      SingletonsShow(cameras);
    } else {
      SurveyBest(cfg, memory, cameras[0], cameras[1]);
      EverybodyShows(cameras, FuseCycle(cfg, memory, cameras).pairs, k);
    }
  }
}
