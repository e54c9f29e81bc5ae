/** Observations, position grades and where a fused person is drawn. */
module Observations {
  import opened Options

  type Point = (real, real)

  /** Any grade the source does not recognise ranks and weighs like `NoQuality`. */
  datatype Quality = Hard | Soft | Stale | NoQuality

  function Rank(q: Quality): nat {
    match q
    case Hard => 3
    case Soft => 2
    case Stale => 1
    case NoQuality => 0
  }

  /** A measured foot before a guess, a guess before a stale point, anything before no grade at all. */
  predicate BetterSeen(q: Quality, r: Quality) {
    || (q.Hard? && !r.Hard?)
    || (q.Soft? && (r.Stale? || r.NoQuality?))
    || (q.Stale? && r.NoQuality?)
  }

  function Weight(q: Quality): real {
    match q
    case Hard => 1.0
    case Soft => 0.10
    case Stale => 0.02
    case NoQuality => 0.0
  }

  predicate IsSoft(q: Quality) { q != Hard }

  datatype Observation = Observation(
    camera: string,
    track: Option<int>,
    identity: Option<int>,
    group: Option<string>,
    state: Option<string>,
    reidConfirmed: bool,
    pairRecent: bool,
    quality: Quality,
    point: Option<Point>,
    capturedAt: real)

  function Abs(x: real): real { if x < 0.0 then -x else x }

  function Max(a: real, b: real): real { if a >= b then a else b }

  /** The value two optional claims share, when there is exactly one distinct claim. */
  function SoleClaim<T(==)>(a: Option<T>, b: Option<T>): Option<T> {
    if a.None? then b else if b.None? || a == b then a else None
  }

  // --- The drawn position --------------------------------------------------

  function Positioned(observations: seq<Observation>): seq<Observation> {
    if observations == [] then []
    else
      (if observations[0].point.Some? then [observations[0]] else []) + Positioned(observations[1..])
  }

  function BestRank(observations: seq<Observation>): nat {
    if observations == [] then 0
    else
      var first, rest := Rank(observations[0].quality), BestRank(observations[1..]);
      if first >= rest then first else rest
  }

  function OfRank(observations: seq<Observation>, rank: nat): seq<Observation> {
    if observations == [] then []
    else
      (if Rank(observations[0].quality) == rank then [observations[0]] else [])
      + OfRank(observations[1..], rank)
  }

  /** The positioned observations that share the best grade present. */
  function Authoritative(observations: seq<Observation>): seq<Observation> {
    var positioned := Positioned(observations);
    OfRank(positioned, BestRank(positioned))
  }

  lemma {:induction false} PositionedMembers(observations: seq<Observation>)
    ensures forall o :: o in Positioned(observations) <==> o in observations && o.point.Some?
  {
    if observations != [] {
      PositionedMembers(observations[1..]);
    }
  }

  lemma {:induction false} OfRankMembers(observations: seq<Observation>, rank: nat)
    ensures forall o :: o in OfRank(observations, rank) <==> o in observations && Rank(o.quality) == rank
  {
    if observations != [] {
      OfRankMembers(observations[1..], rank);
    }
  }

  lemma {:induction false} BestRankBounds(observations: seq<Observation>)
    ensures forall o :: o in observations ==> Rank(o.quality) <= BestRank(observations)
    ensures observations != [] ==> exists o :: o in observations && Rank(o.quality) == BestRank(observations)
  {
    if observations != [] {
      var rest := observations[1..];
      BestRankBounds(rest);
      assert observations == [observations[0]] + rest;
      if Rank(observations[0].quality) < BestRank(rest) {
        assert rest != [];
        var o :| o in rest && Rank(o.quality) == BestRank(rest);
        assert o in observations;
      } else {
        assert observations[0] in observations;
      }
    }
  }

  /** The positioned observations that no other outranks, by the numbers. */
  lemma AuthoritativeByRank(observations: seq<Observation>)
    ensures forall o :: o in Authoritative(observations) <==>
      && o in observations && o.point.Some?
      && forall p :: p in observations && p.point.Some? ==> Rank(p.quality) <= Rank(o.quality)
  {
    var positioned := Positioned(observations);
    PositionedMembers(observations);
    BestRankBounds(positioned);
    OfRankMembers(positioned, BestRank(positioned));
    forall o | o in positioned && forall p :: p in positioned ==> Rank(p.quality) <= Rank(o.quality)
      ensures o in Authoritative(observations)
    {
      var best :| best in positioned && Rank(best.quality) == BestRank(positioned);
    }
  }

  /** Only observations with a position count, and only those than which no other is better seen. */
  lemma AuthoritativeMembers(observations: seq<Observation>)
    ensures forall o :: o in Authoritative(observations) <==>
      && o in observations && o.point.Some?
      && forall p :: p in observations && p.point.Some? ==> !BetterSeen(p.quality, o.quality)
    ensures AllPositioned(Authoritative(observations))
  {
    var chosen := Authoritative(observations);
    AuthoritativeByRank(observations);
    forall q: Quality, r: Quality ensures BetterSeen(q, r) <==> Rank(q) > Rank(r) {}
    assert forall k :: 0 <= k < |chosen| ==> chosen[k] in chosen;
  }

  ghost predicate AllPositioned(observations: seq<Observation>) {
    forall k :: 0 <= k < |observations| ==> observations[k].point.Some?
  }

  function WeightSum(observations: seq<Observation>): real {
    if observations == [] then 0.0
    else WeightSum(observations[..|observations| - 1]) + Weight(observations[|observations| - 1].quality)
  }

  function AddScaled(sum: Point, w: real, p: Point): Point {
    (sum.0 + w * p.0, sum.1 + w * p.1)
  }

  /** Sum of `weight(o)` times the point of `o`; every weight is 1 when `weigh` is false. */
  function PointSum(observations: seq<Observation>, weigh: bool): Point
    requires AllPositioned(observations)
  {
    if observations == [] then (0.0, 0.0)
    else
      var front := PointSum(observations[..|observations| - 1], weigh);
      var last := observations[|observations| - 1];
      AddScaled(front, if weigh then Weight(last.quality) else 1.0, last.point.value)
  }

  function Divide(p: Point, d: real): Point
    requires d != 0.0
  {
    (p.0 / d, p.1 / d)
  }

  function Mean(observations: seq<Observation>): Point
    requires AllPositioned(observations) && observations != []
  {
    Divide(PointSum(observations, false), |observations| as real)
  }

  /** The weighted average, or the plain one when no observation weighs anything. */
  function Average(chosen: seq<Observation>): Point
    requires AllPositioned(chosen) && chosen != []
  {
    if WeightSum(chosen) > 0.0 then Divide(PointSum(chosen, true), WeightSum(chosen))
    else Mean(chosen)
  }

  function Center(observations: seq<Observation>): Option<Point> {
    AuthoritativeMembers(observations);
    var chosen := Authoritative(observations);
    if chosen == [] then None else Some(Average(chosen))
  }

  method WeightedCenter(observations: seq<Observation>) returns (center: Option<Point>)
    ensures center == Center(observations)
  {
    AuthoritativeMembers(observations);
    var chosen := Authoritative(observations);
    if chosen == [] {
      return None;
    }
    var average := AverageOf(chosen);
    center := Some(average);
  }

  method AverageOf(chosen: seq<Observation>) returns (center: Point)
    requires AllPositioned(chosen) && chosen != []
    ensures center == Average(chosen)
  {
    var weighted, plain, total := (0.0, 0.0), (0.0, 0.0), 0.0;
    for n := 0 to |chosen|
      invariant AllPositioned(chosen[..n])
      invariant weighted == PointSum(chosen[..n], true)
      invariant plain == PointSum(chosen[..n], false)
      invariant total == WeightSum(chosen[..n])
    {
      var point := chosen[n].point.value;
      ghost var next := chosen[..n + 1];
      assert next[..n] == chosen[..n] && next[n] == chosen[n];
      plain := AddScaled(plain, 1.0, point);
      assert plain == PointSum(next, false);
      var weight := Weight(chosen[n].quality);
      assert weight == 0.0 ==> AddScaled(weighted, weight, point) == weighted;
      if weight > 0.0 {
        weighted := AddScaled(weighted, weight, point);
        total := total + weight;
      }
    }
    assert chosen[..|chosen|] == chosen;
    if total > 0.0 {
      center := (weighted.0 / total, weighted.1 / total);
    } else {
      var count := |chosen| as real;
      center := (plain.0 / count, plain.1 / count);
    }
  }

  lemma {:induction false} EqualGradesSum(chosen: seq<Observation>, q: Quality)
    requires AllPositioned(chosen)
    requires forall k :: 0 <= k < |chosen| ==> chosen[k].quality == q
    ensures WeightSum(chosen) == Weight(q) * |chosen| as real
    ensures PointSum(chosen, true).0 == Weight(q) * PointSum(chosen, false).0
    ensures PointSum(chosen, true).1 == Weight(q) * PointSum(chosen, false).1
  {
    if chosen != [] {
      EqualGradesSum(chosen[..|chosen| - 1], q);
    }
  }

  lemma CancelFactor(w: real, s: real, n: real, weighted: real, total: real)
    requires w > 0.0 && n > 0.0 && weighted == w * s && total == w * n
    ensures total > 0.0 && weighted / total == s / n
  {
    var q := s / n;
    assert q * n == s;
    assert q * total == w * (q * n);
    assert q * total == weighted;
  }

  lemma CancelWeight(w: real, p: Point, n: real, weighted: Point, total: real)
    requires w > 0.0 && n > 0.0
    requires weighted.0 == w * p.0 && weighted.1 == w * p.1 && total == w * n
    ensures total > 0.0 && Divide(weighted, total) == Divide(p, n)
  {
    CancelFactor(w, p.0, n, weighted.0, total);
    CancelFactor(w, p.1, n, weighted.1, total);
  }

  lemma AverageOfEqualGrades(chosen: seq<Observation>, q: Quality)
    requires AllPositioned(chosen) && chosen != []
    requires forall k :: 0 <= k < |chosen| ==> chosen[k].quality == q
    ensures Average(chosen) == Mean(chosen)
  {
    EqualGradesSum(chosen, q);
    if Weight(q) > 0.0 {
      CancelWeight(Weight(q), PointSum(chosen, false), |chosen| as real, PointSum(chosen, true), WeightSum(chosen));
    } else {
      assert Weight(q) == 0.0;
    }
  }

  /**
   The fusion weights never decide a position: the observations that are
   averaged share one grade, so the drawn point is their plain mean, and an
   observation of a lower grade than another has no say in it at all.
   */
  lemma CenterIsMeanOfBest(observations: seq<Observation>)
    ensures AllPositioned(Authoritative(observations))
    ensures var chosen := Authoritative(observations);
      Center(observations) == if chosen == [] then None else Some(Mean(chosen))
  {
    AuthoritativeMembers(observations);
    var chosen := Authoritative(observations);
    if chosen != [] {
      var q := chosen[0].quality;
      forall k | 0 <= k < |chosen| ensures chosen[k].quality == q {
        assert chosen[k] in chosen && chosen[0] in chosen;
        assert Rank(chosen[k].quality) <= Rank(q) <= Rank(chosen[k].quality);
      }
      AverageOfEqualGrades(chosen, q);
      assert Center(observations) == Some(Average(chosen));
      assert Center(observations) == Some(Mean(chosen));
    }
  }

  // --- Fused people --------------------------------------------------------

  datatype Suppressed = Suppressed(
    camera: Option<string>,
    track: Option<int>,
    identity: Option<int>,
    state: Option<string>,
    quality: Quality,
    center: Option<Point>,
    reason: string)

  datatype Person = Person(
    center: Option<Point>,
    points: seq<Point>,
    sources: seq<string>,
    observations: seq<Observation>,
    identity: Option<int>,
    group: Option<string>,
    state: Option<string>,
    suppressed: seq<Suppressed>)

  function PointsOf(observations: seq<Observation>): seq<Point> {
    if observations == [] then []
    else
      (if observations[0].point.Some? then [observations[0].point.value] else [])
      + PointsOf(observations[1..])
  }

  function Singleton(o: Observation): Person {
    Person(o.point, PointsOf([o]), [o.camera], [o], o.identity, o.group, o.state, [])
  }

  /** The grade the map shows for a person: the best any positioned observation has. */
  function DisplayRank(person: Person): nat {
    BestRank(Positioned(person.observations))
  }
}
