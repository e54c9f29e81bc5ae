/** What becomes of every pair of an update, told from what the two cameras reported of it. */
module ProvisionalOutcomes {
  import opened Observations
  import opened OneToOnePairing
  import opened Options
  import opened ProvisionalPairs
  import opened ProvisionalProperties

  // --- The gates -----------------------------------------------------------

  /** The two tracks carry different identities and that cannot be undone. */
  predicate Different(input: Input, at: Pair)
    requires InInput(input, at)
  {
    var a, b := input.answers.leftIdentity(at.0), input.answers.rightIdentity(at.0, at.1);
    a.Some? && b.Some? && a != b && !input.answers.recoverable(at.0, at.1)
  }

  /** Taken no further apart than the limit. */
  predicate Together(p: Params, input: Input, at: Pair)
    requires InInput(input, at)
  {
    var a, b := input.left[at.0].capturedAt, input.right[at.1].capturedAt;
    a - p.maxSkew <= b <= a + p.maxSkew
  }

  function Apart(p: Params, input: Input, at: Pair): real
    requires InInput(input, at)
  {
    p.dist(input.left[at.0].point, input.right[at.1].point)
  }

  predicate Clears(p: Params, input: Input, at: Pair)
    requires InInput(input, at)
  {
    !Different(input, at) && Together(p, input, at) && Apart(p, input, at) <= p.maxDistance
  }

  /** Another pair of one of the two people clears the gates too and is less than a margin further apart. */
  predicate DisputedBy(p: Params, input: Input, at: Pair, other: Pair)
    requires InInput(input, at)
  {
    && InInput(input, other) && Clears(p, input, other) && ((other.0 == at.0) != (other.1 == at.1))
    && Apart(p, input, other) < Apart(p, input, at) + p.margin
  }

  ghost predicate Disputed(p: Params, input: Input, at: Pair)
    requires InInput(input, at)
  {
    exists other: Pair :: DisputedBy(p, input, at, other)
  }

  lemma ScreenExactly(p: Params, input: Input, at: Pair)
    requires InInput(input, at)
    ensures Screen(p, input, at.0, at.1) ==
      if Different(input, at) then Reject(DifferentMaster)
      else if !Together(p, input, at) then Reject(TimeSkew)
      else if !Clears(p, input, at) then Reject(TooFar)
      else ProvisionalPairs.Consider(Apart(p, input, at))
  {
  }

  // --- The candidates ------------------------------------------------------

  function CandidatesOf(p: Params, input: Input): seq<Candidate>
    requires input.Cameras?
  {
    ScanRows(p, input, |input.left|).entries
  }

  lemma CandidateClears(p: Params, input: Input, n: nat)
    requires input.Cameras? && n < |CandidatesOf(p, input)|
    ensures var c := CandidatesOf(p, input)[n];
      InInput(input, c.pair) && Clears(p, input, c.pair) && c.cost == Apart(p, input, c.pair)
  {
    var scan := ScanRows(p, input, |input.left|);
    ScanRowsOk(p, input, |input.left|);
    assert InInput(input, scan.entries[n].pair);
    ScreenExactly(p, input, scan.entries[n].pair);
  }

  /** The candidates of an update are exactly the pairs that clear the gates, each at its distance. */
  lemma CandidatesExactly(p: Params, input: Input, c: Candidate)
    requires input.Cameras?
    ensures c in CandidatesOf(p, input) <==>
      InInput(input, c.pair) && Clears(p, input, c.pair) && c.cost == Apart(p, input, c.pair)
  {
    var scan := ScanRows(p, input, |input.left|);
    if c in scan.entries {
      var n :| 0 <= n < |scan.entries| && scan.entries[n] == c;
      CandidateClears(p, input, n);
    }
    if InInput(input, c.pair) && Clears(p, input, c.pair) && c.cost == Apart(p, input, c.pair) {
      ScanRowsOk(p, input, |input.left|);
      ScanRowsCover(p, input, |input.left|, c.pair);
      ScreenExactly(p, input, c.pair);
      var n :| 0 <= n < |scan.entries| && scan.entries[n].pair == c.pair;
      CandidateClears(p, input, n);
    }
  }

  lemma RivalExactly(p: Params, input: Input, at: Pair)
    requires InInput(input, at)
    ensures HasRival(p, CandidatesOf(p, input), Candidate(at, Apart(p, input, at))) <==> Disputed(p, input, at)
  {
    var entries, apart := CandidatesOf(p, input), Apart(p, input, at);
    if HasRival(p, entries, Candidate(at, apart)) {
      var k :| 0 <= k < |entries| && SharesOneEnd(entries[k].pair, at) && entries[k].cost - apart < p.margin;
      CandidateClears(p, input, k);
      assert DisputedBy(p, input, at, entries[k].pair);
    }
    if Disputed(p, input, at) {
      var other: Pair :| DisputedBy(p, input, at, other);
      var c := Candidate(other, Apart(p, input, other));
      CandidatesExactly(p, input, c);
      var k :| 0 <= k < |entries| && entries[k] == c;
      assert SharesOneEnd(entries[k].pair, at);
    }
  }

  // --- The best pairing ----------------------------------------------------

  ghost predicate Eligible(p: Params, input: Input, pairs: seq<Pair>) {
    OneToOne(pairs) && forall k :: 0 <= k < |pairs| ==> InInput(input, pairs[k]) && Clears(p, input, pairs[k])
  }

  ghost function TotalApart(p: Params, input: Input, pairs: seq<Pair>): real
    requires forall k :: 0 <= k < |pairs| ==> InInput(input, pairs[k])
  {
    if pairs == [] then 0.0 else Apart(p, input, pairs[0]) + TotalApart(p, input, pairs[1..])
  }

  function Best(p: Params, input: Input): seq<Pair>
    requires input.Cameras?
  {
    BestPairs(|input.left|, |input.right|, CandidatesOf(p, input))
  }

  lemma CostExactly(p: Params, input: Input, at: Pair)
    requires input.Cameras?
    ensures var costs := CostsOf(CandidatesOf(p, input));
      && (at in costs <==> InInput(input, at) && Clears(p, input, at))
      && (at in costs ==> costs[at] == Apart(p, input, at))
  {
    var entries := CandidatesOf(p, input);
    ScanRowsOk(p, input, |input.left|);
    CostsListed(entries, at);
    if Lists(entries, at) {
      var k :| 0 <= k < |entries| && entries[k].pair == at;
      CandidateClears(p, input, k);
      CostOfEntry(entries, k);
    }
    if InInput(input, at) && Clears(p, input, at) {
      CandidatesExactly(p, input, Candidate(at, Apart(p, input, at)));
      var k :| 0 <= k < |entries| && entries[k] == Candidate(at, Apart(p, input, at));
    }
  }

  lemma {:induction false} MatchesAre(p: Params, input: Input, pairs: seq<Pair>)
    requires input.Cameras?
    ensures Matching(pairs, CostsOf(CandidatesOf(p, input))) <==> Eligible(p, input, pairs)
  {
    var costs := CostsOf(CandidatesOf(p, input));
    forall k | 0 <= k < |pairs|
      ensures pairs[k] in costs <==> InInput(input, pairs[k]) && Clears(p, input, pairs[k])
    {
      CostExactly(p, input, pairs[k]);
    }
  }

  lemma {:induction false} TotalIs(p: Params, input: Input, pairs: seq<Pair>)
    requires input.Cameras? && forall k :: 0 <= k < |pairs| ==> pairs[k] in CostsOf(CandidatesOf(p, input))
    ensures forall k :: 0 <= k < |pairs| ==> InInput(input, pairs[k])
    ensures Total(pairs, CostsOf(CandidatesOf(p, input))) == TotalApart(p, input, pairs)
  {
    if pairs != [] {
      CostExactly(p, input, pairs[0]);
      TotalIs(p, input, pairs[1..]);
      forall k | 0 <= k < |pairs| ensures InInput(input, pairs[k]) {
        assert k > 0 ==> pairs[k] == pairs[1..][k - 1];
      }
    }
  }

  /**
   With at most 18 on the smaller side, no other one-to-one choice among the
   pairs that clear the gates has more pairs, or as many less far apart.
   */
  lemma BestExactly(p: Params, input: Input, pairs: seq<Pair>)
    requires input.Cameras? && (|input.left| <= 18 || |input.right| <= 18) && Eligible(p, input, pairs)
    ensures var best := Best(p, input);
      && Eligible(p, input, best)
      && (|best| > |pairs| || (|best| == |pairs| && TotalApart(p, input, best) <= TotalApart(p, input, pairs)))
  {
    var entries := CandidatesOf(p, input);
    ScanRowsOk(p, input, |input.left|);
    MatchesAre(p, input, pairs);
    BestPairsOptimal(|input.left|, |input.right|, entries, pairs);
    MatchesAre(p, input, Best(p, input));
    TotalIs(p, input, pairs);
    TotalIs(p, input, Best(p, input));
  }

  // --- The events ----------------------------------------------------------

  /** What becomes of a pair, and why: the gates in their order, the best pairing, the margin. */
  ghost function Outcome(p: Params, input: Input, at: Pair): Event
    requires InInput(input, at)
  {
    if Different(input, at) then Fail(at, DifferentMaster)
    else if !Together(p, input, at) then Fail(at, TimeSkew)
    else if !Clears(p, input, at) then Fail(at, TooFar)
    else if at !in Best(p, input) then Fail(at, NotSelected)
    else if Disputed(p, input, at) then Fail(at, Ambiguous)
    else Accept(at)
  }

  lemma RejectedOutcome(p: Params, input: Input, e: Event)
    requires input.Cameras? && e in ScanRows(p, input, |input.left|).rejected
    ensures InInput(input, e.at) && e == Outcome(p, input, e.at)
  {
    var rejected := ScanRows(p, input, |input.left|).rejected;
    ScanRowsOk(p, input, |input.left|);
    var n :| 0 <= n < |rejected| && rejected[n] == e;
    assert InInput(input, rejected[n].at);
    ScreenExactly(p, input, e.at);
  }

  lemma DecidedOutcome(p: Params, input: Input, accepted: bool, e: Event)
    requires input.Cameras?
    requires e in Decided(p, CandidatesOf(p, input), Best(p, input), |CandidatesOf(p, input)|, accepted)
    ensures InInput(input, e.at) && e == Outcome(p, input, e.at)
  {
    var entries, best := CandidatesOf(p, input), Best(p, input);
    var decided := Decided(p, entries, best, |entries|, accepted);
    var k :| 0 <= k < |decided| && decided[k] == e;
    var m := DecidedSource(p, entries, best, |entries|, accepted, k);
    CandidateClears(p, input, m);
    RivalExactly(p, input, entries[m].pair);
  }

  lemma EventHasOutcome(p: Params, input: Input, e: Event)
    requires e in EventsOf(p, input)
    ensures InInput(input, e.at) && e == Outcome(p, input, e.at)
  {
    var entries, best := CandidatesOf(p, input), Best(p, input);
    if e in ScanRows(p, input, |input.left|).rejected {
      RejectedOutcome(p, input, e);
    } else if e in Decided(p, entries, best, |entries|, false) {
      DecidedOutcome(p, input, false, e);
    } else {
      DecidedOutcome(p, input, true, e);
    }
  }

  /** Every pair of an update has the outcome it should and no other, and nothing else happens. */
  lemma EventsExactly(p: Params, input: Input, e: Event)
    ensures e in EventsOf(p, input) <==> InInput(input, e.at) && e == Outcome(p, input, e.at)
  {
    if e in EventsOf(p, input) {
      EventHasOutcome(p, input, e);
    }
    if InInput(input, e.at) && e == Outcome(p, input, e.at) {
      EventsMention(p, input, e.at);
      var n :| 0 <= n < |EventsOf(p, input)| && EventsOf(p, input)[n].at == e.at;
      EventHasOutcome(p, input, EventsOf(p, input)[n]);
    }
  }

  // --- What arrives --------------------------------------------------------

  /** Usable: a camera, if only the stream's own, a track, a point and a time. */
  predicate Usable(raw: Raw) {
    !raw.camera.Empty? && raw.track.Some? && raw.point.Some? && raw.time.Some?
  }

  predicate ReportedAs(camera: string, raw: Raw, item: Item) {
    && Usable(raw)
    && raw.point == Some(item.point) && raw.time == Some(item.capturedAt) && raw.track == Some(item.key.track)
    && (raw.camera == Named(item.key.camera) || (raw.camera.Missing? && item.key.camera == camera))
  }

  /** Where the usable observations of a stream stand in it. */
  ghost predicate UsableAt(raws: seq<Raw>, places: seq<nat>) {
    && (forall k :: 0 <= k < |places| ==> places[k] < |raws| && Usable(raws[places[k]]))
    && (forall j, k :: 0 <= j < k < |places| ==> places[j] < places[k])
    && (forall n :: 0 <= n < |raws| && Usable(raws[n]) ==> n in places)
  }

  /** A stream comes to its usable observations, in order, each as it was reported. */
  lemma {:induction false} NormalizedExactly(camera: string, raws: seq<Raw>) returns (places: seq<nat>)
    ensures UsableAt(raws, places) && |places| == |Normalize(camera, raws)|
    ensures forall k :: 0 <= k < |places| ==> ReportedAs(camera, raws[places[k]], Normalize(camera, raws)[k])
  {
    if raws == [] {
      places := [];
    } else {
      var front, n := raws[..|raws| - 1], |raws| - 1;
      places := NormalizedExactly(camera, front);
      forall k | 0 <= k < |places| ensures raws[places[k]] == front[places[k]] {}
      forall m | 0 <= m < n && Usable(raws[m]) ensures m in places {
        assert Usable(front[m]);
      }
      if Usable(raws[n]) {
        assert ItemOf(camera, raws[n]).Some?;
        places := places + [n];
      }
    }
  }

  /** These items are the usable observations of that stream, in order. */
  ghost predicate ItemsOf(stream: (string, seq<Raw>), items: seq<Item>, places: seq<nat>) {
    && UsableAt(stream.1, places) && |places| == |items|
    && forall k :: 0 <= k < |places| ==> ReportedAs(stream.0, stream.1[places[k]], items[k])
  }

  /** An update pairs the first two streams that arrive, and with fewer nothing. */
  lemma FirstTwoPaired(report: Report) returns (left: seq<nat>, right: seq<nat>)
    ensures InputOf(report).Cameras? <==> report.Streams? && |report.cameras| >= 2
    ensures InputOf(report).Cameras? ==>
      && InputOf(report).answers == report.answers
      && ItemsOf(report.cameras[0], InputOf(report).left, left)
      && ItemsOf(report.cameras[1], InputOf(report).right, right)
  {
    left, right := [], [];
    if report.Streams? && |report.cameras| >= 2 {
      left := NormalizedExactly(report.cameras[0].0, report.cameras[0].1);
      right := NormalizedExactly(report.cameras[1].0, report.cameras[1].1);
    }
  }

  // --- The limits ----------------------------------------------------------

  /** Not below either of the two, and one of them. */
  predicate IsLarger(x: real, a: real, b: real) { x >= a && x >= b && (x == a || x == b) }

  predicate IsLargerCount(x: int, a: int, b: int) { x >= a && x >= b && (x == a || x == b) }

  /** What the constructor makes of what it is asked for. */
  lemma ClampExactly(
    dist: (Point, Point) -> real, maxDistance: real, maxSkew: real, required: int, confirm: int,
    grace: int, holdMax: int, margin: real, disagreement: Option<real>)
    ensures var p := Clamp(dist, maxDistance, maxSkew, required, confirm, grace, holdMax, margin, disagreement);
      && ParamsOk(p) && p.dist == dist
      && IsLarger(p.maxDistance, 0.0, maxDistance) && IsLarger(p.maxSkew, 0.0, maxSkew)
      && IsLarger(p.margin, 0.0, margin)
      && IsLargerCount(p.requiredPairFrames, 1, required) && IsLargerCount(p.graceFrames, 0, grace)
      && IsLargerCount(p.confirmFrames, p.requiredPairFrames, confirm)
      && IsLargerCount(p.holdMaxFrames, p.requiredPairFrames, holdMax)
      && (match disagreement
          case None => IsLarger(p.maxDisagreement, 20.0, p.maxDistance / 2.0)
          case Some(limit) => IsLarger(p.maxDisagreement, 0.0, limit))
  {
  }
}
