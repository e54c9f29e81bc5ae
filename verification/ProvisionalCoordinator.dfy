/**
 The provisional identity coordinator as the object it is: five fields that
 its methods update in place. Each method does to the fields what the function
 of the same purpose does to the state they stand for.
 */
module ProvisionalCoordinator {
  import opened Observations
  import opened OneToOnePairing
  import opened Options
  import opened ProvisionalPairs

  lemma ApplyOneMore(p: Params, s: State, input: Input, events: seq<Event>, event: Event)
    requires EventsIn(input, events) && InInput(input, event.at)
    ensures EventsIn(input, events + [event])
    ensures ApplyAll(p, s, input, events + [event]) == Apply(p, ApplyAll(p, s, input, events), input, event)
  {
    assert (events + [event])[..|events|] == events;
  }

  lemma {:induction false} ApplyBoth(p: Params, s: State, input: Input, a: seq<Event>, b: seq<Event>)
    requires EventsIn(input, a) && EventsIn(input, b)
    ensures EventsIn(input, a + b)
    ensures ApplyAll(p, s, input, a + b) == ApplyAll(p, ApplyAll(p, s, input, a), input, b)
  {
    if b == [] {
      assert a + b == a;
    } else {
      var front := b[..|b| - 1];
      ApplyBoth(p, s, input, a, front);
      assert (a + b)[..|a + b| - 1] == a + front;
    }
  }

  lemma ApplyParts(p: Params, s: State, input: Input, a: seq<Event>, b: seq<Event>, c: seq<Event>)
    requires EventsIn(input, a) && EventsIn(input, b) && EventsIn(input, c)
    ensures EventsIn(input, a + b + c)
    ensures ApplyAll(p, s, input, a + b + c)
         == ApplyAll(p, ApplyAll(p, ApplyAll(p, s, input, a), input, b), input, c)
  {
    ApplyBoth(p, s, input, a, b);
    ApplyBoth(p, s, input, a + b, c);
  }

  ghost function AcceptsOf(pairs: seq<Pair>): seq<Event> {
    seq(|pairs|, n requires 0 <= n < |pairs| => Accept(pairs[n]))
  }

  lemma AcceptsOneMore(pairs: seq<Pair>, at: Pair)
    ensures AcceptsOf(pairs + [at]) == AcceptsOf(pairs) + [Accept(at)]
  {
  }

  /** Applying one more acceptance. */
  lemma AcceptedNext(p: Params, s: State, input: Input, accepted: seq<Pair>, n: nat)
    requires n < |accepted| && EventsIn(input, AcceptsOf(accepted[..n])) && InInput(input, accepted[n])
    ensures EventsIn(input, AcceptsOf(accepted[..n + 1]))
    ensures ApplyAll(p, s, input, AcceptsOf(accepted[..n + 1]))
         == Apply(p, ApplyAll(p, s, input, AcceptsOf(accepted[..n])), input, Accept(accepted[n]))
  {
    assert accepted[..n + 1] == accepted[..n] + [accepted[n]];
    AcceptsOneMore(accepted[..n], accepted[n]);
    ApplyOneMore(p, s, input, AcceptsOf(accepted[..n]), Accept(accepted[n]));
  }

  ghost function RowKeys(input: Input, i: nat, j: nat, start: set<PairKey>): set<PairKey>
    requires input.Cameras? && i < |input.left| && j <= |input.right|
  {
    if j == 0 then start else RowKeys(input, i, j - 1, start) + {KeyAt(input, (i, j - 1))}
  }

  ghost function RowsKeys(input: Input, i: nat): set<PairKey>
    requires input.Cameras? && i <= |input.left|
  {
    if i == 0 then {} else RowKeys(input, i - 1, |input.right|, RowsKeys(input, i - 1))
  }

  lemma {:induction false} RowKeysHold(input: Input, i: nat, j: nat, start: set<PairKey>, key: PairKey)
    requires input.Cameras? && i < |input.left| && j <= |input.right|
    ensures key in RowKeys(input, i, j, start)
       <==> key in start || exists l :: 0 <= l < j && KeyAt(input, (i, l)) == key
  {
    if j > 0 {
      RowKeysHold(input, i, j - 1, start, key);
    }
  }

  lemma {:induction false} RowsKeysHold(input: Input, i: nat, key: PairKey)
    requires input.Cameras? && i <= |input.left|
    ensures key in RowsKeys(input, i)
       <==> exists k, l :: 0 <= k < i && 0 <= l < |input.right| && KeyAt(input, (k, l)) == key
  {
    if i > 0 {
      RowsKeysHold(input, i - 1, key);
      RowKeysHold(input, i - 1, |input.right|, RowsKeys(input, i - 1), key);
    }
  }

  lemma EvaluatedAll(input: Input)
    requires input.Cameras?
    ensures RowsKeys(input, |input.left|) == Evaluated(input)
  {
    forall key ensures key in RowsKeys(input, |input.left|) <==> key in Evaluated(input) {
      RowsKeysHold(input, |input.left|, key);
    }
  }

  method EvaluatedKeys(input: Input) returns (evaluated: set<PairKey>)
    requires input.Cameras?
    ensures evaluated == Evaluated(input)
  {
    evaluated := {};
    for i := 0 to |input.left|
      invariant evaluated == RowsKeys(input, i)
    {
      ghost var start := evaluated;
      for j := 0 to |input.right|
        invariant evaluated == RowKeys(input, i, j, start)
      {
        evaluated := evaluated + {KeyAt(input, (i, j))};
      }
    }
    EvaluatedAll(input);
  }

  lemma DecidedNext(p: Params, entries: seq<Candidate>, best: seq<Pair>, n: nat, accepted: bool)
    requires n < |entries|
    ensures var event, before := Decide(p, entries, best, entries[n]), Decided(p, entries, best, n, accepted);
      Decided(p, entries, best, n + 1, accepted)
      == if event.Accept? == accepted then before + [event] else before
  {
  }

  /** The state with some holds released and nothing else touched. */
  ghost function Relieved(s: State, released: set<PairKey>): State {
    s.(holds := s.holds - released, applied := s.applied - multiset(released))
  }

  /** The expired holds that a scan with these keys still to do has released. */
  ghost function ExpiredOutside(p: Params, s: State, todo: set<PairKey>): set<PairKey> {
    ExpiredKeys(p, s) - todo
  }

  lemma ExpiredNone(p: Params, s: State)
    ensures Relieved(s, ExpiredOutside(p, s, s.holds.Keys)) == s
  {
    assert ExpiredOutside(p, s, s.holds.Keys) == {};
  }

  lemma ExpiredAll(p: Params, s: State)
    ensures Relieved(s, ExpiredOutside(p, s, {})) == Expire(p, s)
  {
    assert ExpiredOutside(p, s, {}) == ExpiredKeys(p, s);
  }

  lemma ReleaseOneMore(s: State, released: set<PairKey>, key: PairKey)
    requires key in s.holds && key !in released
    ensures Release(Relieved(s, released), key) == Relieved(s, released + {key})
  {
    assert s.holds - released - {key} == s.holds - (released + {key});
    assert multiset(released + {key}) == multiset(released) + multiset{key};
  }

  /** Releasing other holds does not change whether this one has expired. */
  lemma ExpiredOneMore(p: Params, s: State, todo: set<PairKey>, key: PairKey)
    requires key in todo && todo <= s.holds.Keys
    ensures var now := Relieved(s, ExpiredOutside(p, s, todo));
      && key in now.holds
      && Relieved(s, ExpiredOutside(p, s, todo - {key}))
         == if Expired(p, now, now.holds[key]) then Release(now, key) else now
  {
    var before, after := ExpiredOutside(p, s, todo), ExpiredOutside(p, s, todo - {key});
    if key in ExpiredKeys(p, s) {
      assert after == before + {key};
      ReleaseOneMore(s, before, key);
    } else {
      assert after == before;
    }
  }

  class Coordinator {
    const params: Params
    var updateIndex: nat
    var pairStreaks: map<PairKey, Streak>
    var pairHolds: map<PairKey, Hold>
    /** Holds the memory was asked to apply and not yet asked to release. */
    var appliedHolds: multiset<PairKey>
    /** Shared identities the memory was asked to create. */
    var creations: seq<Creation>

    ghost function Contents(): State
      reads this
    {
      State(updateIndex, pairStreaks, pairHolds, appliedHolds, creations)
    }

    constructor (
      dist: (Point, Point) -> real, maxDistance: real, maxSkew: real, required: int, confirm: int,
      grace: int, holdMax: int, margin: real, disagreement: Option<real>)
      ensures params == Clamp(dist, maxDistance, maxSkew, required, confirm, grace, holdMax, margin, disagreement)
      ensures ParamsOk(params)
      ensures Contents() == INITIAL
    {
      params := Clamp(dist, maxDistance, maxSkew, required, confirm, grace, holdMax, margin, disagreement);
      updateIndex, pairStreaks, pairHolds := 0, map[], map[];
      appliedHolds, creations := multiset{}, [];
    }

    method ReleasePairHold(key: PairKey)
      modifies this
      ensures Contents() == Release(old(Contents()), key)
    {
      if key in pairHolds {
        pairHolds := pairHolds - {key};
        appliedHolds := appliedHolds - multiset{key};
      }
    }

    method MarkPairValidForHold(key: PairKey)
      modifies this
      ensures Contents() == MarkValid(old(Contents()), key)
    {
      if key !in pairHolds {
        appliedHolds := appliedHolds + multiset{key};
        pairHolds := pairHolds[key := Hold(updateIndex, updateIndex, None)];
        return;
      }
      pairHolds := pairHolds[key := pairHolds[key].(lastValid := updateIndex, grace := None)];
    }

    method MarkPairFailedForHold(key: PairKey, reason: Reason)
      modifies this
      ensures Contents() == MarkFailed(old(Contents()), key, reason)
    {
      if key !in pairHolds {
        return;
      }
      if Contradicts(reason) {
        ReleasePairHold(key);
        return;
      }
      if pairHolds[key].grace.None? {
        pairHolds := pairHolds[key := pairHolds[key].(grace := Some(updateIndex))];
      }
    }

    method ExpireHold(key: PairKey)
      requires key in pairHolds
      modifies this
      ensures Contents() == if Expired(params, old(Contents()), old(pairHolds)[key])
                            then Release(old(Contents()), key) else old(Contents())
    {
      var hold := pairHolds[key];
      if updateIndex - hold.started >= params.holdMaxFrames {
        ReleasePairHold(key);
        return;
      }
      if hold.grace.Some? && updateIndex - hold.grace.value > params.graceFrames {
        ReleasePairHold(key);
      }
    }

    /** Nothing expires that should not, and everything does that should, in whatever order. */
    method ExpirePairHolds()
      modifies this
      ensures Contents() == Expire(params, old(Contents()))
    {
      ghost var s := Contents();
      var todo := pairHolds.Keys;
      ExpiredNone(params, s);
      while todo != {}
        invariant todo <= s.holds.Keys
        invariant Contents() == Relieved(s, ExpiredOutside(params, s, todo))
        decreases |todo|
      {
        var key :| key in todo;
        ExpiredOneMore(params, s, todo, key);
        ExpireHold(key);
        todo := todo - {key};
      }
      ExpiredAll(params, s);
    }

    method MarkActiveHoldsUnobserved(evaluated: set<PairKey>)
      modifies this
      ensures Contents() == MarkUnobserved(old(Contents()), evaluated)
    {
      ghost var s := Contents();
      var todo := pairHolds.Keys;
      while todo != {}
        invariant todo <= s.holds.Keys
        invariant Contents() == s.(holds := pairHolds)
        invariant pairHolds.Keys == s.holds.Keys
        invariant forall key :: key in s.holds ==>
          pairHolds[key] == if key in todo then s.holds[key] else HoldUnobserved(s, evaluated, key)
        decreases |todo|
      {
        var key :| key in todo;
        if key !in evaluated {
          MarkPairFailedForHold(key, NotObserved);
        }
        todo := todo - {key};
      }
      assert pairHolds == MarkUnobserved(s, evaluated).holds;
    }

    method PruneStreaks()
      modifies this
      ensures Contents() == Prune(params, old(Contents()))
    {
      ghost var s := Contents();
      var staleAfter := if params.requiredPairFrames >= params.confirmFrames
                        then params.requiredPairFrames else params.confirmFrames;
      var cutoff: int := updateIndex - staleAfter;
      var todo := pairStreaks.Keys;
      while todo != {}
        invariant todo <= s.streaks.Keys
        invariant Contents() == s.(streaks := pairStreaks)
        invariant pairStreaks.Keys == set key | key in s.streaks && (key in todo || !Outdated(params, s, s.streaks[key]))
        invariant forall key :: key in pairStreaks ==> pairStreaks[key] == s.streaks[key]
        decreases |todo|
      {
        var key :| key in todo;
        if pairStreaks[key].last <= cutoff {
          pairStreaks := pairStreaks - {key};
        }
        todo := todo - {key};
      }
      assert pairStreaks == Prune(params, s).streaks;
    }

    method AdvanceStreak(key: PairKey, left: Point, right: Point) returns (count: nat, contradicted: bool)
      modifies this
      ensures contradicted == Contradicted(params, old(Contents()), key, left, right)
      ensures count == AdvancedStreak(params, old(Contents()), key, left, right).count
      ensures Contents() == old(Contents()).(
        streaks := old(pairStreaks)[key := AdvancedStreak(params, old(Contents()), key, left, right)])
    {
      var consecutive := key in pairStreaks && pairStreaks[key].last + 1 == updateIndex;
      contradicted := false;
      if consecutive {
        var previous := pairStreaks[key];
        if params.dist(Motion(left, previous.left), Motion(right, previous.right)) > params.maxDisagreement {
          consecutive, contradicted := false, true;
        }
      }
      count := if consecutive then pairStreaks[key].count + 1 else 1;
      pairStreaks := pairStreaks[key := Streak(count, updateIndex, left, right)];
    }

    /** One accepted pair: its streak advances, its hold follows, and an identity is requested when due. */
    method Accepted(key: PairKey, left: Point, right: Point, shared: Option<int>)
      modifies this
      ensures Contents() == AcceptPair(params, old(Contents()), key, left, right, shared)
    {
      var count, contradicted := AdvanceStreak(key, left, right);
      if contradicted {
        MarkPairFailedForHold(key, MovementDisagreement);
      } else if shared.None? {
        MarkPairValidForHold(key);
      } else {
        ReleasePairHold(key);
      }
      if shared.None? && !contradicted && count >= params.requiredPairFrames {
        creations := creations + [Creation(updateIndex, key, count)];
        ReleasePairHold(key);
      }
    }

    /** Screening of one pair of people; a rejection reaches the pair's hold at once. */
    method ScreenOne(ghost begun: State, input: Input, i: nat, j: nat, scan: Scan) returns (after: Scan)
      requires input.Cameras? && i < |input.left| && j < |input.right|
      requires EventsIn(input, scan.rejected) && Contents() == ApplyAll(params, begun, input, scan.rejected)
      modifies this
      ensures after == ScanPair(params, input, scan, i, j)
      ensures EventsIn(input, after.rejected) && Contents() == ApplyAll(params, begun, input, after.rejected)
    {
      match Screen(params, input, i, j)
      case Reject(reason) =>
        ApplyOneMore(params, begun, input, scan.rejected, Fail((i, j), reason));
        MarkPairFailedForHold(KeyAt(input, (i, j)), reason);
        after := scan.(rejected := scan.rejected + [Fail((i, j), reason)]);
      case Consider(cost) =>
        after := scan.(entries := scan.entries + [Candidate((i, j), cost)]);
    }

    method ScreenRow(ghost begun: State, input: Input, i: nat, start: Scan) returns (scan: Scan)
      requires input.Cameras? && i < |input.left|
      requires EventsIn(input, start.rejected) && Contents() == ApplyAll(params, begun, input, start.rejected)
      modifies this
      ensures scan == ScanRow(params, input, start, i, |input.right|)
      ensures EventsIn(input, scan.rejected) && Contents() == ApplyAll(params, begun, input, scan.rejected)
    {
      scan := start;
      for j := 0 to |input.right|
        invariant scan == ScanRow(params, input, start, i, j) && EventsIn(input, scan.rejected)
        invariant Contents() == ApplyAll(params, begun, input, scan.rejected)
      {
        scan := ScreenOne(begun, input, i, j, scan);
      }
    }

    /** The double loop over both cameras. */
    method ScreenAll(input: Input) returns (scan: Scan)
      requires input.Cameras?
      modifies this
      ensures scan == ScanRows(params, input, |input.left|)
      ensures EventsIn(input, scan.rejected)
      ensures Contents() == ApplyAll(params, old(Contents()), input, scan.rejected)
    {
      ghost var begun := Contents();
      scan := Scan([], []);
      for i := 0 to |input.left|
        invariant scan == ScanRows(params, input, i) && EventsIn(input, scan.rejected)
        invariant Contents() == ApplyAll(params, begun, input, scan.rejected)
      {
        scan := ScreenRow(begun, input, i, scan);
      }
    }

    /** What one candidate comes to; a failure reaches the pair's hold at once. */
    method DecideOne(
      ghost begun: State, ghost failed: seq<Event>, input: Input, entries: seq<Candidate>, best: seq<Pair>,
      n: nat) returns (event: Event)
      requires EntriesIn(input, entries) && n < |entries|
      requires EventsIn(input, failed) && Contents() == ApplyAll(params, begun, input, failed)
      modifies this
      ensures event == Decide(params, entries, best, entries[n])
      ensures var after := if event.Fail? then failed + [event] else failed;
        EventsIn(input, after) && Contents() == ApplyAll(params, begun, input, after)
    {
      event := Decide(params, entries, best, entries[n]);
      if event.Fail? {
        ApplyOneMore(params, begun, input, failed, event);
        MarkPairFailedForHold(KeyAt(input, event.at), event.reason);
      }
    }

    /** Candidates that lost the pairing or are ambiguous fail; the others are accepted. */
    method DecideAll(input: Input, entries: seq<Candidate>) returns (accepted: seq<Pair>, ghost failed: seq<Event>)
      requires input.Cameras? && EntriesIn(input, entries)
      modifies this
      ensures failed == Decided(params, entries, BestPairs(|input.left|, |input.right|, entries), |entries|, false)
      ensures AcceptsOf(accepted)
           == Decided(params, entries, BestPairs(|input.left|, |input.right|, entries), |entries|, true)
      ensures EventsIn(input, failed) && Contents() == ApplyAll(params, old(Contents()), input, failed)
    {
      ghost var begun := Contents();
      var best := FindBestPairs(|input.left|, |input.right|, entries);
      accepted, failed := [], [];
      for n := 0 to |entries|
        invariant failed == Decided(params, entries, best, n, false)
        invariant AcceptsOf(accepted) == Decided(params, entries, best, n, true)
        invariant EventsIn(input, failed) && Contents() == ApplyAll(params, begun, input, failed)
      {
        var event := DecideOne(begun, failed, input, entries, best, n);
        DecidedNext(params, entries, best, n, false);
        DecidedNext(params, entries, best, n, true);
        if event.Fail? {
          failed := failed + [event];
        } else {
          AcceptsOneMore(accepted, event.at);
          accepted := accepted + [event.at];
        }
      }
    }

    /** The accepted pairs, one after the other. */
    method AcceptAll(input: Input, accepted: seq<Pair>)
      requires EventsIn(input, AcceptsOf(accepted))
      modifies this
      ensures Contents() == ApplyAll(params, old(Contents()), input, AcceptsOf(accepted))
    {
      ghost var begun := Contents();
      for n := 0 to |accepted|
        invariant EventsIn(input, AcceptsOf(accepted[..n]))
        invariant Contents() == ApplyAll(params, begun, input, AcceptsOf(accepted[..n]))
      {
        var at := accepted[n];
        assert AcceptsOf(accepted)[n].at == at;
        AcceptedNext(params, begun, input, accepted, n);
        Accepted(KeyAt(input, at), input.left[at.0].point, input.right[at.1].point,
                 input.answers.shared(at.0, at.1));
      }
      assert accepted[..|accepted|] == accepted;
    }

    /** Everything an update does with the pairs in front of the cameras. */
    method PairCameras(input: Input) returns (evaluated: set<PairKey>)
      modifies this
      ensures evaluated == Evaluated(input)
      ensures Contents() == Paired(params, old(Contents()), input)
    {
      if input.Idle? {
        return {};
      }
      evaluated := EvaluatedKeys(input);
      var scan := ScreenAll(input);
      ScanRowsIn(params, input, |input.left|);
      ghost var failed;
      var accepted;
      accepted, failed := DecideAll(input, scan.entries);
      ghost var best := BestPairs(|input.left|, |input.right|, scan.entries);
      DecidedIn(params, input, scan.entries, best, |scan.entries|, true);
      AcceptAll(input, accepted);
      ApplyParts(params, old(Contents()), input, scan.rejected, failed, AcceptsOf(accepted));
      EventsInInput(params, input);
    }

    method BeginUpdate()
      modifies this`updateIndex
      ensures Contents() == Begin(old(Contents()))
    {
      updateIndex := updateIndex + 1;
    }

    /** A new update begins, and every event of it is applied. */
    method Observe(input: Input) returns (evaluated: set<PairKey>)
      modifies this
      ensures evaluated == Evaluated(input)
      ensures Contents() == Folded(params, old(Contents()), input)
    {
      BeginUpdate();
      evaluated := PairCameras(input);
    }

    method FinishHolds(evaluated: set<PairKey>)
      modifies this
      ensures Contents() == Finish(params, old(Contents()), evaluated)
    {
      MarkActiveHoldsUnobserved(evaluated);
      ExpirePairHolds();
    }

    method NormalizeObservations(camera: string, raws: seq<Raw>) returns (items: seq<Item>)
      ensures items == Normalize(camera, raws)
    {
      items := [];
      for n := 0 to |raws|
        invariant items == Normalize(camera, raws[..n])
      {
        assert raws[..n + 1][..n] == raws[..n];
        var raw := raws[n];
        var owner := raw.camera;
        if owner.Missing? {
          owner := Named(camera);
        }
        if owner.Named? && raw.track.Some? && raw.point.Some? && raw.time.Some? {
          items := items + [Item(TrackKey(owner.name, raw.track.value), raw.point.value, raw.time.value)];
        }
      }
      assert raws[..|raws|] == raws;
    }

    method ReadReport(report: Report) returns (input: Input)
      ensures input == InputOf(report)
    {
      if report.NoStreams? || |report.cameras| < 2 {
        return Idle;
      }
      var left := NormalizeObservations(report.cameras[0].0, report.cameras[0].1);
      var right := NormalizeObservations(report.cameras[1].0, report.cameras[1].1);
      input := Cameras(left, right, report.answers);
    }

    method Update(report: Report)
      modifies this
      ensures Contents() == ProvisionalPairs.Update(params, old(Contents()), InputOf(report))
    {
      var input := ReadReport(report);
      var evaluated := Observe(input);
      FinishHolds(evaluated);
      PruneStreaks();
    }
  }
}
