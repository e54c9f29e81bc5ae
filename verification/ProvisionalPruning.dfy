/** Pruning of streaks cannot be observed. */
module ProvisionalPruning {
  import opened Options
  import opened ProvisionalPairs
  import opened ProvisionalRuns

  /** The same coordinator, never pruning a streak. */
  ghost function RunUnpruned(p: Params, inputs: seq<Input>): State {
    if inputs == [] then INITIAL
    else Digest(p, RunUnpruned(p, inputs[..|inputs| - 1]), inputs[|inputs| - 1])
  }

  ghost function LiveStreak(s: State, key: PairKey, since: int): Option<Streak> {
    if key in s.streaks && s.streaks[key].last >= since then Some(s.streaks[key]) else None
  }

  /** Everything but the streaks. */
  ghost predicate AlikeElsewhere(a: State, b: State) {
    a.index == b.index && a.holds == b.holds && a.applied == b.applied && a.created == b.created
  }

  ghost predicate AlikeAt(a: State, b: State, key: PairKey, since: int) {
    LiveStreak(a, key, since) == LiveStreak(b, key, since)
  }

  /** Equal but for streaks last touched before `since`. */
  ghost predicate Alike(a: State, b: State, since: int) {
    AlikeElsewhere(a, b) && forall key :: AlikeAt(a, b, key, since)
  }

  lemma FailElsewhere(a: State, b: State, key: PairKey, reason: Reason)
    requires AlikeElsewhere(a, b)
    ensures AlikeElsewhere(MarkFailed(a, key, reason), MarkFailed(b, key, reason))
  {
  }

  lemma FailAlike(a: State, b: State, since: int, key: PairKey, reason: Reason)
    requires Alike(a, b, since)
    ensures Alike(MarkFailed(a, key, reason), MarkFailed(b, key, reason), since)
  {
    var a1, b1 := MarkFailed(a, key, reason), MarkFailed(b, key, reason);
    FailElsewhere(a, b, key, reason);
    FailFacts(a, key, reason);
    FailFacts(b, key, reason);
    forall other: PairKey ensures AlikeAt(a1, b1, other, since) {
      assert AlikeAt(a, b, other, since);
    }
  }

  /** The pair's own live streak decides what acceptance does to it. */
  lemma AdvanceSame(p: Params, a: State, b: State, key: PairKey, sight: Sight)
    requires a.index == b.index && AlikeAt(a, b, key, a.index - 1)
    ensures StreakFrom(p, a, key, sight) == StreakFrom(p, b, key, sight)
    ensures Contradicted(p, a, key, sight.left, sight.right) == Contradicted(p, b, key, sight.left, sight.right)
  {
    assert Consecutive(a, key) == Consecutive(b, key);
  }

  lemma AcceptElsewhere(p: Params, a: State, b: State, key: PairKey, sight: Sight)
    requires AlikeElsewhere(a, b) && AlikeAt(a, b, key, a.index - 1)
    ensures AlikeElsewhere(AcceptPair(p, a, key, sight.left, sight.right, sight.shared),
                           AcceptPair(p, b, key, sight.left, sight.right, sight.shared))
  {
    AdvanceSame(p, a, b, key, sight);
    var contradicted := Contradicted(p, a, key, sight.left, sight.right);
    HoldElsewhere(Advanced(p, a, key, sight), Advanced(p, b, key, sight), key, contradicted, sight.shared);
    ReleaseElsewhere(HoldAccepted(Advanced(p, a, key, sight), key, contradicted, sight.shared),
                     HoldAccepted(Advanced(p, b, key, sight), key, contradicted, sight.shared), key);
  }

  lemma ReleaseElsewhere(a: State, b: State, key: PairKey)
    requires AlikeElsewhere(a, b)
    ensures AlikeElsewhere(Release(a, key), Release(b, key))
  {
  }

  lemma HoldElsewhere(a: State, b: State, key: PairKey, contradicted: bool, shared: Option<int>)
    requires AlikeElsewhere(a, b)
    ensures AlikeElsewhere(HoldAccepted(a, key, contradicted, shared), HoldAccepted(b, key, contradicted, shared))
  {
  }

  lemma AcceptAlike(p: Params, a: State, b: State, key: PairKey, sight: Sight)
    requires Alike(a, b, a.index - 1)
    ensures Alike(AcceptPair(p, a, key, sight.left, sight.right, sight.shared),
                  AcceptPair(p, b, key, sight.left, sight.right, sight.shared), a.index - 1)
  {
    var a1 := AcceptPair(p, a, key, sight.left, sight.right, sight.shared);
    var b1 := AcceptPair(p, b, key, sight.left, sight.right, sight.shared);
    AcceptElsewhere(p, a, b, key, sight);
    AdvanceSame(p, a, b, key, sight);
    AcceptFacts(p, a, key, sight);
    AcceptFacts(p, b, key, sight);
    var since := a.index - 1;
    forall other: PairKey ensures AlikeAt(a1, b1, other, since) {
      assert AlikeAt(a, b, other, since);
    }
  }

  lemma ApplyAlike(p: Params, a: State, b: State, since: int, input: Input, event: Event)
    requires InInput(input, event.at) && Alike(a, b, since) && a.index == since + 1
    ensures Alike(Apply(p, a, input, event), Apply(p, b, input, event), since)
    ensures Apply(p, a, input, event).index == a.index
  {
    ApplyFacts(p, a, input, event);
    if event.Fail? {
      FailAlike(a, b, since, KeyAt(input, event.at), event.reason);
    } else {
      AcceptAlike(p, a, b, KeyAt(input, event.at), SightAt(input, event.at));
    }
  }

  lemma {:induction false} FoldAlike(
    p: Params, a: State, b: State, since: int, input: Input, events: seq<Event>)
    requires EventsIn(input, events) && Alike(a, b, since) && a.index == since + 1
    ensures Alike(ApplyAll(p, a, input, events), ApplyAll(p, b, input, events), since)
    ensures ApplyAll(p, a, input, events).index == a.index
  {
    if events != [] {
      var front, last := events[..|events| - 1], events[|events| - 1];
      FoldAlike(p, a, b, since, input, front);
      ApplyAlike(p, ApplyAll(p, a, input, front), ApplyAll(p, b, input, front), since, input, last);
    }
  }

  lemma FinishElsewhere(p: Params, a: State, b: State, evaluated: set<PairKey>)
    requires AlikeElsewhere(a, b)
    ensures AlikeElsewhere(Finish(p, a, evaluated), Finish(p, b, evaluated))
  {
    var a1, b1 := MarkUnobserved(a, evaluated), MarkUnobserved(b, evaluated);
    assert a1.holds == b1.holds;
    assert ExpiredKeys(p, a1) == ExpiredKeys(p, b1);
  }

  lemma FinishAlike(p: Params, a: State, b: State, since: int, evaluated: set<PairKey>)
    requires Alike(a, b, since)
    ensures Alike(Finish(p, a, evaluated), Finish(p, b, evaluated), since)
  {
    var a1, b1 := Finish(p, a, evaluated), Finish(p, b, evaluated);
    FinishElsewhere(p, a, b, evaluated);
    FinishKeeps(p, a, evaluated);
    FinishKeeps(p, b, evaluated);
    forall key: PairKey ensures AlikeAt(a1, b1, key, since) {
      assert AlikeAt(a, b, key, since);
    }
  }

  lemma PruneAlike(p: Params, a: State, b: State)
    requires ParamsOk(p) && Alike(a, b, a.index - 1)
    ensures Alike(Prune(p, a), b, a.index)
  {
    forall key: PairKey ensures AlikeAt(Prune(p, a), b, key, a.index) {
      assert AlikeAt(a, b, key, a.index - 1);
    }
  }

  lemma BeginAlike(a: State, b: State)
    requires Alike(a, b, a.index)
    ensures Alike(Begin(a), Begin(b), a.index)
  {
    var a1, b1 := Begin(a), Begin(b);
    forall key: PairKey ensures AlikeAt(a1, b1, key, a.index) {
      assert AlikeAt(a, b, key, a.index);
    }
  }

  lemma FoldedAlike(p: Params, a: State, b: State, input: Input)
    requires Alike(a, b, a.index)
    ensures Alike(Folded(p, a, input), Folded(p, b, input), a.index)
    ensures Folded(p, a, input).index == a.index + 1
  {
    BeginAlike(a, b);
    EventsInInput(p, input);
    FoldAlike(p, Begin(a), Begin(b), a.index, input, EventsOf(p, input));
  }

  lemma DigestAlike(p: Params, a: State, b: State, input: Input)
    requires Alike(a, b, a.index)
    ensures Alike(Digest(p, a, input), Digest(p, b, input), a.index)
    ensures Digest(p, a, input).index == a.index + 1
  {
    FoldedAlike(p, a, b, input);
    FinishAlike(p, Folded(p, a, input), Folded(p, b, input), a.index, Evaluated(input));
    DigestFolds(p, a, input);
  }

  /**
   Pruning is invisible: a coordinator that never forgets a streak has the
   same holds, asks the memory for the same things, requests the same
   identities with the same streaks, and agrees on every streak that is live.
   */
  lemma {:induction false} PruningUnobservable(p: Params, inputs: seq<Input>)
    requires ParamsOk(p)
    ensures Alike(Run(p, inputs), RunUnpruned(p, inputs), Run(p, inputs).index)
  {
    if inputs != [] {
      var front, last := inputs[..|inputs| - 1], inputs[|inputs| - 1];
      var a, b := Run(p, front), RunUnpruned(p, front);
      PruningUnobservable(p, front);
      DigestAlike(p, a, b, last);
      PruneAlike(p, Digest(p, a, last), Digest(p, b, last));
    }
  }
}
