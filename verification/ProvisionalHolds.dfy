/** The holds of the provisional coordinator over whole runs. */
module ProvisionalHolds {
  import opened Options
  import opened ProvisionalPairs
  import opened ProvisionalProperties
  import opened ProvisionalRuns

  /** A hold as it may stand after update `n`, or, before this update touched it, after `n - 1`. */
  ghost predicate HoldAsOf(hold: Hold, n: int) {
    && hold.started <= n
    && match hold.grace
       case None => hold.lastValid == n
       case Some(g) => g == hold.lastValid + 1 && g <= n
  }

  ghost predicate HoldsMidway(s: State, done: set<PairKey>) {
    forall key :: key in s.holds ==> HoldAsOf(s.holds[key], if key in done then s.index else s.index - 1)
  }

  /** As long as the update has only turned pairs down, what it has touched is in grace. */
  ghost predicate TouchedInGrace(s: State, done: set<PairKey>) {
    forall key :: key in s.holds && key in done ==> s.holds[key].grace.Some?
  }

  lemma FailMidway(s: State, done: set<PairKey>, key: PairKey, reason: Reason)
    requires HoldsMidway(s, done) && TouchedInGrace(s, done)
    ensures HoldsMidway(MarkFailed(s, key, reason), done + {key})
    ensures TouchedInGrace(MarkFailed(s, key, reason), done + {key})
  {
    var after := MarkFailed(s, key, reason);
    forall other | other in after.holds
      ensures HoldAsOf(after.holds[other], if other in done + {key} then after.index else after.index - 1)
      ensures other in done + {key} ==> after.holds[other].grace.Some?
    {
      assert other in s.holds && HoldAsOf(s.holds[other], if other in done then s.index else s.index - 1);
    }
  }

  lemma ReleaseMidway(s: State, done: set<PairKey>, key: PairKey)
    requires HoldsMidway(s, done)
    ensures HoldsMidway(Release(s, key), done) && HoldsMidway(Release(s, key), done + {key})
  {
  }

  lemma ValidMidway(s: State, done: set<PairKey>, key: PairKey)
    requires HoldsMidway(s, done)
    ensures HoldsMidway(MarkValid(s, key), done + {key})
  {
  }

  lemma HoldAcceptedMidway(s: State, done: set<PairKey>, key: PairKey, contradicted: bool, shared: Option<int>)
    requires HoldsMidway(s, done)
    ensures HoldsMidway(HoldAccepted(s, key, contradicted, shared), done + {key})
  {
    if contradicted {
      ReleaseMidway(s, done, key);
    } else if shared.None? {
      ValidMidway(s, done, key);
    } else {
      ReleaseMidway(s, done, key);
    }
  }

  lemma AcceptMidway(p: Params, s: State, done: set<PairKey>, key: PairKey, sight: Sight)
    requires HoldsMidway(s, done)
    ensures HoldsMidway(AcceptPair(p, s, key, sight.left, sight.right, sight.shared), done + {key})
  {
    var advanced := Advanced(p, s, key, sight);
    var contradicted := Contradicted(p, s, key, sight.left, sight.right);
    assert HoldsMidway(advanced, done);
    HoldAcceptedMidway(advanced, done, key, contradicted, sight.shared);
    ReleaseMidway(HoldAccepted(advanced, key, contradicted, sight.shared), done + {key}, key);
  }

  lemma KeysOfNext(input: Input, events: seq<Event>)
    requires EventsIn(input, events) && events != []
    ensures EventsIn(input, events[..|events| - 1])
    ensures KeysOf(input, events) == KeysOf(input, events[..|events| - 1]) + {KeyAt(input, events[|events| - 1].at)}
  {
    var front, last := events[..|events| - 1], events[|events| - 1];
    forall key | key in KeysOf(input, events) ensures key in KeysOf(input, front) + {KeyAt(input, last.at)} {
      var n :| 0 <= n < |events| && KeyAt(input, events[n].at) == key;
      if n < |front| { assert KeyAt(input, front[n].at) == key; }
    }
    forall key | key in KeysOf(input, front) ensures key in KeysOf(input, events) {
      var n :| 0 <= n < |front| && KeyAt(input, front[n].at) == key;
      assert KeyAt(input, events[n].at) == key;
    }
  }

  lemma {:induction false} FoldMidway(p: Params, begun: State, input: Input, events: seq<Event>)
    requires EventsIn(input, events) && AcceptsLast(events)
    requires HoldsMidway(begun, {})
    ensures ApplyAll(p, begun, input, events).index == begun.index
    ensures HoldsMidway(ApplyAll(p, begun, input, events), KeysOf(input, events))
    ensures events == [] || events[|events| - 1].Fail? ==>
      TouchedInGrace(ApplyAll(p, begun, input, events), KeysOf(input, events))
  {
    if events != [] {
      var front, last := events[..|events| - 1], events[|events| - 1];
      var s, done, key := ApplyAll(p, begun, input, front), KeysOf(input, front), KeyAt(input, last.at);
      KeysOfNext(input, events);
      FoldMidway(p, begun, input, front);
      ApplyFacts(p, s, input, last);
      if last.Fail? {
        assert front != [] ==> front[|front| - 1] == events[|events| - 2];
        FailMidway(s, done, key, last.reason);
      } else {
        AcceptMidway(p, s, done, key, SightAt(input, last.at));
      }
    }
  }

  /** How every live hold stands after an update. */
  ghost predicate HoldBounded(p: Params, hold: Hold, n: nat) {
    && HoldAsOf(hold, n)
    && n - hold.started < p.holdMaxFrames
    && (hold.grace.Some? ==> n - hold.grace.value <= p.graceFrames)
  }

  ghost predicate HoldsBounded(p: Params, s: State) {
    forall key :: key in s.holds ==> HoldBounded(p, s.holds[key], s.index)
  }

  lemma FinishBounds(p: Params, s: State, evaluated: set<PairKey>)
    requires HoldsMidway(s, evaluated)
    ensures HoldsBounded(p, Finish(p, s, evaluated))
  {
  }

  /**
   After every update each hold is younger than the cap; either it has no
   grace and was confirmed in this very update, or its grace began in the
   update right after the last confirmation and has not run out.
   */
  lemma {:induction false} HoldsStayBounded(p: Params, inputs: seq<Input>)
    ensures Run(p, inputs).index == |inputs|
    ensures HoldsBounded(p, Run(p, inputs))
  {
    if inputs != [] {
      var front, last := inputs[..|inputs| - 1], inputs[|inputs| - 1];
      var s := Run(p, front);
      HoldsStayBounded(p, front);
      EventsCoverPairs(p, last);
      EventsAcceptLast(p, last);
      FoldMidway(p, Begin(s), last, EventsOf(p, last));
      FinishBounds(p, Folded(p, s, last), Evaluated(last));
      DigestFolds(p, s, last);
    }
  }

  /** The memory was asked for exactly the holds the coordinator has, each once. */
  ghost predicate HoldsMatch(s: State) {
    s.applied == multiset(s.holds.Keys)
  }

  lemma ReleaseMatches(s: State, key: PairKey)
    requires HoldsMatch(s)
    ensures HoldsMatch(Release(s, key))
  {
    if key in s.holds {
      assert (s.holds - {key}).Keys == s.holds.Keys - {key};
    }
  }

  lemma MarkValidMatches(s: State, key: PairKey)
    requires HoldsMatch(s)
    ensures HoldsMatch(MarkValid(s, key))
  {
    assert MarkValid(s, key).holds.Keys == s.holds.Keys + {key};
  }

  lemma MarkFailedMatches(s: State, key: PairKey, reason: Reason)
    requires HoldsMatch(s)
    ensures HoldsMatch(MarkFailed(s, key, reason))
  {
    ReleaseMatches(s, key);
    assert key in s.holds && !Contradicts(reason) ==> MarkFailed(s, key, reason).holds.Keys == s.holds.Keys;
  }

  lemma HoldAcceptedMatches(s: State, key: PairKey, contradicted: bool, shared: Option<int>)
    requires HoldsMatch(s)
    ensures HoldsMatch(HoldAccepted(s, key, contradicted, shared))
  {
    if contradicted {
      MarkFailedMatches(s, key, MovementDisagreement);
    } else if shared.None? {
      MarkValidMatches(s, key);
    } else {
      ReleaseMatches(s, key);
    }
  }

  lemma AcceptMatches(p: Params, s: State, key: PairKey, sight: Sight)
    requires HoldsMatch(s)
    ensures HoldsMatch(AcceptPair(p, s, key, sight.left, sight.right, sight.shared))
  {
    var advanced := Advanced(p, s, key, sight);
    var contradicted := Contradicted(p, s, key, sight.left, sight.right);
    assert HoldsMatch(advanced);
    HoldAcceptedMatches(advanced, key, contradicted, sight.shared);
    ReleaseMatches(HoldAccepted(advanced, key, contradicted, sight.shared), key);
  }

  lemma ApplyMatches(p: Params, s: State, input: Input, event: Event)
    requires InInput(input, event.at) && HoldsMatch(s)
    ensures HoldsMatch(Apply(p, s, input, event))
  {
    var key := KeyAt(input, event.at);
    match event
    case Fail(_, reason) => MarkFailedMatches(s, key, reason);
    case Accept(_) => AcceptMatches(p, s, key, SightAt(input, event.at));
  }

  lemma {:induction false} FoldMatches(p: Params, s: State, input: Input, events: seq<Event>)
    requires EventsIn(input, events) && HoldsMatch(s)
    ensures HoldsMatch(ApplyAll(p, s, input, events))
  {
    if events != [] {
      FoldMatches(p, s, input, events[..|events| - 1]);
      ApplyMatches(p, ApplyAll(p, s, input, events[..|events| - 1]), input, events[|events| - 1]);
    }
  }

  lemma FinishMatches(p: Params, s: State, evaluated: set<PairKey>)
    requires HoldsMatch(s)
    ensures HoldsMatch(Finish(p, s, evaluated))
  {
    var marked := MarkUnobserved(s, evaluated);
    assert marked.holds.Keys == s.holds.Keys;
    assert (marked.holds - ExpiredKeys(p, marked)).Keys == marked.holds.Keys - ExpiredKeys(p, marked);
    assert ExpiredKeys(p, marked) <= marked.holds.Keys;
  }

  lemma UpdateMatches(p: Params, s: State, input: Input)
    requires HoldsMatch(s)
    ensures HoldsMatch(Update(p, s, input))
  {
    var begun := Begin(s);
    assert HoldsMatch(begun);
    EventsInInput(p, input);
    FoldMatches(p, begun, input, EventsOf(p, input));
    FinishMatches(p, Folded(p, s, input), Evaluated(input));
  }

  /**
   Over any run, whatever the memory answers and even with repeated tracks,
   the holds the memory was asked for and not yet asked to release are exactly
   the coordinator's own, each asked for once.
   */
  lemma {:induction false} HoldsAlwaysMatch(p: Params, inputs: seq<Input>)
    ensures HoldsMatch(Run(p, inputs))
  {
    if inputs != [] {
      HoldsAlwaysMatch(p, inputs[..|inputs| - 1]);
      UpdateMatches(p, Run(p, inputs[..|inputs| - 1]), inputs[|inputs| - 1]);
    } else {
      assert INITIAL.holds.Keys == {};
    }
  }

  // --- When a hold begins and ends -----------------------------------------

  /**
   What one update did to a pair, as far as its hold is concerned: whether a
   failure found against it, whether it was accepted, whether the latest
   acceptance left it held, and whether nothing at all was against holding it.
   */
  datatype Fate = Fate(refuted: bool, accepted: bool, held: bool, kept: bool)

  /**
   An acceptance with nothing against holding the pair: no shared identity, no
   motion that disagrees with that of the update before, and no group due. A
   further one in the same update is never contradicted, and its streak is one.
   */
  ghost predicate LeavesHold(p: Params, begun: State, key: PairKey, sight: Sight, again: bool) {
    && sight.shared.None?
    && if !again && key in begun.streaks && begun.streaks[key].last == begun.index - 1
       then
         var before := begun.streaks[key];
         && p.dist((sight.left.0 - before.left.0, sight.left.1 - before.left.1),
                   (sight.right.0 - before.right.0, sight.right.1 - before.right.1)) <= p.maxDisagreement
         && before.count + 1 < p.requiredPairFrames
       else p.requiredPairFrames > 1
  }

  /** A failure that speaks against the two being one, and not just of their not having been seen together. */
  predicate Refutes(reason: Reason) {
    !reason.TimeSkew? && !reason.TooFar? && !reason.NotObserved?
  }

  ghost function FateNext(p: Params, begun: State, input: Input, event: Event, key: PairKey, before: Fate): Fate
    requires InInput(input, event.at)
  {
    if KeyAt(input, event.at) != key then before
    else
      match event
      case Fail(_, reason) =>
        before.(refuted := before.refuted || Refutes(reason), kept := before.kept && !Refutes(reason))
      case Accept(at) =>
        var held := LeavesHold(p, begun, key, SightAt(input, at), before.accepted);
        before.(accepted := true, held := held, kept := before.kept && held)
  }

  ghost function FateIn(p: Params, begun: State, input: Input, events: seq<Event>, key: PairKey): Fate
    requires EventsIn(input, events)
  {
    if events == [] then Fate(false, false, false, true)
    else
      var last := |events| - 1;
      FateNext(p, begun, input, events[last], key, FateIn(p, begun, input, events[..last], key))
  }

  /** What the events have made of the pair's hold. */
  ghost predicate HoldFits(begun: State, s: State, key: PairKey, fate: Fate) {
    && s.index == begun.index
    && (if fate.accepted then
          && (key in s.holds <==> fate.held)
          && (fate.held ==>
                s.holds[key]
                == Hold(if fate.kept && key in begun.holds then begun.holds[key].started else s.index, s.index, None))
        else if fate.refuted then key !in s.holds
        else
          && (key in s.holds <==> key in begun.holds)
          && (key in s.holds ==> SameOrGraced(begun.holds[key], s.holds[key], s.index)))
  }

  ghost predicate SameOrGraced(before: Hold, after: Hold, index: nat) {
    after == before || (before.grace.None? && after == before.(grace := Some(index)))
  }

  lemma {:induction false} AcceptedIsSeen(p: Params, begun: State, input: Input, events: seq<Event>, key: PairKey)
    requires EventsIn(input, events)
    ensures FateIn(p, begun, input, events, key).accepted <==> SightIn(input, events, key).Some?
  {
    if events != [] {
      AcceptedIsSeen(p, begun, input, events[..|events| - 1], key);
    }
  }

  lemma {:induction false} FailuresAccept(p: Params, begun: State, input: Input, events: seq<Event>, key: PairKey)
    requires EventsIn(input, events) && forall n :: 0 <= n < |events| ==> events[n].Fail?
    ensures !FateIn(p, begun, input, events, key).accepted
  {
    if events != [] {
      FailuresAccept(p, begun, input, events[..|events| - 1], key);
    }
  }

  lemma HoldOfOther(s: State, own: PairKey, contradicted: bool, shared: Option<int>, key: PairKey)
    requires own != key
    ensures var after := HoldAccepted(s, own, contradicted, shared);
      && (key in after.holds <==> key in s.holds) && (key in s.holds ==> after.holds[key] == s.holds[key])
      && (key in Release(after, own).holds <==> key in s.holds)
      && (key in s.holds ==> Release(after, own).holds[key] == s.holds[key])
  {
  }

  lemma OtherFits(p: Params, begun: State, s: State, input: Input, event: Event, key: PairKey, fate: Fate)
    requires InInput(input, event.at) && KeyAt(input, event.at) != key && HoldFits(begun, s, key, fate)
    ensures HoldFits(begun, Apply(p, s, input, event), key, fate)
  {
    var own := KeyAt(input, event.at);
    ApplyFacts(p, s, input, event);
    if event.Accept? {
      var sight := SightAt(input, event.at);
      var advanced := Advanced(p, s, own, sight);
      HoldOfOther(advanced, own, Contradicted(p, s, own, sight.left, sight.right), sight.shared, key);
    }
  }

  lemma FailFits(begun: State, s: State, key: PairKey, reason: Reason, fate: Fate)
    requires HoldFits(begun, s, key, fate) && !fate.accepted
    ensures HoldFits(begun, MarkFailed(s, key, reason), key,
                     fate.(refuted := fate.refuted || Refutes(reason), kept := fate.kept && !Refutes(reason)))
  {
  }

  /** Accepting a pair confirms its hold, starts one, or leaves it without. */
  lemma AcceptHolds(p: Params, s: State, key: PairKey, sight: Sight, held: bool)
    requires held <==> sight.shared.None? && !Contradicted(p, s, key, sight.left, sight.right)
                       && StreakFrom(p, s, key, sight).count < p.requiredPairFrames
    ensures var after := AcceptPair(p, s, key, sight.left, sight.right, sight.shared);
      && after.index == s.index && (key in after.holds <==> held)
      && (held ==> after.holds[key] == Hold(if key in s.holds then s.holds[key].started else s.index, s.index, None))
  {
  }

  lemma AcceptFits(p: Params, begun: State, s: State, key: PairKey, sight: Sight, fate: Fate, held: bool)
    requires HoldFits(begun, s, key, fate) && FateSound(fate)
    requires held <==> sight.shared.None? && !Contradicted(p, s, key, sight.left, sight.right)
                       && StreakFrom(p, s, key, sight).count < p.requiredPairFrames
    ensures HoldFits(begun, AcceptPair(p, s, key, sight.left, sight.right, sight.shared), key,
                     fate.(accepted := true, held := held, kept := fate.kept && held))
  {
    AcceptHolds(p, s, key, sight, held);
  }

  ghost predicate FateSound(fate: Fate) {
    && (fate.refuted ==> !fate.kept)
    && (fate.kept && fate.accepted ==> fate.held)
    && (fate.held ==> fate.accepted)
    && (!fate.kept && !fate.accepted ==> fate.refuted)
  }

  /** Whether an acceptance leaves the pair held can be told from the start of the update. */
  lemma LeavesHoldMidway(
    p: Params, begun: State, s: State, key: PairKey, sight: Sight, showing: Option<Showing>)
    requires Moved(p, begun, s, key, showing)
    ensures LeavesHold(p, begun, key, sight, showing.Some?) <==>
      && sight.shared.None? && !Contradicted(p, s, key, sight.left, sight.right)
      && StreakFrom(p, s, key, sight).count < p.requiredPairFrames
  {
    if showing.Some? {
      AgainRestarts(p, s, key, sight);
    } else {
      SameStart(p, begun, s, key, sight);
      assert Consecutive(begun, key) == Consecutive(s, key);
    }
  }

  lemma {:induction false} FateOfEvents(p: Params, begun: State, input: Input, events: seq<Event>, key: PairKey)
    requires EventsIn(input, events) && AcceptsLast(events)
    ensures FateSound(FateIn(p, begun, input, events, key))
    ensures HoldFits(begun, ApplyAll(p, begun, input, events), key, FateIn(p, begun, input, events, key))
  {
    if events != [] {
      var front, last := events[..|events| - 1], events[|events| - 1];
      var s, fate := ApplyAll(p, begun, input, front), FateIn(p, begun, input, front, key);
      FateOfEvents(p, begun, input, front, key);
      if KeyAt(input, last.at) != key {
        OtherFits(p, begun, s, input, last, key, fate);
      } else if last.Fail? {
        FailuresAccept(p, begun, input, front, key);
        FailFits(begun, s, key, last.reason, fate);
      } else {
        var sight := SightAt(input, last.at);
        StreakAfter(p, begun, input, front, key);
        AcceptedIsSeen(p, begun, input, front, key);
        LeavesHoldMidway(p, begun, s, key, sight, SightIn(input, front, key));
        AcceptFits(p, begun, s, key, sight, fate, LeavesHold(p, begun, key, sight, fate.accepted));
      }
    }
  }

  ghost function FateOf(p: Params, s: State, input: Input, key: PairKey): Fate {
    EventsInInput(p, input);
    FateIn(p, Begin(s), input, EventsOf(p, input), key)
  }

  lemma FateOfUpdate(p: Params, s: State, input: Input, key: PairKey)
    ensures FateSound(FateOf(p, s, input, key))
    ensures HoldFits(Begin(s), Folded(p, s, input), key, FateOf(p, s, input, key))
    ensures key in Update(p, s, input).holds <==>
      key in Finish(p, Folded(p, s, input), Evaluated(input)).holds
  {
    EventsInInput(p, input);
    EventsAcceptLast(p, input);
    FateOfEvents(p, Begin(s), input, EventsOf(p, input), key);
  }

  /** What a single event makes of a pair's hold. */
  ghost function FateBy(p: Params, begun: State, input: Input, event: Event): Fate
    requires InInput(input, event.at)
  {
    match event
    case Fail(_, reason) => Fate(Refutes(reason), false, false, !Refutes(reason))
    case Accept(at) =>
      var held := LeavesHold(p, begun, KeyAt(input, at), SightAt(input, at), false);
      Fate(false, true, held, held)
  }

  lemma {:induction false} FateOfNone(p: Params, begun: State, input: Input, events: seq<Event>, key: PairKey)
    requires EventsIn(input, events)
    requires forall m :: 0 <= m < |events| ==> KeyAt(input, events[m].at) != key
    ensures FateIn(p, begun, input, events, key) == Fate(false, false, false, true)
  {
    if events != [] {
      FateOfNone(p, begun, input, events[..|events| - 1], key);
    }
  }

  lemma {:induction false} FateOfSingle(p: Params, begun: State, input: Input, events: seq<Event>, n: nat)
    requires EventsIn(input, events) && OncePerKey(input, events) && n < |events|
    ensures FateIn(p, begun, input, events, KeyAt(input, events[n].at)) == FateBy(p, begun, input, events[n])
  {
    var front := events[..|events| - 1];
    if n == |front| {
      FateOfNone(p, begun, input, front, KeyAt(input, events[n].at));
    } else {
      FateOfSingle(p, begun, input, front, n);
    }
  }

  /** With distinct tracks one event decides: the pair's own, whatever the order of the others. */
  lemma OneEventDecides(p: Params, s: State, input: Input, key: PairKey) returns (n: nat)
    requires DistinctTracks(input) && key in Evaluated(input)
    ensures EventsIn(input, EventsOf(p, input)) && n < |EventsOf(p, input)|
    ensures KeyAt(input, EventsOf(p, input)[n].at) == key
    ensures FateOf(p, s, input, key) == FateBy(p, Begin(s), input, EventsOf(p, input)[n])
  {
    OneEventPerPair(p, input);
    n :| 0 <= n < |EventsOf(p, input)| && KeyAt(input, EventsOf(p, input)[n].at) == key;
    FateOfSingle(p, Begin(s), input, EventsOf(p, input), n);
  }

  /** What the end of an update leaves of a hold. */
  lemma FinishHold(p: Params, s: State, evaluated: set<PairKey>, key: PairKey)
    ensures key in Finish(p, s, evaluated).holds <==>
      && key in s.holds && s.index - s.holds[key].started < p.holdMaxFrames
      && (s.holds[key].grace.Some? ==> s.index - s.holds[key].grace.value <= p.graceFrames)
  {
  }

  /**
   Whatever the memory answers and even with repeated tracks, a hold begins
   exactly when the update accepts the pair and nothing was against holding it
   the last time it did.
   */
  lemma HoldBeginsExactly(p: Params, s: State, input: Input, key: PairKey)
    requires ParamsOk(p) && key !in s.holds
    ensures key in Update(p, s, input).holds <==> FateOf(p, s, input, key).accepted && FateOf(p, s, input, key).held
  {
    FateOfUpdate(p, s, input, key);
    FinishHold(p, Folded(p, s, input), Evaluated(input), key);
  }

  /**
   And a pair that was held is held no more exactly when it was accepted and
   something was against holding it the last time; when, accepted or not, it
   was held throughout and has reached the cap; or when it was not accepted and
   a failure found against it or its grace has run out.
   */
  lemma HoldEndsExactly(p: Params, s: State, input: Input, key: PairKey)
    requires ParamsOk(p) && key in s.holds
    ensures var hold, now, fate := s.holds[key], s.index + 1, FateOf(p, s, input, key);
      key !in Update(p, s, input).holds <==>
        if fate.accepted then !fate.held || (fate.kept && now - hold.started >= p.holdMaxFrames)
        else
          || fate.refuted || now - hold.started >= p.holdMaxFrames
          || (hold.grace.Some? && now - hold.grace.value > p.graceFrames)
  {
    FateOfUpdate(p, s, input, key);
    FinishHold(p, Folded(p, s, input), Evaluated(input), key);
  }
}
