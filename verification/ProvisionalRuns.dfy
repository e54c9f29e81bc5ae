/** The streaks of the provisional coordinator, and what they lead to, over whole runs. */
module ProvisionalRuns {
  import opened Observations
  import opened Options
  import opened ProvisionalPairs

  ghost function Run(p: Params, inputs: seq<Input>): State {
    if inputs == [] then INITIAL
    else Update(p, Run(p, inputs[..|inputs| - 1]), inputs[|inputs| - 1])
  }

  // --- What a run showed of one pair ---------------------------------------

  /** A pair was accepted: the two points, and the identity both tracks share already. */
  datatype Sight = Sight(left: Point, right: Point, shared: Option<int>)

  ghost function SightAt(input: Input, at: OneToOnePairing.Pair): Sight
    requires InInput(input, at)
  {
    Sight(input.left[at.0].point, input.right[at.1].point, input.answers.shared(at.0, at.1))
  }

  ghost predicate AcceptsKey(input: Input, event: Event, key: PairKey)
    requires InInput(input, event.at)
  {
    event.Accept? && KeyAt(input, event.at) == key
  }

  /**
   What one update showed of a pair: how it was first and last accepted,
   whether it was accepted again because a camera reports one track twice, and
   whether such a further acceptance found no shared identity.
   */
  datatype Showing = Showing(first: Sight, last: Sight, again: bool, asked: bool)

  ghost function ShownOnce(sight: Sight): Showing { Showing(sight, sight, false, false) }

  ghost function ShownAgain(before: Showing, sight: Sight): Showing {
    Showing(before.first, sight, true, before.asked || sight.shared.None?)
  }

  /** How the key was accepted among the events, if it was. */
  ghost function SightIn(input: Input, events: seq<Event>, key: PairKey): Option<Showing>
    requires EventsIn(input, events)
  {
    if events == [] then None
    else
      var before, event := SightIn(input, events[..|events| - 1], key), events[|events| - 1];
      if !AcceptsKey(input, event, key) then before
      else
        var sight := SightAt(input, event.at);
        Some(if before.None? then ShownOnce(sight) else ShownAgain(before.value, sight))
  }

  ghost function Seen(p: Params, input: Input, key: PairKey): Option<Showing> {
    EventsInInput(p, input);
    SightIn(input, EventsOf(p, input), key)
  }

  type History = seq<Option<Showing>>

  /** The pair's sights, one entry per update. */
  ghost function HistoryOf(p: Params, inputs: seq<Input>, key: PairKey): History {
    if inputs == [] then []
    else HistoryOf(p, inputs[..|inputs| - 1], key) + [Seen(p, inputs[|inputs| - 1], key)]
  }

  /** Both cameras saw the person move the same way, up to the limit. */
  ghost predicate Agreeing(p: Params, before: Sight, after: Sight) {
    p.dist((after.left.0 - before.left.0, after.left.1 - before.left.1),
           (after.right.0 - before.right.0, after.right.1 - before.right.1)) <= p.maxDisagreement
  }

  /** Update `n` accepted the pair, as did the one before, and the motions agree. */
  ghost predicate Joined(p: Params, history: History, n: nat)
    requires n < |history|
  {
    && n > 0 && history[n - 1].Some? && history[n].Some?
    && Agreeing(p, history[n - 1].value.last, history[n].value.first)
  }

  /**
   How many of the latest updates accepted the pair one after the other, each
   in agreement with the motion since the one before, when the last of them
   first accepts it. An update that accepts the pair twice begins anew.
   */
  ghost function TrueStreak(p: Params, history: History): nat
    decreases |history|, 0
  {
    if history == [] || history[|history| - 1].None? then 0
    else if Joined(p, history, |history| - 1) then KeptStreak(p, history[..|history| - 1]) + 1
    else 1
  }

  /** What is left of it at the end of the update. */
  ghost function KeptStreak(p: Params, history: History): nat
    decreases |history|, 1
  {
    if history != [] && history[|history| - 1].Some? && history[|history| - 1].value.again then 1
    else TrueStreak(p, history)
  }

  /**
   The last `k` updates all accepted the pair, each agreeing with the one
   before, and none between the first and the last of them accepted it twice.
   */
  ghost predicate HeldFor(p: Params, history: History, k: nat) {
    && k <= |history|
    && (forall n :: |history| - k <= n < |history| ==> history[n].Some?)
    && (forall n :: |history| - k < n < |history| ==> Joined(p, history, n))
    && (forall n :: |history| - k < n < |history| - 1 ==> !history[n].value.again)
  }

  lemma HeldForStep(p: Params, history: History, k: nat)
    requires history != [] && k > 0
    ensures var last := |history| - 1;
      HeldFor(p, history, k)
      <==> && history[last].Some? && HeldFor(p, history[..last], k - 1)
           && (k > 1 ==> Joined(p, history, last)) && (k > 2 ==> !history[last - 1].value.again)
  {
    var last := |history| - 1;
    var front := history[..last];
    forall n | 0 <= n < last ensures Joined(p, front, n) == Joined(p, history, n) && front[n] == history[n] {}
  }

  /** The counter is the longest such run, whatever the length asked about. */
  lemma {:induction false} TrueStreakIsLongest(p: Params, history: History, k: nat)
    ensures HeldFor(p, history, k) <==> k <= TrueStreak(p, history)
  {
    if history != [] && k > 0 {
      HeldForStep(p, history, k);
      TrueStreakIsLongest(p, history[..|history| - 1], k - 1);
      if k > 1 {
        assert Joined(p, history, |history| - 1) ==> history[|history| - 1].Some?;
      }
    }
  }

  // --- One update, key by key ----------------------------------------------

  /** The streak a sight leads to, from the state at the start of the update. */
  ghost function StreakFrom(p: Params, begun: State, key: PairKey, sight: Sight): Streak {
    AdvancedStreak(p, begun, key, sight.left, sight.right)
  }

  ghost predicate SameStreak(a: State, b: State, key: PairKey) {
    (key in a.streaks <==> key in b.streaks) && (key in a.streaks ==> a.streaks[key] == b.streaks[key])
  }

  /** A creation is due: no shared identity, no contradiction, and a long enough streak. */
  ghost predicate Due(p: Params, begun: State, key: PairKey, sight: Sight) {
    && sight.shared.None?
    && !Contradicted(p, begun, key, sight.left, sight.right)
    && StreakFrom(p, begun, key, sight).count >= p.requiredPairFrames
  }

  ghost predicate OnlyHoldsDiffer(a: State, b: State) {
    a.index == b.index && a.streaks == b.streaks && a.created == b.created
  }

  lemma FailFacts(s: State, key: PairKey, reason: Reason)
    ensures OnlyHoldsDiffer(s, MarkFailed(s, key, reason))
  {
  }

  lemma HoldAcceptedFacts(s: State, key: PairKey, contradicted: bool, shared: Option<int>)
    ensures OnlyHoldsDiffer(s, HoldAccepted(s, key, contradicted, shared))
  {
    FailFacts(s, key, MovementDisagreement);
  }

  /** The state after the streak of an accepted pair has advanced, before its hold is touched. */
  ghost function Advanced(p: Params, s: State, key: PairKey, sight: Sight): State {
    s.(streaks := s.streaks[key := StreakFrom(p, s, key, sight)])
  }

  lemma AcceptFacts(p: Params, s: State, key: PairKey, sight: Sight)
    ensures var after := AcceptPair(p, s, key, sight.left, sight.right, sight.shared);
      && after.index == s.index
      && after.streaks == s.streaks[key := StreakFrom(p, s, key, sight)]
      && after.created == s.created
           + (if Due(p, s, key, sight) then [Creation(s.index, key, StreakFrom(p, s, key, sight).count)] else [])
  {
    var advanced := Advanced(p, s, key, sight);
    HoldAcceptedFacts(advanced, key, Contradicted(p, s, key, sight.left, sight.right), sight.shared);
  }

  lemma ApplyFacts(p: Params, s: State, input: Input, event: Event)
    requires InInput(input, event.at)
    ensures var after, key, sight := Apply(p, s, input, event), KeyAt(input, event.at), SightAt(input, event.at);
      if event.Fail? then OnlyHoldsDiffer(s, after)
      else
        && after.index == s.index
        && after.streaks == s.streaks[key := StreakFrom(p, s, key, sight)]
        && after.created == s.created
             + (if Due(p, s, key, sight) then [Creation(s.index, key, StreakFrom(p, s, key, sight).count)] else [])
  {
    if event.Fail? {
      FailFacts(s, KeyAt(input, event.at), event.reason);
    } else {
      AcceptFacts(p, s, KeyAt(input, event.at), SightAt(input, event.at));
    }
  }

  /** The streak an update leaves: a second acceptance finds the first one's streak and starts anew. */
  ghost function StreakShown(p: Params, begun: State, key: PairKey, showing: Showing): Streak {
    if showing.again then Streak(1, begun.index, showing.last.left, showing.last.right)
    else StreakFrom(p, begun, key, showing.first)
  }

  /** What an update did to the streak of one key, given how the key was accepted. */
  ghost predicate Moved(p: Params, begun: State, after: State, key: PairKey, showing: Option<Showing>) {
    && after.index == begun.index
    && (showing.None? ==> SameStreak(begun, after, key))
    && (showing.Some? ==> key in after.streaks && after.streaks[key] == StreakShown(p, begun, key, showing.value))
  }

  /** A pair accepted already in this update is never contradicted and its streak is one again. */
  lemma AgainRestarts(p: Params, s: State, key: PairKey, sight: Sight)
    requires key in s.streaks && s.streaks[key].last == s.index
    ensures StreakFrom(p, s, key, sight) == Streak(1, s.index, sight.left, sight.right)
    ensures !Contradicted(p, s, key, sight.left, sight.right)
  {
  }

  /** After some events: a key that was accepted has its new streak, every other is as it was. */
  lemma {:induction false} StreakAfter(p: Params, begun: State, input: Input, events: seq<Event>, key: PairKey)
    requires EventsIn(input, events)
    ensures Moved(p, begun, ApplyAll(p, begun, input, events), key, SightIn(input, events, key))
  {
    if events != [] {
      var front, last := events[..|events| - 1], events[|events| - 1];
      var before := ApplyAll(p, begun, input, front);
      StreakAfter(p, begun, input, front, key);
      ApplyFacts(p, before, input, last);
      if AcceptsKey(input, last, key) {
        if SightIn(input, front, key).Some? {
          AgainRestarts(p, before, key, SightAt(input, last.at));
        } else {
          SameStart(p, begun, before, key, SightAt(input, last.at));
        }
      }
    }
  }

  /** The request the update would make for this key, given how the key was accepted. */
  ghost predicate Requested(p: Params, begun: State, showing: Option<Showing>, c: Creation) {
    && showing.Some? && c.update == begun.index
    && (|| (Due(p, begun, c.key, showing.value.first)
            && c.streak == StreakFrom(p, begun, c.key, showing.value.first).count)
        || (showing.value.asked && p.requiredPairFrames <= 1 && c.streak == 1))
  }

  ghost predicate CreatesJust(p: Params, begun: State, after: State, showing: Option<Showing>, c: Creation) {
    c in after.created <==> c in begun.created || Requested(p, begun, showing, c)
  }

  /** What one more acceptance of the pair adds to the requests. */
  lemma CreatedNext(p: Params, begun: State, before: State, after: State, key: PairKey, shown: Option<Showing>,
                    sight: Sight, c: Creation)
    requires Moved(p, begun, before, key, shown) && c.key == key
    requires CreatesJust(p, begun, before, shown, c)
    requires after.created == before.created
      + (if Due(p, before, key, sight)
         then [Creation(before.index, key, StreakFrom(p, before, key, sight).count)] else [])
    ensures CreatesJust(p, begun, after,
                        Some(if shown.None? then ShownOnce(sight) else ShownAgain(shown.value, sight)), c)
  {
    if shown.Some? {
      AgainRestarts(p, before, key, sight);
    } else {
      SameStart(p, begun, before, key, sight);
    }
  }

  /** The requests of an update are exactly those that are due. */
  lemma {:induction false} CreatedAfter(p: Params, begun: State, input: Input, events: seq<Event>, c: Creation)
    requires EventsIn(input, events)
    ensures CreatesJust(p, begun, ApplyAll(p, begun, input, events), SightIn(input, events, c.key), c)
  {
    if events != [] {
      var front, last := events[..|events| - 1], events[|events| - 1];
      var before := ApplyAll(p, begun, input, front);
      CreatedAfter(p, begun, input, front, c);
      ApplyFacts(p, before, input, last);
      if AcceptsKey(input, last, c.key) {
        StreakAfter(p, begun, input, front, c.key);
        CreatedNext(p, begun, before, ApplyAll(p, begun, input, events), c.key, SightIn(input, front, c.key),
                    SightAt(input, last.at), c);
      }
    }
  }

  /** Only the pair's own streak and the update number decide what its acceptance does. */
  lemma SameStart(p: Params, a: State, b: State, key: PairKey, sight: Sight)
    requires a.index == b.index && SameStreak(a, b, key)
    ensures Due(p, a, key, sight) == Due(p, b, key, sight)
    ensures StreakFrom(p, a, key, sight) == StreakFrom(p, b, key, sight)
  {
  }

  lemma FinishKeeps(p: Params, s: State, evaluated: set<PairKey>)
    ensures OnlyHoldsDiffer(s, Finish(p, s, evaluated))
  {
  }

  lemma DigestFolds(p: Params, s: State, input: Input)
    ensures OnlyHoldsDiffer(Folded(p, s, input), Digest(p, s, input))
  {
    FinishKeeps(p, Folded(p, s, input), Evaluated(input));
  }

  /** One update up to pruning, for one key. */
  lemma DigestFacts(p: Params, s: State, input: Input, key: PairKey)
    ensures Moved(p, Begin(s), Digest(p, s, input), key, Seen(p, input, key))
  {
    EventsInInput(p, input);
    StreakAfter(p, Begin(s), input, EventsOf(p, input), key);
    DigestFolds(p, s, input);
    MovedStays(p, Begin(s), Folded(p, s, input), Digest(p, s, input), key, Seen(p, input, key));
  }

  lemma MovedStays(p: Params, begun: State, after: State, later: State, key: PairKey, showing: Option<Showing>)
    requires Moved(p, begun, after, key, showing) && OnlyHoldsDiffer(after, later)
    ensures Moved(p, begun, later, key, showing)
  {
  }

  lemma DigestCreates(p: Params, s: State, input: Input, c: Creation)
    ensures CreatesJust(p, Begin(s), Digest(p, s, input), Seen(p, input, c.key), c)
  {
    EventsInInput(p, input);
    CreatedAfter(p, Begin(s), input, EventsOf(p, input), c);
    DigestFolds(p, s, input);
  }

  // --- Streaks over runs ---------------------------------------------------

  /**
   A stored streak is the true one of the history up to the latest update that
   accepted the pair, and an update that accepted it has stored one.
   */
  ghost predicate StreakTrue(p: Params, history: History, key: PairKey, s: State) {
    && s.index == |history|
    && (key in s.streaks ==> StoredTrue(p, history, s.streaks[key]))
    && (history != [] && history[|history| - 1].Some? ==> key in s.streaks)
  }

  ghost predicate StoredTrue(p: Params, history: History, streak: Streak) {
    && 1 <= streak.last <= |history|
    && history[streak.last - 1].Some?
    && (forall m :: streak.last <= m < |history| ==> history[m].None?)
    && var sight := history[streak.last - 1].value.last;
       streak == Streak(KeptStreak(p, history[..streak.last]), streak.last, sight.left, sight.right)
  }

  /** A pair accepted in the latest update, and only such a pair, has a streak of this very update. */
  lemma LatestStreak(p: Params, history: History, key: PairKey, s: State)
    requires StreakTrue(p, history, key, s) && history != []
    ensures var showing := history[|history| - 1];
      && (showing.Some? <==> key in s.streaks && s.streaks[key].last == |history|)
      && (showing.Some? ==>
            s.streaks[key]
            == Streak(KeptStreak(p, history), |history|, showing.value.last.left, showing.value.last.right))
  {
    assert history[..|history|] == history;
    if key in s.streaks {
      assert s.streaks[key].last < |history| ==> history[|history| - 1].None?;
    }
  }

  lemma StoredStays(p: Params, history: History, streak: Streak)
    requires StoredTrue(p, history, streak)
    ensures StoredTrue(p, history + [None], streak)
  {
    assert (history + [None])[..streak.last] == history[..streak.last];
  }

  /** What the first acceptance in the next update makes of the streak. */
  lemma NextStreak(p: Params, history: History, key: PairKey, s: State, showing: Showing)
    requires StreakTrue(p, history, key, s)
    ensures StreakFrom(p, Begin(s), key, showing.first)
         == Streak(TrueStreak(p, history + [Some(showing)]), |history| + 1, showing.first.left, showing.first.right)
  {
    var all := history + [Some(showing)];
    assert all[..|all| - 1] == history;
    if history != [] {
      LatestStreak(p, history, key, s);
      assert all[|all| - 2] == history[|history| - 1];
    }
  }

  /** A pair shown once was shown first and last the same. */
  ghost predicate Coherent(showing: Option<Showing>) {
    showing.Some? && !showing.value.again ==> showing.value.first == showing.value.last
  }

  lemma {:induction false} SightCoherent(input: Input, events: seq<Event>, key: PairKey)
    requires EventsIn(input, events)
    ensures Coherent(SightIn(input, events, key))
  {
    if events != [] {
      SightCoherent(input, events[..|events| - 1], key);
    }
  }

  lemma StreakStep(p: Params, history: History, key: PairKey, s: State, showing: Option<Showing>, after: State)
    requires StreakTrue(p, history, key, s) && Coherent(showing)
    requires Moved(p, Begin(s), after, key, showing)
    ensures StreakTrue(p, history + [showing], key, after)
  {
    var all := history + [showing];
    match showing
    case Some(shown) =>
      NextStreak(p, history, key, s, shown);
      assert all == history + [Some(shown)] && all[..|all|] == all;
    case None =>
      assert all == history + [None];
      if key in s.streaks {
        StoredStays(p, history, s.streaks[key]);
      }
  }

  lemma PruneKeepsTruth(p: Params, history: History, key: PairKey, s: State)
    requires ParamsOk(p) && StreakTrue(p, history, key, s)
    ensures StreakTrue(p, history, key, Prune(p, s))
  {
  }

  /** Over any run of updates every stored streak is the true one. */
  lemma {:induction false} StreaksAreTrue(p: Params, inputs: seq<Input>, key: PairKey)
    requires ParamsOk(p)
    ensures StreakTrue(p, HistoryOf(p, inputs, key), key, Run(p, inputs))
  {
    if inputs != [] {
      var front, last := inputs[..|inputs| - 1], inputs[|inputs| - 1];
      var s, history := Run(p, front), HistoryOf(p, front, key);
      var after, showing := Digest(p, s, last), Seen(p, last, key);
      StreaksAreTrue(p, front, key);
      EventsInInput(p, last);
      SightCoherent(last, EventsOf(p, last), key);
      DigestFacts(p, s, last, key);
      StreakStep(p, history, key, s, showing, after);
      PruneKeepsTruth(p, history + [showing], key, after);
    }
  }

  /** A request is due at the first acceptance in the last update of this history. */
  ghost predicate DueAt(p: Params, history: History) {
    var last := |history| - 1;
    && history != [] && history[last].Some? && history[last].value.first.shared.None?
    && TrueStreak(p, history) >= p.requiredPairFrames
    && (last > 0 && history[last - 1].Some? ==> Joined(p, history, last))
  }

  lemma DueMatches(p: Params, history: History, key: PairKey, s: State, showing: Showing)
    requires StreakTrue(p, history, key, s)
    ensures Due(p, Begin(s), key, showing.first) <==> DueAt(p, history + [Some(showing)])
    ensures StreakFrom(p, Begin(s), key, showing.first).count == TrueStreak(p, history + [Some(showing)])
  {
    var all := history + [Some(showing)];
    NextStreak(p, history, key, s, showing);
    if history != [] {
      LatestStreak(p, history, key, s);
      assert all[|all| - 2] == history[|history| - 1];
    }
  }

  /** Due when the pair was first accepted, or at a repetition, if one update is all that is required. */
  ghost predicate DueWith(p: Params, history: History, streak: nat) {
    || (DueAt(p, history) && streak == TrueStreak(p, history))
    || (history != [] && history[|history| - 1].Some? && history[|history| - 1].value.asked
        && p.requiredPairFrames <= 1 && streak == 1)
  }

  /** What a request in the log says about the pair's history. */
  ghost predicate RightlyCreated(p: Params, history: History, c: Creation) {
    1 <= c.update <= |history| && DueWith(p, history[..c.update], c.streak)
  }

  lemma RightlyCreatedStep(p: Params, history: History, showing: Option<Showing>, c: Creation)
    ensures RightlyCreated(p, history + [showing], c)
       <==> RightlyCreated(p, history, c)
            || (c.update == |history| + 1 && DueWith(p, history + [showing], c.streak))
  {
    var all := history + [showing];
    if c.update <= |history| {
      assert all[..c.update] == history[..c.update];
    } else if c.update == |all| {
      assert all[..c.update] == all;
    }
  }

  /**
   A shared provisional identity is requested exactly when it is due: after an
   update that accepted the pair without contradiction and without a shared
   identity, once the true streak has reached the required number of updates.
   */
  lemma {:induction false} CreationsExactlyWhenDue(p: Params, inputs: seq<Input>, c: Creation)
    requires ParamsOk(p)
    ensures c in Run(p, inputs).created <==> RightlyCreated(p, HistoryOf(p, inputs, c.key), c)
  {
    if inputs != [] {
      var front, last := inputs[..|inputs| - 1], inputs[|inputs| - 1];
      var s, history, showing := Run(p, front), HistoryOf(p, front, c.key), Seen(p, last, c.key);
      CreationsExactlyWhenDue(p, front, c);
      StreaksAreTrue(p, front, c.key);
      DigestCreates(p, s, last, c);
      RightlyCreatedStep(p, history, showing, c);
      RequestedMatches(p, history, s, showing, c);
    }
  }

  lemma RequestedMatches(p: Params, history: History, s: State, showing: Option<Showing>, c: Creation)
    requires StreakTrue(p, history, c.key, s)
    ensures Requested(p, Begin(s), showing, c)
       <==> c.update == |history| + 1 && DueWith(p, history + [showing], c.streak)
  {
    if showing.Some? {
      DueMatches(p, history, c.key, s, showing.value);
      assert history + [showing] == history + [Some(showing.value)];
    }
  }

  /**
   So a request never comes before the required number of consecutive updates
   in which the pair was accepted and moved in agreement.
   */
  lemma NoCreationBeforeStreak(p: Params, inputs: seq<Input>, c: Creation)
    requires ParamsOk(p) && c in Run(p, inputs).created
    ensures var history := HistoryOf(p, inputs, c.key);
      1 <= c.update <= |history| && HeldFor(p, history[..c.update], p.requiredPairFrames)
  {
    CreationsExactlyWhenDue(p, inputs, c);
    TrueStreakIsLongest(p, HistoryOf(p, inputs, c.key)[..c.update], p.requiredPairFrames);
  }

  /** Whenever two updates in a row accept the pair, its two tracks have moved differently in between. */
  ghost predicate Diverging(p: Params, history: History) {
    forall n :: 0 < n < |history| && history[n - 1].Some? && history[n].Some? ==>
      !Agreeing(p, history[n - 1].value.last, history[n].value.first)
  }

  /**
   Two tracks that keep moving differently never get beyond a streak of one,
   and where more than one update is required nothing is ever requested for
   them, however often they are accepted.
   */
  lemma DivergingTracksStayApart(p: Params, inputs: seq<Input>, key: PairKey)
    requires ParamsOk(p) && Diverging(p, HistoryOf(p, inputs, key))
    ensures key in Run(p, inputs).streaks ==> Run(p, inputs).streaks[key].count == 1
    ensures p.requiredPairFrames > 1 ==> forall c :: c in Run(p, inputs).created ==> c.key != key
  {
    var history := HistoryOf(p, inputs, key);
    StreaksAreTrue(p, inputs, key);
    if key in Run(p, inputs).streaks {
      NoStreak(p, history, Run(p, inputs).streaks[key].last);
    }
    if p.requiredPairFrames > 1 {
      forall c | c in Run(p, inputs).created ensures c.key != key {
        CreationsExactlyWhenDue(p, inputs, c);
        if c.key == key {
          NoStreak(p, history, c.update);
        }
      }
    }
  }

  lemma NoStreak(p: Params, history: History, n: nat)
    requires Diverging(p, history) && 0 < n <= |history|
    ensures TrueStreak(p, history[..n]) <= 1 && KeptStreak(p, history[..n]) <= 1
    ensures history[n - 1].Some? ==> KeptStreak(p, history[..n]) == 1
  {
    assert Joined(p, history[..n], n - 1) ==> !Diverging(p, history);
  }

  /** The pair was accepted by one of the last so many updates. */
  ghost predicate AcceptedLately(history: History, updates: nat) {
    exists m :: |history| - updates <= m < |history| && 0 <= m && history[m].Some?
  }

  /** A streak is stored exactly while one of the latest updates, as many as confirm a place, accepted the pair. */
  lemma {:induction false} StoredExactly(p: Params, inputs: seq<Input>, key: PairKey)
    requires ParamsOk(p)
    ensures key in Run(p, inputs).streaks <==> AcceptedLately(HistoryOf(p, inputs, key), p.confirmFrames)
  {
    if inputs != [] {
      var front, last := inputs[..|inputs| - 1], inputs[|inputs| - 1];
      var s, history, showing := Run(p, front), HistoryOf(p, front, key), Seen(p, last, key);
      StoredExactly(p, front, key);
      StreaksAreTrue(p, front, key);
      DigestFacts(p, s, last, key);
      StoredNext(p, s, Digest(p, s, last), history, showing, key);
    }
  }

  lemma StoredNext(p: Params, s: State, after: State, history: History, showing: Option<Showing>, key: PairKey)
    requires ParamsOk(p) && StreakTrue(p, history, key, s) && Moved(p, Begin(s), after, key, showing)
    requires key in s.streaks <==> AcceptedLately(history, p.confirmFrames)
    ensures key in Prune(p, after).streaks <==> AcceptedLately(history + [showing], p.confirmFrames)
  {
    var all := history + [showing];
    if showing.Some? {
      assert all[|all| - 1].Some?;
    } else if key in s.streaks {
      var m := s.streaks[key].last - 1;
      assert all[m].Some? && forall k :: m < k < |all| ==> all[k].None?;
    }
  }
}
