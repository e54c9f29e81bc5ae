/** Which of several equally good pairings is chosen. */
module PairingTies {
  import opened OneToOnePairing

  /** Both pair this left observation with the same right one, or neither pairs it. */
  ghost predicate SameAt(a: seq<Pair>, b: seq<Pair>, i: nat) {
    forall j: nat :: (i, j) in a <==> (i, j) in b
  }

  /** The second pairs it, and the first not at all or with an earlier one. */
  ghost predicate SoonerAt(a: seq<Pair>, b: seq<Pair>, i: nat) {
    exists j: nat :: (i, j) in b && EarlierAt(a, i, j)
  }

  ghost predicate EarlierAt(a: seq<Pair>, i: nat, j: nat) { forall k: nat :: (i, k) in a ==> k < j }

  /** At the first left observation at which they differ the first one is sooner. */
  ghost predicate SoonerFrom(a: seq<Pair>, b: seq<Pair>, i: nat) {
    SoonerAt(a, b, i) && forall m: nat :: m < i ==> SameAt(a, b, m)
  }

  /** The two are the same pairs, or the first comes first. */
  ghost predicate NotAfter(a: seq<Pair>, b: seq<Pair>) {
    (forall i: nat :: SameAt(a, b, i)) || (exists i: nat :: SoonerFrom(a, b, i))
  }

  ghost predicate AsGood(b: Best, ps: seq<Pair>, costs: Costs)
    requires Matching(ps, costs)
  {
    b.count == |ps| && b.total == Total(ps, costs)
  }

  ghost predicate StartsFrom(ps: seq<Pair>, i: nat) { forall p :: p in ps ==> i <= p.0 }

  lemma AvailableStarts(ps: seq<Pair>, right: nat, i: nat, mask: nat)
    requires Available(ps, right, i, mask)
    ensures StartsFrom(ps, i)
  {
  }

  /** Putting the same pair in front of both keeps their order. */
  lemma FrontKeepsOrder(i: nat, j: nat, a: seq<Pair>, b: seq<Pair>, a': seq<Pair>, b': seq<Pair>)
    requires NotAfter(a, b) && StartsFrom(a, i + 1) && StartsFrom(b, i + 1)
    requires forall p :: p in a' <==> p == (i, j) || p in a
    requires forall p :: p in b' <==> p == (i, j) || p in b
    ensures NotAfter(a', b')
  {
    forall m: nat | SameAt(a, b, m) ensures SameAt(a', b', m) {
      forall k: nat ensures (m, k) in a' <==> (m, k) in b' {
        assert (m, k) in a <==> (m, k) in b;
      }
    }
    if n: nat :| SoonerFrom(a, b, n) {
      var k: nat :| (n, k) in b && EarlierAt(a, n, k);
      assert n != i;
      assert (n, k) in b' && EarlierAt(a', n, k);
      assert SoonerFrom(a', b', n);
    }
  }

  /** The running best pairs `i` with one of those tried, if with any. */
  lemma {:induction false} ScanTried(costs: Costs, left: nat, right: nat, i: nat, mask: nat, j: nat)
    requires InRange(costs, left, right) && i < left && j <= right
    ensures EarlierAt(Scan(costs, left, right, i, mask, j).pairs, i, j)
    decreases j
  {
    if j == 0 {
      SolveHonest(costs, left, right, i + 1, mask);
      AvailableStarts(Solve(costs, left, right, i + 1, mask).pairs, right, i + 1, mask);
    } else {
      ScanTried(costs, left, right, i, mask, j - 1);
      if (i, j - 1) in costs && !HasBit(mask, j - 1) {
        SolveHonest(costs, left, right, i + 1, SetBit(mask, j - 1));
        AvailableStarts(Solve(costs, left, right, i + 1, SetBit(mask, j - 1)).pairs, right, i + 1, SetBit(mask, j - 1));
      }
    }
  }

  /** The rest of a pairing once the pair of `i` is taken out of it. */
  lemma RestAvailable(costs: Costs, right: nat, i: nat, mask: nat, j: nat, ps: seq<Pair>, k: nat)
    returns (rest: seq<Pair>)
    requires Matching(ps, costs) && Available(ps, right, i, mask) && k < |ps| && ps[k] == (i, j)
    ensures rest == Without(ps, k) && Matching(rest, costs) && Available(rest, right, i + 1, SetBit(mask, j))
    ensures Total(ps, costs) == costs[(i, j)] + Total(rest, costs) && |rest| == |ps| - 1
    ensures forall p :: p in ps <==> p == (i, j) || p in rest
  {
    rest := Without(ps, k);
    TotalWithout(ps, k, costs);
    OneToOneWithout(ps, k);
    forall n | 0 <= n < |rest|
      ensures i + 1 <= rest[n].0 && rest[n].1 < right && !HasBit(SetBit(mask, j), rest[n].1)
    {
      assert rest[n] in rest;
      BitAfterSet(mask, j, rest[n].1);
    }
    assert ps == ps[..k] + [ps[k]] + ps[k + 1..];
  }

  /** Every pairing as good as the solver's that it could have chosen comes no sooner. */
  lemma {:induction false} SolveFirst(costs: Costs, left: nat, right: nat, i: nat, mask: nat, ps: seq<Pair>)
    requires InRange(costs, left, right) && Matching(ps, costs) && Available(ps, right, i, mask)
    requires AsGood(Solve(costs, left, right, i, mask), ps, costs)
    ensures NotAfter(Solve(costs, left, right, i, mask).pairs, ps)
    decreases left - i, right + 1
  {
    if i >= left {
      assert ps == [];
      assert forall m: nat :: SameAt([], ps, m);
    } else {
      ScanFirst(costs, left, right, i, mask, right, ps);
    }
  }

  lemma {:induction false} ScanFirst(costs: Costs, left: nat, right: nat, i: nat, mask: nat, j: nat, ps: seq<Pair>)
    requires InRange(costs, left, right) && i < left && j <= right
    requires Matching(ps, costs) && Available(ps, right, i, mask)
    requires forall k :: 0 <= k < |ps| && ps[k].0 == i ==> ps[k].1 < j
    requires AsGood(Scan(costs, left, right, i, mask, j), ps, costs)
    ensures NotAfter(Scan(costs, left, right, i, mask, j).pairs, ps)
    decreases left - i, j
  {
    if j == 0 {
      SolveFirst(costs, left, right, i + 1, mask, ps);
    } else if (i, j - 1) in ps {
      if Scan(costs, left, right, i, mask, j) == Scan(costs, left, right, i, mask, j - 1) {
        TriedIsSooner(costs, left, right, i, mask, j, ps);
      } else {
        var k :| 0 <= k < |ps| && ps[k] == (i, j - 1);
        var rest := RestAvailable(costs, right, i, mask, j - 1, ps, k);
        assert (i, j - 1) in costs && !HasBit(mask, j - 1);
        assert Scan(costs, left, right, i, mask, j) == Take(costs, left, right, i, mask, j - 1);
        SolveFirst(costs, left, right, i + 1, SetBit(mask, j - 1), rest);
        TakeFirst(costs, left, right, i, mask, j - 1, ps, rest);
      }
    } else {
      NotBetter(costs, left, right, i, mask, j, ps);
      ScanFirst(costs, left, right, i, mask, j - 1, ps);
    }
  }

  lemma TakeFirst(
    costs: Costs, left: nat, right: nat, i: nat, mask: nat, j: nat, ps: seq<Pair>, rest: seq<Pair>)
    requires InRange(costs, left, right) && i < left && (i, j) in costs
    requires Available(rest, right, i + 1, SetBit(mask, j)) && forall p :: p in ps <==> p == (i, j) || p in rest
    requires NotAfter(Solve(costs, left, right, i + 1, SetBit(mask, j)).pairs, rest)
    ensures NotAfter(Take(costs, left, right, i, mask, j).pairs, ps)
  {
    var chosen := Solve(costs, left, right, i + 1, SetBit(mask, j)).pairs;
    SolveHonest(costs, left, right, i + 1, SetBit(mask, j));
    AvailableStarts(chosen, right, i + 1, SetBit(mask, j));
    AvailableStarts(rest, right, i + 1, SetBit(mask, j));
    FrontKeepsOrder(i, j, chosen, rest, [(i, j)] + chosen, ps);
  }

  /** A pairing as good as the running best that does not use the one tried last was matched before. */
  lemma NotBetter(costs: Costs, left: nat, right: nat, i: nat, mask: nat, j: nat, ps: seq<Pair>)
    requires InRange(costs, left, right) && i < left && 0 < j <= right
    requires Matching(ps, costs) && Available(ps, right, i, mask) && (i, j - 1) !in ps
    requires forall k :: 0 <= k < |ps| && ps[k].0 == i ==> ps[k].1 < j
    requires AsGood(Scan(costs, left, right, i, mask, j), ps, costs)
    ensures forall k :: 0 <= k < |ps| && ps[k].0 == i ==> ps[k].1 < j - 1
    ensures Scan(costs, left, right, i, mask, j) == Scan(costs, left, right, i, mask, j - 1)
  {
    forall k | 0 <= k < |ps| && ps[k].0 == i ensures ps[k].1 < j - 1 {
      assert ps[k] in ps && ps[k] != (i, j - 1);
    }
    ScanOptimal(costs, left, right, i, mask, j - 1, ps);
  }

  /** What was best before comes sooner than a pairing that gives `i` the one tried last. */
  lemma TriedIsSooner(costs: Costs, left: nat, right: nat, i: nat, mask: nat, j: nat, ps: seq<Pair>)
    requires InRange(costs, left, right) && i < left && 0 < j <= right
    requires Available(ps, right, i, mask) && (i, j - 1) in ps
    ensures NotAfter(Scan(costs, left, right, i, mask, j - 1).pairs, ps)
  {
    var before := Scan(costs, left, right, i, mask, j - 1).pairs;
    ScanTried(costs, left, right, i, mask, j - 1);
    ScanHonest(costs, left, right, i, mask, j - 1);
    AvailableStarts(before, right, i, mask);
    AvailableStarts(ps, right, i, mask);
    assert (i, j - 1) in ps && EarlierAt(before, i, j - 1);
    assert SoonerFrom(before, ps, i);
  }

  lemma FirstOfLeft(left: nat, right: nat, entries: seq<Candidate>, ps: seq<Pair>)
    requires WellFormed(left, right, entries) && right <= left && right <= 18
    requires Matching(ps, CostsOf(entries))
    requires var best := BestPairs(left, right, entries);
      Matching(best, CostsOf(entries)) && |ps| == |best|
      && Total(ps, CostsOf(entries)) == Total(best, CostsOf(entries))
    ensures NotAfter(BestPairs(left, right, entries), ps)
  {
    var costs := CostsOf(entries);
    if left == 0 || right == 0 || entries == [] {
      assert ps == [];
      assert forall m: nat :: SameAt([], ps, m);
    } else {
      CostsInRange(left, right, entries);
      SolveHonest(costs, left, right, 0, 0);
      forall k | 0 <= k < |ps| ensures ps[k].1 < right && !HasBit(0, ps[k].1) {
        assert ps[k] in costs;
        ZeroHasNoBit(ps[k].1);
      }
      SolveFirst(costs, left, right, 0, 0, ps);
    }
  }

  lemma MirroredMatching(entries: seq<Candidate>, ps: seq<Pair>)
    requires DistinctPairs(entries) && Matching(ps, CostsOf(entries))
    ensures Matching(SwapAll(ps), CostsOf(SwapEntries(entries)))
    ensures Total(SwapAll(ps), CostsOf(SwapEntries(entries))) == Total(ps, CostsOf(entries))
  {
    var mirrored := SwapAll(ps);
    SwappedCosts(entries);
    forall i, j | 0 <= i < j < |ps| ensures mirrored[i].0 != mirrored[j].0 && mirrored[i].1 != mirrored[j].1 {
      assert ps[i].0 != ps[j].0 && ps[i].1 != ps[j].1;
    }
    SwapKeepsTotal(ps, CostsOf(entries), CostsOf(SwapEntries(entries)));
  }

  lemma SwapBack(ps: seq<Pair>)
    ensures SwapAll(SwapAll(ps)) == ps
  {
  }

  /**
   Of several pairings that nothing beats the exact solver chooses the first:
   taking the people of the larger side in order, the left one where both are
   equally large, somebody left alone comes before somebody paired, and an
   earlier partner before a later one.
   */
  lemma FirstOfTheBest(left: nat, right: nat, entries: seq<Candidate>, ps: seq<Pair>)
    requires WellFormed(left, right, entries) && (left <= 18 || right <= 18)
    requires Matching(ps, CostsOf(entries))
    requires forall other :: Matching(other, CostsOf(entries)) ==> AtLeastAsGood(ps, other, CostsOf(entries))
    ensures var best := BestPairs(left, right, entries);
      if left >= right then NotAfter(best, ps) else NotAfter(SwapAll(best), SwapAll(ps))
  {
    var best := BestPairs(left, right, entries);
    BestPairsOptimal(left, right, entries, ps);
    if left >= right {
      FirstOfLeft(left, right, entries, ps);
    } else if left == 0 || entries == [] {
      CandidateBound(entries, left, right, ps);
      assert SwapAll(ps) == [];
      assert forall m: nat :: SameAt(SwapAll(best), [], m);
    } else {
      var inner := BestPairs(right, left, SwapEntries(entries));
      SwapBack(inner);
      SwappedCosts(entries);
      MirroredMatching(entries, ps);
      MirroredMatching(entries, best);
      FirstOfLeft(right, left, SwapEntries(entries), SwapAll(ps));
    }
  }
}
