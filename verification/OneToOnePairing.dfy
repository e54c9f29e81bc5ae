/**
 The one-to-one pairing of two cameras' observations: as many pairs as
 possible and, among those, the least total cost. The same algorithm serves
 the fusion pass and the provisional identity coordinator.
 */
module OneToOnePairing {
  import StableSort

  type Pair = (nat, nat)

  /** A candidate pairing with its cost, in the order the caller added it. */
  datatype Candidate = Candidate(pair: Pair, cost: real)

  type Costs = map<Pair, real>

  const MAX_EXACT_SIZE: nat := 18

  /** The dictionary a list of distinct candidates stands for. */
  function CostsOf(entries: seq<Candidate>): Costs {
    if entries == [] then map[]
    else
      var last := entries[|entries| - 1];
      CostsOf(entries[..|entries| - 1])[last.pair := last.cost]
  }

  ghost predicate Lists(entries: seq<Candidate>, p: Pair) {
    exists k :: 0 <= k < |entries| && entries[k].pair == p
  }

  lemma {:induction false} CostsListed(entries: seq<Candidate>, p: Pair)
    ensures p in CostsOf(entries) <==> Lists(entries, p)
  {
    if entries != [] {
      var front, last := entries[..|entries| - 1], |entries| - 1;
      CostsListed(front, p);
      if Lists(front, p) {
        var k :| 0 <= k < |front| && front[k].pair == p;
        assert entries[k].pair == p;
      }
      if Lists(entries, p) && entries[last].pair != p {
        var k :| 0 <= k < |entries| && entries[k].pair == p;
        assert front[k].pair == p;
      }
    }
  }

  ghost predicate DistinctPairs(entries: seq<Candidate>) {
    forall i, j :: 0 <= i < j < |entries| ==> entries[i].pair != entries[j].pair
  }

  lemma {:induction false} CostOfEntry(entries: seq<Candidate>, k: nat)
    requires DistinctPairs(entries) && k < |entries|
    ensures entries[k].pair in CostsOf(entries)
    ensures CostsOf(entries)[entries[k].pair] == entries[k].cost
  {
    var front := entries[..|entries| - 1];
    if k < |front| {
      CostOfEntry(front, k);
      assert front[k] == entries[k];
    }
  }

  /** The pair comes before row `i`, column `j` in the order of the scan. */
  predicate Before(p: Pair, i: nat, j: nat) {
    p.0 < i || (p.0 == i && p.1 < j)
  }

  ghost predicate InOrder(entries: seq<Candidate>, i: nat, j: nat) {
    DistinctPairs(entries) && forall k :: 0 <= k < |entries| ==> Before(entries[k].pair, i, j)
  }

  lemma AppendInOrder(entries: seq<Candidate>, i: nat, j: nat)
    requires InOrder(entries, i, j)
    ensures InOrder(entries, i, j + 1)
    ensures forall cost :: InOrder(entries + [Candidate((i, j), cost)], i, j + 1)
  {
    forall k | 0 <= k < |entries| ensures Before(entries[k].pair, i, j + 1) && entries[k].pair != (i, j) {
      assert Before(entries[k].pair, i, j);
    }
  }

  // --- What a pairing is ---------------------------------------------------

  ghost predicate OneToOne(ps: seq<Pair>) {
    forall i, j :: 0 <= i < j < |ps| ==> ps[i].0 != ps[j].0 && ps[i].1 != ps[j].1
  }

  ghost predicate Matching(ps: seq<Pair>, costs: Costs) {
    && OneToOne(ps)
    && forall k :: 0 <= k < |ps| ==> ps[k] in costs
  }

  ghost function Total(ps: seq<Pair>, costs: Costs): real
    requires forall k :: 0 <= k < |ps| ==> ps[k] in costs
  {
    if ps == [] then 0.0 else costs[ps[0]] + Total(ps[1..], costs)
  }

  /** More pairs first, less total cost second. */
  ghost predicate AtLeastAsGood(a: seq<Pair>, b: seq<Pair>, costs: Costs)
    requires Matching(a, costs) && Matching(b, costs)
  {
    |a| > |b| || (|a| == |b| && Total(a, costs) <= Total(b, costs))
  }

  ghost predicate InRange(costs: Costs, left: nat, right: nat) {
    forall p :: p in costs ==> p.0 < left && p.1 < right
  }

  // --- The mask of used right indices --------------------------------------

  /** `mask & (1 << j) != 0` */
  predicate HasBit(mask: nat, j: nat) {
    if j == 0 then mask % 2 == 1 else HasBit(mask / 2, j - 1)
  }

  /** `mask | (1 << j)` */
  function SetBit(mask: nat, j: nat): nat {
    if j == 0 then (if mask % 2 == 1 then mask else mask + 1)
    else 2 * SetBit(mask / 2, j - 1) + mask % 2
  }

  lemma {:induction false} BitAfterSet(mask: nat, j: nat, k: nat)
    ensures HasBit(SetBit(mask, j), k) <==> k == j || HasBit(mask, k)
  {
    if j > 0 {
      var inner := SetBit(mask / 2, j - 1);
      assert (2 * inner + mask % 2) / 2 == inner;
      assert (2 * inner + mask % 2) % 2 == mask % 2;
      if k > 0 {
        BitAfterSet(mask / 2, j - 1, k - 1);
      }
    } else if k > 0 {
      assert SetBit(mask, 0) / 2 == mask / 2;
    }
  }

  lemma {:induction false} ZeroHasNoBit(k: nat)
    ensures !HasBit(0, k)
  {
    if k > 0 {
      ZeroHasNoBit(k - 1);
    }
  }

  /** A matching pair set meets any set of left indices at most once per index. */
  lemma {:induction false} MeetsAtMost(ps: seq<Pair>, lefts: set<nat>, rights: set<nat>)
    requires OneToOne(ps)
    requires forall k :: 0 <= k < |ps| ==> ps[k].0 in lefts || ps[k].1 in rights
    ensures |ps| <= |lefts| + |rights|
  {
    if ps != [] {
      if ps[0].0 in lefts {
        MeetsAtMost(ps[1..], lefts - {ps[0].0}, rights);
      } else {
        MeetsAtMost(ps[1..], lefts, rights - {ps[0].1});
      }
    }
  }

  // --- The exact solver ----------------------------------------------------

  datatype Best = Best(count: nat, total: real, pairs: seq<Pair>)

  /** Best pairing of the left observations from `i` on, right ones in `mask` being taken. */
  function Solve(costs: Costs, left: nat, right: nat, i: nat, mask: nat): Best
    decreases left - i, right + 1
  {
    if i >= left then Best(0, 0.0, [])
    else Scan(costs, left, right, i, mask, right)
  }

  /** The running best for `i` once the first `j` right observations were tried. */
  function Scan(costs: Costs, left: nat, right: nat, i: nat, mask: nat, j: nat): Best
    requires i < left
    decreases left - i, j
  {
    if j == 0 then Solve(costs, left, right, i + 1, mask)
    else
      var best := Scan(costs, left, right, i, mask, j - 1);
      if (i, j - 1) !in costs || HasBit(mask, j - 1) then best
      else Better(best, Take(costs, left, right, i, mask, j - 1))
  }

  /** Pair `i` with `j` and solve the rest. */
  function Take(costs: Costs, left: nat, right: nat, i: nat, mask: nat, j: nat): Best
    requires i < left && (i, j) in costs
    decreases left - i, 0
  {
    var rest := Solve(costs, left, right, i + 1, SetBit(mask, j));
    Best(rest.count + 1, rest.total + costs[(i, j)], [(i, j)] + rest.pairs)
  }

  function Better(best: Best, candidate: Best): Best {
    if candidate.count > best.count || (candidate.count == best.count && candidate.total < best.total)
    then candidate else best
  }

  /** What the solver may use at a call: left observations from `i` on and free right ones. */
  ghost predicate Available(ps: seq<Pair>, right: nat, i: nat, mask: nat) {
    forall k :: 0 <= k < |ps| ==> i <= ps[k].0 && ps[k].1 < right && !HasBit(mask, ps[k].1)
  }

  ghost predicate Honest(b: Best, costs: Costs, right: nat, i: nat, mask: nat) {
    && Matching(b.pairs, costs)
    && Available(b.pairs, right, i, mask)
    && b.count == |b.pairs|
    && b.total == Total(b.pairs, costs)
  }

  ghost predicate NotBeatenBy(b: Best, ps: seq<Pair>, costs: Costs)
    requires Matching(ps, costs)
  {
    b.count > |ps| || (b.count == |ps| && b.total <= Total(ps, costs))
  }

  lemma {:induction false} SolveHonest(costs: Costs, left: nat, right: nat, i: nat, mask: nat)
    requires InRange(costs, left, right)
    ensures Honest(Solve(costs, left, right, i, mask), costs, right, i, mask)
    decreases left - i, right + 1
  {
    if i < left {
      ScanHonest(costs, left, right, i, mask, right);
    }
  }

  lemma {:induction false} ScanHonest(costs: Costs, left: nat, right: nat, i: nat, mask: nat, j: nat)
    requires InRange(costs, left, right) && i < left && j <= right
    ensures Honest(Scan(costs, left, right, i, mask, j), costs, right, i, mask)
    decreases left - i, j
  {
    if j == 0 {
      SolveHonest(costs, left, right, i + 1, mask);
    } else {
      ScanHonest(costs, left, right, i, mask, j - 1);
      if (i, j - 1) in costs && !HasBit(mask, j - 1) {
        SolveHonest(costs, left, right, i + 1, SetBit(mask, j - 1));
        TakeHonest(costs, left, right, i, mask, j - 1);
      }
    }
  }

  lemma TakeHonest(costs: Costs, left: nat, right: nat, i: nat, mask: nat, j: nat)
    requires i < left && j < right && (i, j) in costs && !HasBit(mask, j)
    requires Honest(Solve(costs, left, right, i + 1, SetBit(mask, j)), costs, right, i + 1, SetBit(mask, j))
    ensures Honest(Take(costs, left, right, i, mask, j), costs, right, i, mask)
  {
    var rest := Solve(costs, left, right, i + 1, SetBit(mask, j)).pairs;
    forall k | 0 <= k < |rest| ensures !HasBit(mask, rest[k].1) && rest[k].1 != j {
      BitAfterSet(mask, j, rest[k].1);
    }
    assert ([(i, j)] + rest)[1..] == rest;
  }

  function Without(ps: seq<Pair>, k: nat): seq<Pair>
    requires k < |ps|
  {
    ps[..k] + ps[k + 1..]
  }

  lemma {:induction false} TotalWithout(ps: seq<Pair>, k: nat, costs: Costs)
    requires k < |ps| && forall n :: 0 <= n < |ps| ==> ps[n] in costs
    ensures forall n :: 0 <= n < |Without(ps, k)| ==> Without(ps, k)[n] in costs
    ensures Total(ps, costs) == costs[ps[k]] + Total(Without(ps, k), costs)
  {
    if k == 0 {
      assert Without(ps, 0) == ps[1..];
    } else {
      var rest := Without(ps[1..], k - 1);
      TotalWithout(ps[1..], k - 1, costs);
      assert Without(ps, k) == [ps[0]] + rest;
      assert Without(ps, k)[1..] == rest;
    }
  }

  lemma OneToOneWithout(ps: seq<Pair>, k: nat)
    requires OneToOne(ps) && k < |ps|
    ensures OneToOne(Without(ps, k))
    ensures forall p :: p in Without(ps, k) ==> p in ps && p.0 != ps[k].0 && p.1 != ps[k].1
  {
    var rest := Without(ps, k);
    forall n | 0 <= n < |rest|
      ensures rest[n] == ps[if n < k then n else n + 1] && rest[n].0 != ps[k].0 && rest[n].1 != ps[k].1
    {
    }
  }

  function Range(lo: nat, hi: nat): (s: set<nat>)
    ensures forall x :: x in s <==> lo <= x < hi
    decreases hi - lo
  {
    if lo >= hi then {} else {lo} + Range(lo + 1, hi)
  }

  lemma AvailableBound(costs: Costs, left: nat, right: nat, i: nat, mask: nat, ps: seq<Pair>)
    requires InRange(costs, left, right)
    requires Matching(ps, costs) && Available(ps, right, i, mask)
    ensures |ps| <= |Range(i, left)|
  {
    forall k | 0 <= k < |ps| ensures i <= ps[k].0 < left {
      assert ps[k] in costs;
    }
    MeetsAtMost(ps, Range(i, left), {});
  }

  lemma {:induction false} SolveOptimal(costs: Costs, left: nat, right: nat, i: nat, mask: nat, ps: seq<Pair>)
    requires InRange(costs, left, right)
    requires Matching(ps, costs) && Available(ps, right, i, mask)
    ensures NotBeatenBy(Solve(costs, left, right, i, mask), ps, costs)
    decreases left - i, right + 1
  {
    if i >= left {
      AvailableBound(costs, left, right, i, mask, ps);
    } else {
      ScanOptimal(costs, left, right, i, mask, right, ps);
    }
  }

  /** `Scan` beats every pairing that leaves `i` alone or gives it one of the first `j`. */
  lemma {:induction false} ScanOptimal(
    costs: Costs, left: nat, right: nat, i: nat, mask: nat, j: nat, ps: seq<Pair>)
    requires InRange(costs, left, right) && i < left && j <= right
    requires Matching(ps, costs) && Available(ps, right, i, mask)
    requires forall k :: 0 <= k < |ps| && ps[k].0 == i ==> ps[k].1 < j
    ensures NotBeatenBy(Scan(costs, left, right, i, mask, j), ps, costs)
    decreases left - i, j
  {
    if j == 0 {
      SolveOptimal(costs, left, right, i + 1, mask, ps);
    } else if k :| 0 <= k < |ps| && ps[k] == (i, j - 1) {
      var rest := Without(ps, k);
      TotalWithout(ps, k, costs);
      OneToOneWithout(ps, k);
      forall n | 0 <= n < |rest|
        ensures i + 1 <= rest[n].0 && rest[n].1 < right && !HasBit(SetBit(mask, j - 1), rest[n].1)
      {
        assert rest[n] in rest;
        BitAfterSet(mask, j - 1, rest[n].1);
      }
      SolveOptimal(costs, left, right, i + 1, SetBit(mask, j - 1), rest);
    } else {
      ScanOptimal(costs, left, right, i, mask, j - 1, ps);
    }
  }

  /** The memoised solver: a table from call to answer, filled as it goes. */
  class PairSolver {
    const costs: Costs
    const left: nat
    const right: nat
    var memo: map<(nat, nat), Best>

    /** Everything remembered is what plain recursion would compute. */
    ghost predicate Valid()
      reads this
    {
      forall key :: key in memo ==> memo[key] == Solve(costs, left, right, key.0, key.1)
    }

    constructor (costs: Costs, left: nat, right: nat)
      ensures Valid() && memo == map[]
      ensures this.costs == costs && this.left == left && this.right == right
    {
      this.costs, this.left, this.right := costs, left, right;
      memo := map[];
    }

    method SolveFrom(i: nat, mask: nat) returns (best: Best)
      requires Valid()
      modifies this
      ensures Valid() && old(memo.Keys) <= memo.Keys
      ensures best == Solve(costs, left, right, i, mask)
      decreases left - i
    {
      if (i, mask) in memo {
        return memo[(i, mask)];
      }
      if i >= left {
        best := Best(0, 0.0, []);
      } else {
        best := SolveFrom(i + 1, mask);
        for j := 0 to right
          invariant Valid() && old(memo.Keys) <= memo.Keys
          invariant best == Scan(costs, left, right, i, mask, j)
        {
          if (i, j) in costs && !HasBit(mask, j) {
            var rest := SolveFrom(i + 1, SetBit(mask, j));
            var candidate := Best(rest.count + 1, rest.total + costs[(i, j)], [(i, j)] + rest.pairs);
            if candidate.count > best.count
               || (candidate.count == best.count && candidate.total < best.total) {
              best := candidate;
            }
          }
        }
      }
      memo := memo[(i, mask) := best];
    }
  }

  // --- The greedy fallback -------------------------------------------------

  predicate NoDearer(a: Candidate, b: Candidate) {
    a.cost <= b.cost
  }

  function ByCost(entries: seq<Candidate>): seq<Candidate> {
    StableSort.SortBy(entries, NoDearer)
  }

  /** Take each candidate in turn unless an endpoint is already used. */
  function Greedy(items: seq<Candidate>): seq<Pair> {
    if items == [] then []
    else
      var chosen := Greedy(items[..|items| - 1]);
      var pair := items[|items| - 1].pair;
      if Touches(chosen, pair) then chosen else chosen + [pair]
  }

  predicate Touches(chosen: seq<Pair>, pair: Pair) {
    exists k :: 0 <= k < |chosen| && (chosen[k].0 == pair.0 || chosen[k].1 == pair.1)
  }

  /** The left indices a list of pairs uses. */
  function Lefts(ps: seq<Pair>): set<nat> {
    if ps == [] then {} else Lefts(ps[..|ps| - 1]) + {ps[|ps| - 1].0}
  }

  /** The right indices a list of pairs uses. */
  function Rights(ps: seq<Pair>): set<nat> {
    if ps == [] then {} else Rights(ps[..|ps| - 1]) + {ps[|ps| - 1].1}
  }

  lemma {:induction false} EndpointsBound(ps: seq<Pair>)
    ensures |Lefts(ps)| <= |ps| && |Rights(ps)| <= |ps|
  {
    if ps != [] {
      EndpointsBound(ps[..|ps| - 1]);
    }
  }

  lemma {:induction false} TouchesByEndpoint(ps: seq<Pair>, pair: Pair)
    ensures Touches(ps, pair) <==> pair.0 in Lefts(ps) || pair.1 in Rights(ps)
  {
    if ps != [] {
      var front := ps[..|ps| - 1];
      TouchesByEndpoint(front, pair);
      var last := ps[|ps| - 1];
      if last.0 != pair.0 && last.1 != pair.1 {
        if Touches(ps, pair) {
          var k :| 0 <= k < |ps| && (ps[k].0 == pair.0 || ps[k].1 == pair.1);
          assert front[k] == ps[k];
        }
        if Touches(front, pair) {
          var k :| 0 <= k < |front| && (front[k].0 == pair.0 || front[k].1 == pair.1);
          assert ps[k] == front[k];
        }
      }
    }
  }

  method GreedyPairs(items: seq<Candidate>) returns (pairs: seq<Pair>)
    ensures pairs == Greedy(items)
  {
    var usedLeft: set<nat>, usedRight: set<nat> := {}, {};
    pairs := [];
    for n := 0 to |items|
      invariant pairs == Greedy(items[..n])
      invariant usedLeft == Lefts(pairs) && usedRight == Rights(pairs)
    {
      var pair := items[n].pair;
      assert items[..n + 1][..n] == items[..n];
      TouchesByEndpoint(pairs, pair);
      if pair.0 !in usedLeft && pair.1 !in usedRight {
        usedLeft := usedLeft + {pair.0};
        usedRight := usedRight + {pair.1};
        assert (pairs + [pair])[..|pairs|] == pairs;
        pairs := pairs + [pair];
      }
    }
    assert items[..|items|] == items;
  }

  /** The chosen pair that stands in the way of candidate `n`, no dearer than it. */
  lemma {:induction false} GreedyWitness(items: seq<Candidate>, n: nat) returns (m: nat)
    requires StableSort.Sorted(items, NoDearer) && n < |items|
    ensures m <= n && items[m].pair in Greedy(items)
    ensures items[m].cost <= items[n].cost
    ensures items[m].pair.0 == items[n].pair.0 || items[m].pair.1 == items[n].pair.1
    decreases |items|
  {
    var front := items[..|items| - 1];
    if n < |front| {
      m := GreedyWitness(front, n);
    } else if Touches(Greedy(front), items[n].pair) {
      var k :| 0 <= k < |Greedy(front)|
        && (Greedy(front)[k].0 == items[n].pair.0 || Greedy(front)[k].1 == items[n].pair.1);
      m := GreedySource(front, k);
    } else {
      m := n;
      assert Greedy(items)[|Greedy(front)|] == items[n].pair;
    }
  }

  lemma {:induction false} GreedySource(items: seq<Candidate>, k: nat) returns (m: nat)
    requires k < |Greedy(items)|
    ensures m < |items| && items[m].pair == Greedy(items)[k]
  {
    var front := items[..|items| - 1];
    if k < |Greedy(front)| {
      m := GreedySource(front, k);
    } else {
      m := |items| - 1;
    }
  }

  lemma {:induction false} GreedyOneToOne(items: seq<Candidate>)
    ensures OneToOne(Greedy(items))
  {
    if items != [] {
      GreedyOneToOne(items[..|items| - 1]);
    }
  }

  // --- Both together -------------------------------------------------------

  function Swap(p: Pair): Pair { (p.1, p.0) }

  function SwapAll(ps: seq<Pair>): seq<Pair> {
    seq(|ps|, k requires 0 <= k < |ps| => Swap(ps[k]))
  }

  function SwapEntries(entries: seq<Candidate>): seq<Candidate> {
    seq(|entries|, k requires 0 <= k < |entries| => Candidate(Swap(entries[k].pair), entries[k].cost))
  }

  function BestPairs(left: nat, right: nat, entries: seq<Candidate>): seq<Pair>
    decreases right > left
  {
    if left == 0 || right == 0 || entries == [] then []
    else if right > left then SwapAll(BestPairs(right, left, SwapEntries(entries)))
    else if right > MAX_EXACT_SIZE then Greedy(ByCost(entries))
    else Solve(CostsOf(entries), left, right, 0, 0).pairs
  }

  method FindBestPairs(left: nat, right: nat, entries: seq<Candidate>) returns (pairs: seq<Pair>)
    ensures pairs == BestPairs(left, right, entries)
    decreases right > left
  {
    if left == 0 || right == 0 || entries == [] {
      return [];
    }
    if right > left {
      var swapped := FindBestPairs(right, left, SwapEntries(entries));
      return SwapAll(swapped);
    }
    if right > MAX_EXACT_SIZE {
      pairs := GreedyPairs(ByCost(entries));
    } else {
      var solver := new PairSolver(CostsOf(entries), left, right);
      var best := solver.SolveFrom(0, 0);
      pairs := best.pairs;
    }
  }

  /** What every caller supplies: each pair of valid indices at most once. */
  ghost predicate WellFormed(left: nat, right: nat, entries: seq<Candidate>) {
    && DistinctPairs(entries)
    && forall k :: 0 <= k < |entries| ==> entries[k].pair.0 < left && entries[k].pair.1 < right
  }

  lemma CostsInRange(left: nat, right: nat, entries: seq<Candidate>)
    requires WellFormed(left, right, entries)
    ensures InRange(CostsOf(entries), left, right)
  {
    forall p | p in CostsOf(entries) ensures p.0 < left && p.1 < right {
      CostsListed(entries, p);
    }
  }

  lemma SwappedCosts(entries: seq<Candidate>)
    requires DistinctPairs(entries)
    ensures DistinctPairs(SwapEntries(entries))
    ensures forall p :: p in CostsOf(entries) ==>
      Swap(p) in CostsOf(SwapEntries(entries)) && CostsOf(SwapEntries(entries))[Swap(p)] == CostsOf(entries)[p]
    ensures forall p :: p in CostsOf(SwapEntries(entries)) ==> Swap(p) in CostsOf(entries)
  {
    var other := SwapEntries(entries);
    forall i, j | 0 <= i < j < |other| ensures other[i].pair != other[j].pair {
      assert entries[i].pair != entries[j].pair;
    }
    forall p | p in CostsOf(entries)
      ensures Swap(p) in CostsOf(other) && CostsOf(other)[Swap(p)] == CostsOf(entries)[p]
    {
      CostsListed(entries, p);
      var k :| 0 <= k < |entries| && entries[k].pair == p;
      CostOfEntry(entries, k);
      CostOfEntry(other, k);
    }
    forall p | p in CostsOf(other) ensures Swap(p) in CostsOf(entries) {
      CostsListed(other, p);
      CostsListed(entries, Swap(p));
      var k :| 0 <= k < |other| && other[k].pair == p;
      assert entries[k].pair == Swap(p);
    }
  }

  lemma {:induction false} SwapKeepsTotal(ps: seq<Pair>, costs: Costs, other: Costs)
    requires forall k :: 0 <= k < |ps| ==> ps[k] in costs && Swap(ps[k]) in other && other[Swap(ps[k])] == costs[ps[k]]
    ensures Total(SwapAll(ps), other) == Total(ps, costs)
  {
    if ps != [] {
      SwapKeepsTotal(ps[1..], costs, other);
      assert SwapAll(ps)[1..] == SwapAll(ps[1..]);
    }
  }

  /** The result is always a one-to-one set of candidates. */
  lemma {:induction false} BestPairsMatching(left: nat, right: nat, entries: seq<Candidate>)
    requires WellFormed(left, right, entries)
    ensures Matching(BestPairs(left, right, entries), CostsOf(entries))
    decreases right > left
  {
    var costs := CostsOf(entries);
    if left == 0 || right == 0 || entries == [] {
    } else if right > left {
      var other := SwapEntries(entries);
      SwappedCosts(entries);
      BestPairsMatching(right, left, other);
      var inner := BestPairs(right, left, other);
      var outer := SwapAll(inner);
      forall k | 0 <= k < |outer| ensures outer[k] in costs {
        assert inner[k] in CostsOf(other);
      }
      forall i, j | 0 <= i < j < |outer| ensures outer[i].0 != outer[j].0 && outer[i].1 != outer[j].1 {
        assert inner[i].0 != inner[j].0 && inner[i].1 != inner[j].1;
      }
    } else if right > MAX_EXACT_SIZE {
      var items := ByCost(entries);
      var pairs := Greedy(items);
      GreedyOneToOne(items);
      forall k | 0 <= k < |pairs| ensures pairs[k] in costs {
        var m := GreedySource(items, k);
        StableSort.SortByKeepsMembers(entries, NoDearer);
        assert items[m] in entries;
        CostsListed(entries, pairs[k]);
      }
    } else {
      CostsInRange(left, right, entries);
      SolveHonest(costs, left, right, 0, 0);
    }
  }

  lemma CandidateBound(entries: seq<Candidate>, left: nat, right: nat, ps: seq<Pair>)
    requires WellFormed(left, right, entries) && Matching(ps, CostsOf(entries))
    ensures |ps| <= |Range(0, left)|
    ensures |ps| <= |Range(0, right)|
    ensures |ps| <= |set p | p in CostsOf(entries) :: p.0|
  {
    CostsInRange(left, right, entries);
    forall k | 0 <= k < |ps| ensures ps[k].0 < left && ps[k].1 < right && ps[k] in CostsOf(entries) {
      assert ps[k] in CostsOf(entries);
    }
    MeetsAtMost(ps, Range(0, left), {});
    MeetsAtMost(ps, {}, Range(0, right));
    MeetsAtMost(ps, set p | p in CostsOf(entries) :: p.0, {});
  }

  /**
   With at most 18 people on the smaller side nothing beats the result: it has
   the most pairs any one-to-one set of candidates can have, and no set with
   as many pairs costs less.
   */
  lemma {:induction false} BestPairsOptimal(left: nat, right: nat, entries: seq<Candidate>, ps: seq<Pair>)
    requires WellFormed(left, right, entries)
    requires left <= 18 || right <= 18
    requires Matching(ps, CostsOf(entries))
    ensures Matching(BestPairs(left, right, entries), CostsOf(entries))
    ensures AtLeastAsGood(BestPairs(left, right, entries), ps, CostsOf(entries))
    decreases right > left
  {
    var costs := CostsOf(entries);
    BestPairsMatching(left, right, entries);
    if left == 0 || right == 0 || entries == [] {
      CandidateBound(entries, left, right, ps);
    } else if right > left {
      var other := SwapEntries(entries);
      SwappedCosts(entries);
      var mirrored := SwapAll(ps);
      forall i, j | 0 <= i < j < |ps| ensures mirrored[i].0 != mirrored[j].0 && mirrored[i].1 != mirrored[j].1 {
        assert ps[i].0 != ps[j].0 && ps[i].1 != ps[j].1;
      }
      BestPairsOptimal(right, left, other, mirrored);
      SwapKeepsTotal(ps, costs, CostsOf(other));
      var inner := BestPairs(right, left, other);
      BestPairsMatching(right, left, other);
      forall k | 0 <= k < |inner|
        ensures Swap(inner[k]) in costs && costs[Swap(inner[k])] == CostsOf(other)[inner[k]]
      {
        assert inner[k] in CostsOf(other);
        assert Swap(Swap(inner[k])) == inner[k];
      }
      SwapKeepsTotal(inner, CostsOf(other), costs);
    } else {
      CostsInRange(left, right, entries);
      SolveHonest(costs, left, right, 0, 0);
      forall k | 0 <= k < |ps| ensures ps[k].1 < right && !HasBit(0, ps[k].1) {
        assert ps[k] in costs;
        ZeroHasNoBit(ps[k].1);
      }
      SolveOptimal(costs, left, right, 0, 0, ps);
    }
  }

  /** Candidate `m` was chosen, touches candidate `n` and costs less, or as much and came no later. */
  ghost predicate Blocks(entries: seq<Candidate>, chosen: seq<Pair>, m: int, n: nat)
    requires n < |entries|
  {
    && 0 <= m < |entries|
    && entries[m].pair in chosen
    && (entries[m].cost < entries[n].cost || (entries[m].cost == entries[n].cost && m <= n))
    && (entries[m].pair.0 == entries[n].pair.0 || entries[m].pair.1 == entries[n].pair.1)
  }

  /**
   The greedy result is maximal: every candidate is chosen or shares an
   endpoint with a chosen one that costs less, or as much and came earlier.
   */
  lemma {:induction false} GreedyRejections(left: nat, right: nat, entries: seq<Candidate>, n: nat)
    requires WellFormed(left, right, entries)
    requires left > 18 && right > 18
    requires n < |entries|
    ensures exists m :: Blocks(entries, BestPairs(left, right, entries), m, n)
    decreases right > left
  {
    if right > left {
      var other := SwapEntries(entries);
      GreedyWellFormedSwap(left, right, entries);
      GreedyRejections(right, left, other, n);
      var inner := BestPairs(right, left, other);
      SwappedRejections(entries, inner, n);
      var m :| Blocks(entries, SwapAll(inner), m, n);
      assert BestPairs(left, right, entries) == SwapAll(inner);
      assert Blocks(entries, BestPairs(left, right, entries), m, n);
    } else {
      SortedRejections(entries, n);
      var m :| Blocks(entries, Greedy(ByCost(entries)), m, n);
      assert BestPairs(left, right, entries) == Greedy(ByCost(entries));
      assert Blocks(entries, BestPairs(left, right, entries), m, n);
    }
  }

  lemma GreedyWellFormedSwap(left: nat, right: nat, entries: seq<Candidate>)
    requires WellFormed(left, right, entries)
    ensures WellFormed(right, left, SwapEntries(entries))
  {
    SwappedCosts(entries);
  }

  lemma SwappedRejections(entries: seq<Candidate>, inner: seq<Pair>, n: nat)
    requires n < |entries|
    requires exists m :: Blocks(SwapEntries(entries), inner, m, n)
    ensures exists m :: Blocks(entries, SwapAll(inner), m, n)
  {
    var other := SwapEntries(entries);
    var m :| Blocks(other, inner, m, n);
    var k :| 0 <= k < |inner| && inner[k] == other[m].pair;
    assert SwapAll(inner)[k] == entries[m].pair;
    assert Blocks(entries, SwapAll(inner), m, n);
  }

  lemma SortedRejections(entries: seq<Candidate>, n: nat)
    requires n < |entries| && DistinctPairs(entries)
    ensures exists m :: Blocks(entries, Greedy(ByCost(entries)), m, n)
  {
    var items := ByCost(entries);
    StableSort.SortBySorted(entries, NoDearer);
    StableSort.SortByKeepsMembers(entries, NoDearer);
    assert entries[n] in items;
    var at :| 0 <= at < |items| && items[at] == entries[n];
    var w := GreedyWitness(items, at);
    assert items[w] in entries;
    var m :| 0 <= m < |entries| && entries[m] == items[w];
    if w < at && items[w].cost == items[at].cost {
      var a, b := StableSort.EqualKeysKeepOrder(entries, NoDearer, w, at);
      assert a == m && b == n;
    }
    assert Blocks(entries, Greedy(items), m, n);
  }

  /** The greedy result has at least half the pairs of any one-to-one set of candidates. */
  lemma GreedyHalf(left: nat, right: nat, entries: seq<Candidate>, ps: seq<Pair>)
    requires WellFormed(left, right, entries)
    requires left > 18 && right > 18
    requires Matching(ps, CostsOf(entries))
    ensures |ps| <= 2 * |BestPairs(left, right, entries)|
  {
    var chosen := BestPairs(left, right, entries);
    forall k | 0 <= k < |ps| ensures ps[k].0 in Lefts(chosen) || ps[k].1 in Rights(chosen) {
      CostsListed(entries, ps[k]);
      var n :| 0 <= n < |entries| && entries[n].pair == ps[k];
      GreedyRejections(left, right, entries, n);
      var m :| Blocks(entries, chosen, m, n);
      assert Touches(chosen, ps[k]);
      TouchesByEndpoint(chosen, ps[k]);
    }
    EndpointsBound(chosen);
    MeetsAtMost(ps, Lefts(chosen), Rights(chosen));
  }
}
