/** What duplicate suppression leaves on the map, and what happens to those it removes. */
module DuplicateProperties {
  import opened DisplayDuplicates
  import opened DuplicateRulings
  import opened Observations

  /** Nothing but the list of suppressed duplicates may differ. */
  ghost predicate SameButList(a: Person, b: Person) {
    a.(suppressed := []) == b.(suppressed := [])
  }

  lemma ListDecidesNothing(settings: Settings, a: Person, b: Person, a': Person, b': Person)
    requires SameButList(a, a') && SameButList(b, b')
    ensures Authority(a, b) == Authority(a', b')
    ensures IsDuplicate(settings, a, b) == IsDuplicate(settings, a', b')
    ensures AreDuplicates(settings, a, b) == AreDuplicates(settings, a', b')
    ensures EquallyShown(a, b) == EquallyShown(a', b')
  {
    assert a.sources == a'.sources && b.sources == b'.sources;
    assert a.observations == a'.observations && b.observations == b'.observations;
    assert a.identity == a'.identity && b.identity == b'.identity;
    assert a.center == a'.center && b.center == b'.center;
    DuplicatesExactly(settings, a, b);
    DuplicatesExactly(settings, a', b');
    EquallyShownExactly(a, b);
    EquallyShownExactly(a', b');
  }

  // --- The log of one pass -------------------------------------------------

  /** The one rightly takes the other's place, both numbered in the order of the list. */
  ghost predicate Outdoes(people: seq<Person>, keeper: nat, dropped: nat) {
    keeper < |people| && dropped < |people| && Prevails(people[keeper], people[dropped], keeper < dropped)
  }

  /** A keeper is still there when it takes over, and prevails. */
  ghost predicate LogOk(people: seq<Person>, log: seq<Drop>) {
    log == [] ||
    var front, last := log[..|log| - 1], log[|log| - 1];
    && LogOk(people, front)
    && last.dropped < |people| && last.keeper < |people| && last.dropped != last.keeper
    && last.dropped !in DroppedIn(front) && last.keeper !in DroppedIn(front)
    && Outdoes(people, last.keeper, last.dropped)
  }

  ghost predicate PassOk(people: seq<Person>, pass: Pass) {
    && |pass.people| == |people|
    && (forall i :: 0 <= i < |people| ==> SameButList(pass.people[i], people[i]))
    && LogOk(people, pass.log)
  }

  lemma TakeOverOk(people: seq<Person>, pass: Pass, dropped: nat, keeper: nat, reason: string)
    requires PassOk(people, pass) && dropped < |people| && keeper < |people| && dropped != keeper
    requires dropped !in DroppedIn(pass.log) && keeper !in DroppedIn(pass.log)
    requires Outdoes(people, keeper, dropped)
    ensures PassOk(people, TakeOver(pass, dropped, keeper, reason))
    ensures DroppedIn(TakeOver(pass, dropped, keeper, reason).log) == DroppedIn(pass.log) + {dropped}
  {
    var next := TakeOver(pass, dropped, keeper, reason);
    assert next.log[..|next.log| - 1] == pass.log;
    TakeOverKeeps(people, pass, dropped, keeper, reason);
  }

  lemma TakeOverKeeps(people: seq<Person>, pass: Pass, dropped: nat, keeper: nat, reason: string)
    requires PassOk(people, pass) && dropped < |people| && keeper < |people|
    ensures forall i :: 0 <= i < |people| ==> SameButList(TakeOver(pass, dropped, keeper, reason).people[i], people[i])
  {
    var next := TakeOver(pass, dropped, keeper, reason);
    forall i | 0 <= i < |people| ensures SameButList(next.people[i], people[i]) {
      assert SameButList(pass.people[i], people[i]);
    }
  }

  lemma SameRuling(people: seq<Person>, pass: Pass, i: nat, j: nat)
    requires PassOk(people, pass) && i < |people| && j < |people|
    ensures Authority(pass.people[i], pass.people[j]) == Authority(people[i], people[j])
  {
    assert SameButList(pass.people[i], people[i]) && SameButList(pass.people[j], people[j]);
    ListDecidesNothing(Settings(0.0, (p, q) => 0.0), pass.people[i], pass.people[j], people[i], people[j]);
  }

  lemma SettleOk(people: seq<Person>, pass: Pass, f: Finding)
    requires PassOk(people, pass)
    requires f.left < f.right < |people|
    ensures PassOk(people, Settle(pass, f))
    ensures DroppedIn(pass.log) <= DroppedIn(Settle(pass, f).log)
    ensures Resolved(people, DroppedIn(Settle(pass, f).log), f.left, f.right)
  {
    SameRuling(people, pass, f.left, f.right);
    RulingExactly(people[f.left], people[f.right]);
    if f.left !in DroppedIn(pass.log) && f.right !in DroppedIn(pass.log) {
      match Authority(people[f.left], people[f.right])
      case KeepLeft(reason) => TakeOverOk(people, pass, f.right, f.left, reason);
      case KeepRight(reason) => TakeOverOk(people, pass, f.left, f.right, reason);
      case LeaveBoth =>
    }
  }

  lemma {:induction false} SettleAllOk(people: seq<Person>, findings: seq<Finding>)
    requires InList(findings, |people|) && Proper(findings)
    ensures PassOk(people, SettleAll(people, findings))
  {
    if findings != [] {
      var front := findings[..|findings| - 1];
      SettleAllOk(people, front);
      SettleOk(people, SettleAll(people, front), findings[|findings| - 1]);
    }
  }

  ghost predicate Proper(findings: seq<Finding>) {
    forall k :: 0 <= k < |findings| ==> findings[k].left < findings[k].right
  }

  /** One of the two is gone, or neither has the better claim. */
  ghost predicate Resolved(people: seq<Person>, dropped: set<nat>, a: nat, b: nat)
    requires a < |people| && b < |people|
  {
    a in dropped || b in dropped || Authority(people[a], people[b]) == LeaveBoth
  }

  /** The last finding is resolved, and nobody comes back. */
  lemma SettleLastResolves(people: seq<Person>, findings: seq<Finding>)
    requires InList(findings, |people|) && Proper(findings) && findings != []
    ensures var front, f := findings[..|findings| - 1], findings[|findings| - 1];
      && DroppedIn(SettleAll(people, front).log) <= DroppedIn(SettleAll(people, findings).log)
      && Resolved(people, DroppedIn(SettleAll(people, findings).log), f.left, f.right)
  {
    var front := findings[..|findings| - 1];
    SettleAllOk(people, front);
    SettleOk(people, SettleAll(people, front), findings[|findings| - 1]);
  }

  lemma {:induction false} DroppedStay(people: seq<Person>, findings: seq<Finding>, n: nat)
    requires InList(findings, |people|) && Proper(findings) && n <= |findings|
    ensures DroppedIn(SettleAll(people, findings[..n]).log) <= DroppedIn(SettleAll(people, findings).log)
  {
    if n == |findings| {
      assert findings[..n] == findings;
    } else {
      var front := findings[..|findings| - 1];
      SettleLastResolves(people, findings);
      DroppedStay(people, front, n);
      assert front[..n] == findings[..n];
    }
  }

  lemma SettleAllResolves(people: seq<Person>, findings: seq<Finding>, n: nat)
    requires InList(findings, |people|) && Proper(findings) && n < |findings|
    ensures Resolved(people, DroppedIn(SettleAll(people, findings).log), findings[n].left, findings[n].right)
  {
    var some := findings[..n + 1];
    SettleLastResolves(people, some);
    DroppedStay(people, findings, n + 1);
    ResolvedStays(people, DroppedIn(SettleAll(people, some).log), DroppedIn(SettleAll(people, findings).log),
                  findings[n].left, findings[n].right);
  }

  lemma ResolvedStays(people: seq<Person>, fewer: set<nat>, more: set<nat>, a: nat, b: nat)
    requires a < |people| && b < |people| && fewer <= more && Resolved(people, fewer, a, b)
    ensures Resolved(people, more, a, b)
  {
  }

  lemma {:induction false} LogCounts(people: seq<Person>, log: seq<Drop>)
    requires LogOk(people, log)
    ensures |DroppedIn(log)| == |log|
    ensures forall d :: d in DroppedIn(log) ==> d < |people|
  {
    if log != [] {
      LogCounts(people, log[..|log| - 1]);
    }
  }

  lemma {:induction false} KeptCount(dropped: set<nat>, n: nat)
    requires forall d :: d in dropped ==> d < n
    ensures |KeptIndices(dropped, n)| + |dropped| == n
  {
    if n > 0 {
      if n - 1 in dropped {
        KeptCount(dropped - {n - 1}, n - 1);
        KeptIgnores(dropped, n - 1, n - 1);
      } else {
        KeptCount(dropped, n - 1);
      }
    }
  }

  lemma {:induction false} KeptMembers(dropped: set<nat>, n: nat, k: nat)
    requires k < n && k !in dropped
    ensures k in KeptIndices(dropped, n)
  {
    if k < n - 1 {
      KeptMembers(dropped, n - 1, k);
    }
  }

  lemma {:induction false} KeptIgnores(dropped: set<nat>, x: nat, n: nat)
    requires n <= x
    ensures KeptIndices(dropped, n) == KeptIndices(dropped - {x}, n)
  {
    if n > 0 {
      KeptIgnores(dropped, x, n - 1);
    }
  }

  ghost predicate Ascending(r: seq<nat>) {
    forall i, j :: 0 <= i < j < |r| ==> r[i] < r[j]
  }

  lemma {:induction false} KeptAscends(dropped: set<nat>, n: nat)
    ensures Ascending(KeptIndices(dropped, n))
  {
    if n > 0 {
      KeptAscends(dropped, n - 1);
      AscendOn(KeptIndices(dropped, n - 1), n - 1);
    }
  }

  lemma AscendOn(r: seq<nat>, x: nat)
    requires Ascending(r) && forall i :: 0 <= i < |r| ==> r[i] < x
    ensures Ascending(r + [x])
  {
  }

  lemma FinalPassOk(settings: Settings, people: seq<Person>)
    ensures Proper(Findings(settings, people)) && InList(Findings(settings, people), |people|)
    ensures PassOk(people, FinalPass(settings, people))
  {
    FindingsFit(settings, people);
    SettleAllOk(people, Findings(settings, people));
  }

  lemma DuplicatesResolved(settings: Settings, people: seq<Person>, a: nat, b: nat)
    requires a < b < |people| && IsDuplicate(settings, people[a], people[b])
    ensures Resolved(people, DroppedIn(FinalPass(settings, people).log), a, b)
  {
    var n := DuplicateListed(settings, people, a, b);
    FinalPassOk(settings, people);
    SettleAllResolves(people, Findings(settings, people), n);
  }

  lemma DuplicateListed(settings: Settings, people: seq<Person>, a: nat, b: nat) returns (n: nat)
    requires a < b < |people| && IsDuplicate(settings, people[a], people[b])
    ensures n < |Findings(settings, people)| && Located(Findings(settings, people)[n], a, b)
  {
    var findings := Findings(settings, people);
    FindingsExact(settings, people);
    var f :| f in findings && Located(f, a, b);
    n :| 0 <= n < |findings| && findings[n] == f;
  }

  // --- Who is left ---------------------------------------------------------

  lemma KeptPerson(settings: Settings, people: seq<Person>, i: nat)
    requires i < |Suppress(settings, people)|
    ensures var indices := KeptIndices(DroppedIn(FinalPass(settings, people).log), |people|);
      i < |indices| && SameButList(Suppress(settings, people)[i], people[indices[i]])
  {
    FinalPassOk(settings, people);
  }

  /**
   Two people left on the map whom no camera sees both and who share a master
   or stand within the limit are seen equally well under two different masters;
   so no master is drawn twice by different cameras.
   */
  lemma SurvivorsConflict(settings: Settings, people: seq<Person>, i: nat, j: nat)
    requires i < j < |Suppress(settings, people)|
    requires AreDuplicates(settings, Suppress(settings, people)[i], Suppress(settings, people)[j])
    ensures var kept := Suppress(settings, people);
      && Authority(kept[i], kept[j]) == LeaveBoth
      && EquallyShown(kept[i], kept[j])
      && kept[i].identity.Some? && kept[j].identity.Some?
      && kept[i].identity != kept[j].identity
  {
    var kept := Suppress(settings, people);
    var dropped := DroppedIn(FinalPass(settings, people).log);
    var indices := KeptIndices(dropped, |people|);
    KeptPerson(settings, people, i);
    KeptPerson(settings, people, j);
    KeptAscends(dropped, |people|);
    var a, b := indices[i], indices[j];
    ListDecidesNothing(settings, kept[i], kept[j], people[a], people[b]);
    DuplicatesExactly(settings, people[a], people[b]);
    DuplicatesResolved(settings, people, a, b);
    LeftAloneExactly(kept[i], kept[j]);
    EquallyShownExactly(kept[i], kept[j]);
  }

  /** Exactly the suppressed people are missing, and the rest keep their order and their fields. */
  lemma LengthFallsByDrops(settings: Settings, people: seq<Person>)
    ensures |Suppress(settings, people)| + |FinalPass(settings, people).log| == |people|
    ensures var indices := KeptIndices(DroppedIn(FinalPass(settings, people).log), |people|);
      && Ascending(indices)
      && forall i :: 0 <= i < |indices| ==> SameButList(Suppress(settings, people)[i], people[indices[i]])
  {
    var pass := FinalPass(settings, people);
    FinalPassOk(settings, people);
    LogCounts(people, pass.log);
    KeptCount(DroppedIn(pass.log), |people|);
    KeptAscends(DroppedIn(pass.log), |people|);
  }

  lemma {:induction false} NothingToSettle(people: seq<Person>, findings: seq<Finding>)
    requires InList(findings, |people|)
    requires forall k :: 0 <= k < |findings| ==>
      Authority(people[findings[k].left], people[findings[k].right]) == LeaveBoth
    ensures SettleAll(people, findings) == Pass(people, [], |findings|)
  {
    if findings != [] {
      NothingToSettle(people, findings[..|findings| - 1]);
    }
  }

  lemma {:induction false} NobodyDropped(n: nat)
    ensures |KeptIndices({}, n)| == n && forall k :: 0 <= k < n ==> KeptIndices({}, n)[k] == k
  {
    if n > 0 {
      NobodyDropped(n - 1);
    }
  }

  /** A second pass changes nothing. */
  lemma SuppressTwice(settings: Settings, people: seq<Person>)
    ensures var kept := Suppress(settings, people);
      Suppress(settings, kept) == kept && FinalPass(settings, kept).log == []
  {
    var kept := Suppress(settings, people);
    var findings := Findings(settings, kept);
    FindingsFit(settings, kept);
    forall k | 0 <= k < |findings|
      ensures Authority(kept[findings[k].left], kept[findings[k].right]) == LeaveBoth
    {
      DuplicatesExactly(settings, kept[findings[k].left], kept[findings[k].right]);
      SurvivorsConflict(settings, people, findings[k].left, findings[k].right);
    }
    NothingToSettle(kept, findings);
    NobodyDropped(|kept|);
    assert DroppedIn([]) == {};
  }

  // --- What becomes of a dropped person ------------------------------------

  /** From a person to the one who took its place, and on to the last keeper. */
  ghost function Chain(log: seq<Drop>, x: nat): (path: seq<nat>)
    ensures path != []
  {
    if log == [] then [x]
    else
      var front, last := log[..|log| - 1], log[|log| - 1];
      var path := Chain(front, x);
      if path[|path| - 1] == last.dropped then path + [last.keeper] else path
  }

  /** Each step of the path is a takeover in the log by somebody who prevails. */
  ghost predicate Climbs(people: seq<Person>, log: seq<Drop>, path: seq<nat>) {
    && (forall m :: 0 <= m < |path| ==> path[m] < |people|)
    && (forall m :: 0 <= m < |path| - 1 ==>
          && Drop(path[m], path[m + 1]) in log
          && Outdoes(people, path[m + 1], path[m]))
  }

  lemma ClimbsOn(people: seq<Person>, log: seq<Drop>, path: seq<nat>, last: Drop)
    requires path != [] && Climbs(people, log, path)
    ensures Climbs(people, log + [last], path)
    ensures path[|path| - 1] == last.dropped && Outdoes(people, last.keeper, last.dropped)
      ==> Climbs(people, log + [last], path + [last.keeper])
  {
    forall m | 0 <= m < |path| - 1 ensures Drop(path[m], path[m + 1]) in log + [last] {
      assert Drop(path[m], path[m + 1]) in log;
    }
  }

  lemma {:induction false} ChainOk(people: seq<Person>, log: seq<Drop>, x: nat)
    requires LogOk(people, log) && x < |people|
    ensures var path := Chain(log, x);
      path[0] == x && Climbs(people, log, path) && path[|path| - 1] !in DroppedIn(log)
  {
    if log != [] {
      var front, last := log[..|log| - 1], log[|log| - 1];
      ChainOk(people, front, x);
      ClimbsOn(people, front, Chain(front, x), last);
      assert log == front + [last];
    }
  }

  /**
   Every person who came in is represented: a chain of takeovers, each by a
   person who prevails, leads from it to somebody left on the map.
   */
  lemma EverybodyRepresented(settings: Settings, people: seq<Person>, x: nat)
    requires x < |people|
    ensures var pass := FinalPass(settings, people);
      var path := Chain(pass.log, x);
      && path[0] == x
      && Climbs(people, pass.log, path)
      && path[|path| - 1] in KeptIndices(DroppedIn(pass.log), |people|)
  {
    var log := FinalPass(settings, people).log;
    FinalPassOk(settings, people);
    ChainOk(people, log, x);
    var path := Chain(log, x);
    KeptMembers(DroppedIn(log), |people|, path[|path| - 1]);
  }
}
