/** The order in which people arrive does not decide who is drawn. */
module DuplicateOrder {
  import opened DisplayDuplicates
  import opened DuplicateProperties
  import opened DuplicateRulings
  import opened Observations

  /** `b` is `a` in another order: `perm` says where each person went and `back` where it came from. */
  ghost predicate Reorders(perm: seq<nat>, back: seq<nat>, a: seq<Person>, b: seq<Person>) {
    && |perm| == |back| == |a| == |b|
    && (forall i :: 0 <= i < |a| ==> perm[i] < |b| && back[perm[i]] == i && b[perm[i]] == a[i])
    && (forall j :: 0 <= j < |b| ==> back[j] < |a| && perm[back[j]] == j)
  }

  lemma ReorderedBack(perm: seq<nat>, back: seq<nat>, a: seq<Person>, b: seq<Person>)
    requires Reorders(perm, back, a, b)
    ensures Reorders(back, perm, b, a)
  {
    forall j | 0 <= j < |b| ensures a[back[j]] == b[j] {
      assert perm[back[j]] == j;
    }
  }

  ghost predicate Symmetric(settings: Settings) {
    forall p, q :: settings.dist(p, q) == settings.dist(q, p)
  }

  /** Something other than their place in the list tells the two apart, if it comes to a ruling. */
  ghost predicate ToldApart(a: Person, b: Person) {
    || !EquallyShown(a, b) || a.identity != b.identity
    || |a.sources| != |b.sources| || CameraOf(a) != CameraOf(b) || TrackOf(a) != TrackOf(b)
  }

  predicate SameKind(f: Finding, g: Finding) { f.physical == g.physical && f.distance == g.distance }

  /** No two duplicate pairs tie in kind and distance, and every one of them is told apart. */
  ghost predicate NoTies(settings: Settings, people: seq<Person>) {
    && (forall f, g :: f in Findings(settings, people) && g in Findings(settings, people) && f != g ==> !SameKind(f, g))
    && (forall f :: f in Findings(settings, people) ==>
          f.left < |people| && f.right < |people| && ToldApart(people[f.left], people[f.right]))
  }

  // --- The list of findings has no repetitions -----------------------------

  ghost predicate Distinct<T(!new)>(s: seq<T>) {
    forall x :: multiset(s)[x] <= 1
  }

  lemma DistinctConcat<T(!new)>(s: seq<T>, t: seq<T>)
    requires Distinct(s) && Distinct(t) && forall x :: x in s ==> x !in t
    ensures Distinct(s + t)
  {
    forall x ensures multiset(s + t)[x] <= 1 {
      assert multiset(s + t)[x] == multiset(s)[x] + multiset(t)[x];
      assert x in s <==> x in multiset(s);
      assert x in t <==> x in multiset(t);
    }
  }

  lemma CountedTwice<T(!new)>(s: seq<T>, i: nat, j: nat)
    requires i < j < |s| && s[i] == s[j]
    ensures multiset(s)[s[i]] >= 2
  {
    var x, front, rest := s[i], s[..j], s[j..];
    assert s == front + rest;
    assert front[i] == x && rest[0] == x;
    assert x in front && x in rest;
    assert x in multiset(front) && x in multiset(rest);
  }

  lemma DistinctPlaces<T(!new)>(s: seq<T>, i: nat, j: nat)
    requires Distinct(s) && i < j < |s|
    ensures s[i] != s[j]
  {
    if s[i] == s[j] {
      CountedTwice(s, i, j);
    }
  }

  lemma {:induction false} RowDistinct(settings: Settings, people: seq<Person>, i: nat, j: nat)
    requires i < j <= |people|
    ensures Distinct(FindRow(settings, people, i, j))
  {
    if j > i + 1 {
      var front, last := FindRow(settings, people, i, j - 1), Find(settings, people, i, j - 1);
      RowDistinct(settings, people, i, j - 1);
      forall f | f in front ensures f !in last {
        FindRowHas(settings, people, i, j - 1, f);
        FindHas(settings, people, i, j - 1, f);
      }
      DistinctConcat(front, last);
    }
  }

  lemma RowIsNew(settings: Settings, people: seq<Person>, i: nat)
    requires i < |people|
    ensures forall f :: f in FindAll(settings, people, i) ==> f !in FindRow(settings, people, i, |people|)
  {
    forall f | f in FindAll(settings, people, i) ensures f !in FindRow(settings, people, i, |people|) {
      FindAllHas(settings, people, i, f);
      FindRowHas(settings, people, i, |people|, f);
    }
  }

  lemma AllDistinct(settings: Settings, people: seq<Person>, i: nat)
    requires i <= |people|
    ensures Distinct(FindAll(settings, people, i))
  {
    var all: seq<Finding>, n := [], 0;
    assert FindAll(settings, people, 0) == [];
    while n < i
      invariant n <= i && all == FindAll(settings, people, n) && Distinct(all)
    {
      var more := all + FindRow(settings, people, n, |people|);
      AllDistinctNext(settings, people, n, all, more);
      all, n := more, n + 1;
    }
  }

  lemma AllDistinctNext(settings: Settings, people: seq<Person>, i: nat, front: seq<Finding>, all: seq<Finding>)
    requires i < |people| && front == FindAll(settings, people, i) && Distinct(front)
    requires all == front + FindRow(settings, people, i, |people|)
    ensures Distinct(all)
  {
    var row := FindRow(settings, people, i, |people|);
    RowDistinct(settings, people, i, |people|);
    RowIsNew(settings, people, i);
    DistinctConcat(front, row);
  }

  lemma FindingsHave(settings: Settings, people: seq<Person>, f: Finding)
    ensures f in Findings(settings, people) <==> Sound(settings, people, f)
  {
    StableSort.SortByKeepsMembers(FindAll(settings, people, |people|), Sooner);
    FindAllHas(settings, people, |people|, f);
  }

  /** Settled strictly before, by kind and distance alone. */
  predicate KindLess(f: Finding, g: Finding) { Sooner(f, g) && !SameKind(f, g) }

  ghost predicate StrictlySorted(findings: seq<Finding>) {
    forall i, j :: 0 <= i < j < |findings| ==> KindLess(findings[i], findings[j])
  }

  lemma FindingsStrict(settings: Settings, people: seq<Person>)
    requires NoTies(settings, people)
    ensures StrictlySorted(Findings(settings, people))
  {
    var findings := Findings(settings, people);
    AllDistinct(settings, people, |people|);
    assert multiset(findings) == multiset(FindAll(settings, people, |people|));
    forall i, j | 0 <= i < j < |findings| ensures KindLess(findings[i], findings[j]) {
      FindingsInOrder(settings, people, i, j);
      DistinctPlaces(findings, i, j);
      assert findings[i] in findings && findings[j] in findings;
    }
  }

  // --- Where a finding goes ------------------------------------------------

  /** The same finding in the other order. */
  function Moved(perm: seq<nat>, f: Finding): Finding
    requires f.left < |perm| && f.right < |perm|
  {
    var l, r := perm[f.left], perm[f.right];
    if l < r then f.(left := l, right := r) else f.(left := r, right := l)
  }

  lemma PairSymmetric(settings: Settings, a: Person, b: Person)
    requires Symmetric(settings)
    ensures IsDuplicate(settings, a, b) == IsDuplicate(settings, b, a)
    ensures SharesMaster(a, b) == SharesMaster(b, a) && Distance(settings, a, b) == Distance(settings, b, a)
  {
    assert SharesSource(a, b) == SharesSource(b, a);
  }

  lemma MovedIsFound(
    settings: Settings, perm: seq<nat>, back: seq<nat>, a: seq<Person>, b: seq<Person>, f: Finding)
    requires Symmetric(settings) && Reorders(perm, back, a, b) && f in Findings(settings, a)
    ensures f.left < f.right < |a| && Moved(perm, f) in Findings(settings, b)
    ensures Moved(perm, f).left < |b| && Moved(perm, f).right < |b| && Moved(back, Moved(perm, f)) == f
  {
    FindingsHave(settings, a, f);
    PairSymmetric(settings, a[f.left], a[f.right]);
    assert back[perm[f.left]] == f.left && back[perm[f.right]] == f.right;
    FindingsHave(settings, b, Moved(perm, f));
  }

  lemma ApartReordered(
    settings: Settings, perm: seq<nat>, back: seq<nat>, a: seq<Person>, b: seq<Person>, f: Finding)
    requires Symmetric(settings) && Reorders(perm, back, a, b) && NoTies(settings, a) && f in Findings(settings, b)
    ensures f.left < |b| && f.right < |b| && ToldApart(b[f.left], b[f.right])
  {
    ReorderedBack(perm, back, a, b);
    MovedIsFound(settings, back, perm, b, a, f);
    var g := Moved(back, f);
    assert ToldApart(a[g.left], a[g.right]);
    assert a[back[f.left]] == b[f.left] && a[back[f.right]] == b[f.right];
  }

  lemma KindsReordered(
    settings: Settings, perm: seq<nat>, back: seq<nat>, a: seq<Person>, b: seq<Person>, f: Finding, g: Finding)
    requires Symmetric(settings) && Reorders(perm, back, a, b) && NoTies(settings, a)
    requires f in Findings(settings, b) && g in Findings(settings, b) && f != g
    ensures !SameKind(f, g)
  {
    ReorderedBack(perm, back, a, b);
    MovedIsFound(settings, back, perm, b, a, f);
    MovedIsFound(settings, back, perm, b, a, g);
    DifferentKinds(settings, a, Moved(back, f), Moved(back, g));
  }

  lemma DifferentKinds(settings: Settings, people: seq<Person>, f: Finding, g: Finding)
    requires NoTies(settings, people) && f in Findings(settings, people) && g in Findings(settings, people) && f != g
    ensures !SameKind(f, g)
  {
  }

  lemma TiesReordered(settings: Settings, perm: seq<nat>, back: seq<nat>, a: seq<Person>, b: seq<Person>)
    requires Symmetric(settings) && Reorders(perm, back, a, b) && NoTies(settings, a)
    ensures NoTies(settings, b)
  {
    forall f | f in Findings(settings, b)
      ensures f.left < |b| && f.right < |b| && ToldApart(b[f.left], b[f.right])
    {
      ApartReordered(settings, perm, back, a, b, f);
    }
    forall f, g | f in Findings(settings, b) && g in Findings(settings, b) && f != g ensures !SameKind(f, g) {
      KindsReordered(settings, perm, back, a, b, f, g);
    }
  }

  /** Each finding of one list has gone to the other. */
  ghost predicate GoesTo(perm: seq<nat>, back: seq<nat>, x: seq<Finding>, y: seq<Finding>) {
    forall f :: f in x ==>
      && f.left < |perm| && f.right < |perm| && Moved(perm, f) in y
      && Moved(perm, f).left < |back| && Moved(perm, f).right < |back| && Moved(back, Moved(perm, f)) == f
  }

  lemma FirstIsLeast(s: seq<Finding>, p: nat)
    requires StrictlySorted(s) && p < |s|
    ensures s[p] == s[0] || KindLess(s[0], s[p])
  {
  }

  lemma HeadsCorrespond(perm: seq<nat>, back: seq<nat>, x: seq<Finding>, y: seq<Finding>)
    requires StrictlySorted(x) && StrictlySorted(y) && GoesTo(perm, back, x, y) && GoesTo(back, perm, y, x)
    requires x != [] && y != []
    ensures x[0].left < |perm| && x[0].right < |perm| && Moved(perm, x[0]) == y[0]
  {
    assert x[0] in x && y[0] in y;
    var p: nat :| p < |y| && y[p] == Moved(perm, x[0]);
    var q: nat :| q < |x| && x[q] == Moved(back, y[0]);
    FirstIsLeast(y, p);
    FirstIsLeast(x, q);
  }

  lemma SomewhereToGo(perm: seq<nat>, back: seq<nat>, x: seq<Finding>, y: seq<Finding>)
    requires GoesTo(perm, back, x, y)
    ensures x != [] ==> y != []
  {
    if x != [] {
      assert x[0] in x;
    }
  }

  lemma TailGoes(perm: seq<nat>, back: seq<nat>, x: seq<Finding>, y: seq<Finding>)
    requires StrictlySorted(x) && GoesTo(perm, back, x, y) && x != [] && y != [] && SameKind(x[0], y[0])
    ensures GoesTo(perm, back, x[1..], y[1..])
  {
    forall f | f in x[1..] ensures f in x && Moved(perm, f) in y[1..] {
      var i :| 0 <= i < |x[1..]| && x[1..][i] == f;
      assert x[i + 1] == f && KindLess(x[0], x[i + 1]);
      assert f in x;
      var p :| 0 <= p < |y| && y[p] == Moved(perm, f);
      assert SameKind(f, y[p]) && p != 0;
      assert y[1..][p - 1] == y[p];
    }
  }

  /** Two strictly ordered lists of the same findings have them in the same places. */
  lemma {:induction false} ListsCorrespond(perm: seq<nat>, back: seq<nat>, x: seq<Finding>, y: seq<Finding>)
    requires StrictlySorted(x) && StrictlySorted(y) && GoesTo(perm, back, x, y) && GoesTo(back, perm, y, x)
    ensures |x| == |y|
    ensures forall i :: 0 <= i < |x| ==> x[i].left < |perm| && x[i].right < |perm| && y[i] == Moved(perm, x[i])
  {
    SomewhereToGo(perm, back, x, y);
    SomewhereToGo(back, perm, y, x);
    if x != [] {
      HeadsCorrespond(perm, back, x, y);
      TailGoes(perm, back, x, y);
      TailGoes(back, perm, y, x);
      ListsCorrespond(perm, back, x[1..], y[1..]);
      forall i | 0 <= i < |x|
        ensures x[i].left < |perm| && x[i].right < |perm| && y[i] == Moved(perm, x[i])
      {
        if i > 0 {
          assert x[1..][i - 1] == x[i] && y[1..][i - 1] == y[i];
        }
      }
    }
  }

  lemma FindingsCorrespond(settings: Settings, perm: seq<nat>, back: seq<nat>, a: seq<Person>, b: seq<Person>)
    requires Symmetric(settings) && Reorders(perm, back, a, b) && NoTies(settings, a)
    ensures var x, y := Findings(settings, a), Findings(settings, b);
      |x| == |y|
      && forall i :: 0 <= i < |x| ==> x[i].left < |perm| && x[i].right < |perm| && y[i] == Moved(perm, x[i])
  {
    TiesReordered(settings, perm, back, a, b);
    ReorderedBack(perm, back, a, b);
    FindingsStrict(settings, a);
    FindingsStrict(settings, b);
    forall f | f in Findings(settings, a) ensures Moved(perm, f) in Findings(settings, b) {
      MovedIsFound(settings, perm, back, a, b, f);
    }
    assert GoesTo(perm, back, Findings(settings, a), Findings(settings, b)) by {
      forall f | f in Findings(settings, a)
        ensures f.left < |perm| && f.right < |perm| && Moved(perm, f) in Findings(settings, b)
          && Moved(perm, f).left < |back| && Moved(perm, f).right < |back| && Moved(back, Moved(perm, f)) == f
      {
        MovedIsFound(settings, perm, back, a, b, f);
      }
    }
    assert GoesTo(back, perm, Findings(settings, b), Findings(settings, a)) by {
      forall f | f in Findings(settings, b)
        ensures f.left < |back| && f.right < |back| && Moved(back, f) in Findings(settings, a)
          && Moved(back, f).left < |perm| && Moved(back, f).right < |perm| && Moved(perm, Moved(back, f)) == f
      {
        MovedIsFound(settings, back, perm, b, a, f);
      }
    }
    ListsCorrespond(perm, back, Findings(settings, a), Findings(settings, b));
  }

  // --- Settling in step ----------------------------------------------------

  function Flipped(r: Ruling): Ruling {
    match r
    case KeepLeft(reason) => KeepRight(reason)
    case KeepRight(reason) => KeepLeft(reason)
    case LeaveBoth => LeaveBoth
  }

  /** The ruling on two people who can be told apart does not depend on which comes first. */
  lemma RulingFlips(a: Person, b: Person)
    requires ToldApart(a, b)
    ensures Authority(b, a) == Flipped(Authority(a, b))
  {
    EquallyShownExactly(a, b);
    KeyLeAntisymmetric(KeyFor(a), KeyFor(b));
  }

  /** The two passes stand alike: same people, same lists, the same of them dropped. */
  ghost predicate InStep(perm: seq<nat>, p: Pass, q: Pass) {
    && |perm| == |p.people| == |q.people|
    && p.unresolved == q.unresolved && |p.log| == |q.log|
    && (forall i :: 0 <= i < |perm| ==> perm[i] < |perm|)
    && forall i :: 0 <= i < |perm| ==> AlikeAt(perm, p, q, i)
  }

  ghost predicate AlikeAt(perm: seq<nat>, p: Pass, q: Pass, i: nat)
    requires |perm| == |p.people| == |q.people| && i < |perm|
  {
    && perm[i] < |q.people| && q.people[perm[i]] == p.people[i]
    && (i in DroppedIn(p.log) <==> perm[i] in DroppedIn(q.log))
  }

  ghost predicate OneToOne(perm: seq<nat>) {
    forall i, j :: 0 <= i < j < |perm| ==> perm[i] != perm[j]
  }

  lemma TakeOverDrops(pass: Pass, dropped: nat, keeper: nat, reason: string)
    requires dropped < |pass.people| && keeper < |pass.people|
    ensures DroppedIn(TakeOver(pass, dropped, keeper, reason).log) == DroppedIn(pass.log) + {dropped}
  {
    var next := TakeOver(pass, dropped, keeper, reason);
    assert next.log[..|next.log| - 1] == pass.log;
  }

  lemma TakeOverInStep(perm: seq<nat>, p: Pass, q: Pass, dropped: nat, keeper: nat, reason: string)
    requires InStep(perm, p, q) && OneToOne(perm) && dropped < |perm| && keeper < |perm|
    ensures InStep(perm, TakeOver(p, dropped, keeper, reason), TakeOver(q, perm[dropped], perm[keeper], reason))
  {
    assert AlikeAt(perm, p, q, dropped) && AlikeAt(perm, p, q, keeper);
    var p', q' := TakeOver(p, dropped, keeper, reason), TakeOver(q, perm[dropped], perm[keeper], reason);
    TakeOverDrops(p, dropped, keeper, reason);
    TakeOverDrops(q, perm[dropped], perm[keeper], reason);
    forall i | 0 <= i < |perm| ensures AlikeAt(perm, p', q', i) {
      assert AlikeAt(perm, p, q, i);
      assert i != keeper ==> perm[i] != perm[keeper];
      assert i != dropped ==> perm[i] != perm[dropped];
    }
  }

  lemma SettleInStep(perm: seq<nat>, p: Pass, q: Pass, f: Finding)
    requires InStep(perm, p, q) && OneToOne(perm) && f.left < |perm| && f.right < |perm| && f.left != f.right
    requires ToldApart(p.people[f.left], p.people[f.right])
    ensures Moved(perm, f).left < |perm| && Moved(perm, f).right < |perm|
    ensures InStep(perm, Settle(p, f), Settle(q, Moved(perm, f)))
  {
    assert AlikeAt(perm, p, q, f.left) && AlikeAt(perm, p, q, f.right);
    var l, r := p.people[f.left], p.people[f.right];
    RulingFlips(l, r);
    if f.left !in DroppedIn(p.log) && f.right !in DroppedIn(p.log) {
      match Authority(l, r)
      case KeepLeft(reason) => TakeOverInStep(perm, p, q, f.right, f.left, reason);
      case KeepRight(reason) => TakeOverInStep(perm, p, q, f.left, f.right, reason);
      case LeaveBoth => UnresolvedInStep(perm, p, q);
    }
  }

  lemma UnresolvedInStep(perm: seq<nat>, p: Pass, q: Pass)
    requires InStep(perm, p, q)
    ensures InStep(perm, p.(unresolved := p.unresolved + 1), q.(unresolved := q.unresolved + 1))
  {
    var p', q' := p.(unresolved := p.unresolved + 1), q.(unresolved := q.unresolved + 1);
    forall i | 0 <= i < |perm| ensures AlikeAt(perm, p', q', i) {
      assert AlikeAt(perm, p, q, i);
    }
  }

  ghost predicate Corresponding(perm: seq<nat>, people: seq<Person>, x: seq<Finding>, y: seq<Finding>) {
    && |x| == |y| && |perm| == |people|
    && forall i :: 0 <= i < |x| ==>
         && x[i].left < |perm| && x[i].right < |perm| && x[i].left != x[i].right
         && y[i] == Moved(perm, x[i]) && ToldApart(people[x[i].left], people[x[i].right])
  }

  lemma ApartMidway(people: seq<Person>, pass: Pass, i: nat, j: nat)
    requires PassOk(people, pass) && i < |people| && j < |people| && ToldApart(people[i], people[j])
    ensures ToldApart(pass.people[i], pass.people[j])
  {
    SameToTell(people[i], pass.people[i]);
    SameToTell(people[j], pass.people[j]);
    EquallyShownExactly(people[i], people[j]);
    EquallyShownExactly(pass.people[i], pass.people[j]);
  }

  lemma SameToTell(a: Person, b: Person)
    requires SameButList(b, a)
    ensures DisplayRank(a) == DisplayRank(b) && a.identity == b.identity && KeyFor(a) == KeyFor(b)
  {
    assert a.observations == a.(suppressed := []).observations == b.observations;
    assert a.identity == a.(suppressed := []).identity && a.sources == a.(suppressed := []).sources;
    assert b.identity == b.(suppressed := []).identity && b.sources == b.(suppressed := []).sources;
  }

  lemma {:induction false} SettledInStep(
    perm: seq<nat>, a: seq<Person>, b: seq<Person>, x: seq<Finding>, y: seq<Finding>)
    requires |perm| == |a| == |b| && OneToOne(perm) && Corresponding(perm, a, x, y)
    requires InList(x, |a|) && InList(y, |b|) && Proper(x)
    requires InStep(perm, Pass(a, [], 0), Pass(b, [], 0))
    ensures InStep(perm, SettleAll(a, x), SettleAll(b, y))
  {
    if x != [] {
      var last := |x| - 1;
      SettledInStep(perm, a, b, x[..last], y[..last]);
      SettleAllOk(a, x[..last]);
      ApartMidway(a, SettleAll(a, x[..last]), x[last].left, x[last].right);
      SettleInStep(perm, SettleAll(a, x[..last]), SettleAll(b, y[..last]), x[last]);
    }
  }

  /**
   The order in which people arrive decides nothing, as long as no two
   duplicate pairs tie in kind and distance and the two of each can be told
   apart: the same people are dropped, and everybody else is the same, with the
   same list in the same order.
   */
  lemma OrderDecidesNothing(settings: Settings, perm: seq<nat>, back: seq<nat>, a: seq<Person>, b: seq<Person>)
    requires Symmetric(settings) && Reorders(perm, back, a, b) && NoTies(settings, a)
    ensures InStep(perm, FinalPass(settings, a), FinalPass(settings, b))
  {
    FindingsFit(settings, a);
    FindingsFit(settings, b);
    FindingsCorrespond(settings, perm, back, a, b);
    var x, y := Findings(settings, a), Findings(settings, b);
    forall i | 0 <= i < |x| ensures ToldApart(a[x[i].left], a[x[i].right]) {
      assert x[i] in x;
    }
    forall i, j | 0 <= i < j < |perm| ensures perm[i] != perm[j] {
      assert back[perm[i]] == i && back[perm[j]] == j;
    }
    forall i | 0 <= i < |perm| ensures AlikeAt(perm, Pass(a, [], 0), Pass(b, [], 0), i) {}
    SettledInStep(perm, a, b, x, y);
  }

  // --- The survivors, whatever their order ---------------------------------

  /** The marked places. */
  ghost function Marked(marks: seq<bool>): set<nat> {
    set i: nat | i < |marks| && marks[i]
  }

  lemma MarkedNext(marks: seq<bool>, more: bool)
    ensures |Marked(marks + [more])| == |Marked(marks)| + (if more then 1 else 0)
  {
    var before, after := Marked(marks), Marked(marks + [more]);
    assert after == if more then before + {|marks|} else before;
  }

  /** The places below `n` at which this very person is left. */
  ghost function Places(people: seq<Person>, dropped: set<nat>, n: nat, x: Person): seq<bool>
    requires n <= |people|
  {
    seq(n, i requires 0 <= i < n => i !in dropped && people[i] == x)
  }

  ghost function Left(people: seq<Person>, dropped: set<nat>, n: nat): seq<Person>
    requires n <= |people|
  {
    Pick(people, KeptIndices(dropped, n))
  }

  lemma LeftNext(people: seq<Person>, dropped: set<nat>, n: nat)
    requires n < |people|
    ensures Left(people, dropped, n + 1) == Left(people, dropped, n) + (if n in dropped then [] else [people[n]])
  {
  }

  lemma OneMoreCounted<T>(s: seq<T>, kept: bool, y: T, x: T)
    ensures multiset(s + (if kept then [y] else []))[x] == multiset(s)[x] + (if kept && y == x then 1 else 0)
  {
  }

  lemma {:induction false} LeftCounts(people: seq<Person>, dropped: set<nat>, n: nat, x: Person)
    requires n <= |people|
    ensures multiset(Left(people, dropped, n))[x] == |Marked(Places(people, dropped, n, x))|
  {
    if n == 0 {
      assert Marked(Places(people, dropped, 0, x)) == {};
    } else {
      var m := n - 1;
      LeftCounts(people, dropped, m, x);
      LeftNext(people, dropped, m);
      OneMoreCounted(Left(people, dropped, m), m !in dropped, people[m], x);
      MarkedNext(Places(people, dropped, m, x), m !in dropped && people[m] == x);
      PlacesNext(people, dropped, m, x);
    }
  }

  lemma PlacesNext(people: seq<Person>, dropped: set<nat>, n: nat, x: Person)
    requires n < |people|
    ensures Places(people, dropped, n + 1, x) == Places(people, dropped, n, x) + [n !in dropped && people[n] == x]
  {
  }

  /** What goes one to one into a set is no more than the set. */
  lemma {:induction false} NoMore(perm: seq<nat>, from: set<nat>, to: set<nat>)
    requires OneToOne(perm) && forall i :: i in from ==> i < |perm| && perm[i] in to
    ensures |from| <= |to|
  {
    if from != {} {
      var i :| i in from;
      forall j | j in from - {i} ensures perm[j] in to - {perm[i]} {
        assert if i < j then perm[i] != perm[j] else perm[j] != perm[i];
      }
      NoMore(perm, from - {i}, to - {perm[i]});
    }
  }

  lemma PlacesGo(perm: seq<nat>, p: Pass, q: Pass, x: Person)
    requires InStep(perm, p, q) && OneToOne(perm)
    ensures |Marked(Places(p.people, DroppedIn(p.log), |p.people|, x))|
         <= |Marked(Places(q.people, DroppedIn(q.log), |q.people|, x))|
  {
    var from := Marked(Places(p.people, DroppedIn(p.log), |p.people|, x));
    var to := Marked(Places(q.people, DroppedIn(q.log), |q.people|, x));
    forall i | i in from ensures i < |perm| && perm[i] in to {
      assert AlikeAt(perm, p, q, i);
    }
    NoMore(perm, from, to);
  }

  lemma InStepBack(perm: seq<nat>, back: seq<nat>, a: seq<Person>, b: seq<Person>, p: Pass, q: Pass)
    requires Reorders(perm, back, a, b) && |p.people| == |a| && InStep(perm, p, q)
    ensures InStep(back, q, p) && OneToOne(perm) && OneToOne(back)
  {
    forall j | 0 <= j < |back| ensures back[j] < |back| && AlikeAt(back, q, p, j) {
      assert perm[back[j]] == j && AlikeAt(perm, p, q, back[j]);
    }
    forall i, j | 0 <= i < j < |perm| ensures perm[i] != perm[j] {
      assert back[perm[i]] == i && back[perm[j]] == j;
    }
    forall i, j | 0 <= i < j < |back| ensures back[i] != back[j] {
      assert perm[back[i]] == i && perm[back[j]] == j;
    }
  }

  /** So the people drawn are the same, each as often and with the same list. */
  lemma SameSurvivors(settings: Settings, perm: seq<nat>, back: seq<nat>, a: seq<Person>, b: seq<Person>)
    requires Symmetric(settings) && Reorders(perm, back, a, b) && NoTies(settings, a)
    ensures multiset(Suppress(settings, a)) == multiset(Suppress(settings, b))
  {
    var p, q := FinalPass(settings, a), FinalPass(settings, b);
    OrderDecidesNothing(settings, perm, back, a, b);
    InStepBack(perm, back, a, b, p, q);
    forall x ensures multiset(Suppress(settings, a))[x] == multiset(Suppress(settings, b))[x] {
      PlacesGo(perm, p, q, x);
      PlacesGo(back, q, p, x);
      LeftCounts(p.people, DroppedIn(p.log), |a|, x);
      LeftCounts(q.people, DroppedIn(q.log), |b|, x);
    }
  }
}
